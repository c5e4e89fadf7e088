/**
 What producers and consumers can rely on in every run of `ClickMachine`: the worker's check
 accepts what the producers push, and what cannot be bound to a statement never reaches the
 table, however often it is taken off the list.
 (src/workers/analyticsFlushWorker.ts:50-58, src/services/analytics/analyticsService.ts:42-134)
 */
module ClickAgreement {
  import opened Environment
  import opened ClickEvents
  import opened WhiteSpace
  import opened ClickMachine
  import opened ClickLedger
  import ClickDelivery
  import Decimal

  /******* What producers push *******/

  predicate IsProducer(ph: Phase) {
    ph.Checking? || ph.Counting? || ph.Visiting? || ph.Pushing?
  }

  /** Every event a producer carries or has pushed comes from a valid address. */
  ghost predicate Addressed(cfg: Config, s: State) {
    && (forall p :: 0 <= p < |s.procs| && IsProducer(s.procs[p]) ==> cfg.checks.isIP(s.procs[p].e.ip))
    && (forall i :: 0 <= i < |s.stores.counters.captured| ==> cfg.checks.isIP(s.stores.counters.captured[i].ip))
  }

  lemma StepCaptures(cfg: Config, s: Stores, ph: Phase, reply: Reply)
    ensures var m := Step(cfg, s, ph, reply);
            && (IsProducer(m.phase) ==> IsProducer(ph) && m.phase.e == ph.e)
            && (m.stores.counters.captured == s.counters.captured
                || (IsProducer(ph) && m.stores.counters.captured == s.counters.captured + [ph.e]))
  {
    hide ValidOf, InvalidOf, WellFormed, AllBindable, Payload, Unstored, IsStored;
  }

  lemma NextAddressed(cfg: Config, s: State, a: Action)
    requires Addressed(cfg, s)
    ensures Addressed(cfg, Next(cfg, s, a))
  {
    hide Step, IsProducer;
    NewProducer(cfg, a);
    if a.Advance? && a.p < |s.procs| {
      StepCaptures(cfg, s.stores, s.procs[a.p], a.reply);
    }
  }

  lemma NewProducer(cfg: Config, a: Action)
    ensures Spawned(cfg, a).Some? && IsProducer(Spawned(cfg, a).value) ==> cfg.checks.isIP(Spawned(cfg, a).value.e.ip)
    ensures !IsProducer(Popping(cfg.batch, []))
  {
  }

  lemma {:induction false} AlwaysAddressed(cfg: Config, day: string, acts: seq<Action>)
    ensures Addressed(cfg, Run(cfg, Init(cfg, day), acts))
  {
    if acts != [] {
      hide Next;
      AlwaysAddressed(cfg, day, acts[..|acts| - 1]);
      NextAddressed(cfg, Run(cfg, Init(cfg, day), acts[..|acts| - 1]), acts[|acts| - 1]);
    }
  }

  /** In every run, each event a producer has pushed for a decimal url id passes the worker's
      check, and no copy of it is ever discarded as malformed. */
  lemma PushedEventsAreWellFormed(cfg: Config, day: string, acts: seq<Action>, i: nat)
    requires Sound(cfg.checks)
    requires var events := Run(cfg, Init(cfg, day), acts).stores.counters.captured;
             i < |events| && events[i].urlId != "" && Decimal.AllDigits(events[i].urlId)
    ensures var s := Run(cfg, Init(cfg, day), acts).stores;
            var r := Payload(s.counters.captured[i]);
            WellFormed(cfg.checks, r) && Count(s.books.discarded, r) == 0
  {
    hide Run, Payload, WellFormed, Sound, Count;
    var s := Run(cfg, Init(cfg, day), acts).stores;
    AlwaysAddressed(cfg, day, acts);
    PayloadWellFormed(cfg.checks, s.counters.captured[i]);
    ClickDelivery.RunSorted(cfg, day, acts);
    ClickDelivery.CountAbsent(s.books.discarded, Payload(s.counters.captured[i]));
  }

  /** The text pushed for a click: an object of five fields, the user agent and the referer
      cleaned. */
  function ClickText(urlId: string, timestamp: string, ip: string, userAgent: string, referer: string): Raw {
    Encoded(Object(map["url_id" := Text(urlId), "timestamp" := Text(timestamp), "ip_address" := Text(ip),
                       "user_agent" := Text(ServiceSanitize(userAgent)),
                       "referer" := Text(ServiceSanitize(referer))]))
  }

  /** A process that has arrived at its push appends that text, whatever happened since. */
  lemma PushAppendsClickText(s: Stores, urlId: string, timestamp: string, ip: string, userAgent: string,
                             referer: string)
    ensures var e := Captured(urlId, timestamp, ip, userAgent, referer);
            PushStep(s, e, Done).stores.buffer == s.buffer + [ClickText(urlId, timestamp, ip, userAgent, referer)]
  {
    hide ServiceSanitize;
    PayloadIsClickText(urlId, timestamp, ip, userAgent, referer);
  }

  lemma PayloadIsClickText(urlId: string, timestamp: string, ip: string, userAgent: string, referer: string)
    ensures Payload(Captured(urlId, timestamp, ip, userAgent, referer))
         == ClickText(urlId, timestamp, ip, userAgent, referer)
  {
    hide ServiceSanitize;
  }

  /** What the table has of a click afterwards, column by column. */
  function ClickRow(urlId: string, timestamp: string, ip: string, userAgent: string, referer: string)
    : map<string, Json>
  {
    map["url_id" := Text(urlId), "timestamp" := Text(timestamp), "ip_address" := Text(ip),
        "user_agent" := Text(TrimRight(ServiceSanitize(userAgent))),
        "referer" := Text(TrimRight(ServiceSanitize(referer)))]
  }

  /** The row the worker makes of a tracked click, under the columns its statement names. */
  lemma WorkerStoresClick(checks: Checks, urlId: string, timestamp: string, ip: string, userAgent: string,
                          referer: string)
    requires Sound(checks) && urlId != "" && Decimal.AllDigits(urlId) && checks.isIP(ip)
    ensures var r := ClickText(urlId, timestamp, ip, userAgent, referer);
            && WellFormed(checks, r)
            && Stored(RowOf(checks, r)) == ClickRow(urlId, timestamp, ip, userAgent, referer)
  {
    hide ServiceSanitize, WorkerSanitize, TrimRight, Stored;
    var r := ClickText(urlId, timestamp, ip, userAgent, referer);
    PayloadIsClickText(urlId, timestamp, ip, userAgent, referer);
    PayloadWellFormed(checks, Captured(urlId, timestamp, ip, userAgent, referer));
    StoredTextIsBufferedText(userAgent);
    StoredTextIsBufferedText(referer);
    StoredExactly(RowOf(checks, r));
  }

  /** And the row the on-demand consumer makes of it: the same. */
  lemma ServiceStoresClick(urlId: string, timestamp: string, ip: string, userAgent: string, referer: string)
    ensures var r := ClickText(urlId, timestamp, ip, userAgent, referer);
            Bindable(r) && Stored(ServiceRow(r)) == ClickRow(urlId, timestamp, ip, userAgent, referer)
  {
    hide ServiceSanitize, TrimRight, Stored;
    var r := ClickText(urlId, timestamp, ip, userAgent, referer);
    ServiceSanitizeAgain(userAgent);
    ServiceSanitizeAgain(referer);
    StoredExactly(ServiceRow(r));
  }

  /******* What never reaches the table *******/

  lemma WellFormedBindable(checks: Checks, raw: Raw)
    requires WellFormed(checks, raw)
    ensures Bindable(raw)
  {
  }

  lemma ValidBindable(checks: Checks, batch: seq<Raw>)
    ensures AllBindable(ValidOf(checks, batch))
  {
    hide WellFormed, Bindable;
    var valid := ValidOf(checks, batch);
    forall i | 0 <= i < |valid|
      ensures Bindable(valid[i])
    {
      WellFormedBindable(checks, valid[i]);
    }
  }

  lemma StepTable(cfg: Config, s: Stores, ph: Phase, reply: Reply)
    requires AllBindable(s.table)
    ensures AllBindable(Step(cfg, s, ph, reply).stores.table)
  {
    hide ValidOf, InvalidOf, WellFormed, Bindable, Payload, Unstored, IsStored;
    if ph.Committing? {
      ValidBindable(cfg.checks, ph.batch);
    }
  }

  lemma {:induction false} TableBindable(cfg: Config, day: string, acts: seq<Action>)
    ensures AllBindable(Run(cfg, Init(cfg, day), acts).stores.table)
  {
    if acts != [] {
      hide Step, Bindable;
      var s, a := Run(cfg, Init(cfg, day), acts[..|acts| - 1]), acts[|acts| - 1];
      TableBindable(cfg, day, acts[..|acts| - 1]);
      if a.Advance? && a.p < |s.procs| {
        StepTable(cfg, s.stores, s.procs[a.p], a.reply);
      }
    }
  }

  /** In every run, whatever consumers take it: an event that cannot be bound is never stored. */
  lemma UnbindableNeverStored(cfg: Config, day: string, acts: seq<Action>, r: Raw)
    requires !Bindable(r)
    ensures Count(Run(cfg, Init(cfg, day), acts).stores.table, r) == 0
  {
    hide Run, Bindable, Count;
    TableBindable(cfg, day, acts);
    ClickDelivery.CountAbsent(Run(cfg, Init(cfg, day), acts).stores.table, r);
  }

  /** The JSON text null, pushed by something else, and one undisturbed on-demand call. */
  function NullRun(cfg: Config): seq<Action> {
    var p := cfg.workers;
    [Foreign(Encoded(Null)), Consume(1), Advance(p, Done), Advance(p, Done), Advance(p, Done), Advance(p, Done)]
  }

  lemma UnbindableComesBack(cfg: Config, s: State, p: nat, raw: Raw)
    requires p < |s.procs| && s.procs[p] == Draining(1, []) && s.stores.buffer == [raw]
    requires raw.Encoded? && !Bindable(raw)
    ensures var done := Advance(p, Done);
            var t := Next(cfg, Next(cfg, Next(cfg, Next(cfg, s, done), done), done), done);
            t.stores.buffer == [raw] && t.stores.table == s.stores.table && t.procs == s.procs[p := Consumed]
  {
    hide Bindable;
    var done := Advance(p, Done);
    assert [] + [raw] == [raw] && [raw][1..] == [];
    var s3 := Next(cfg, s, done);
    assert s3.procs[p] == Connecting(Service, [raw]);
    var s4 := Next(cfg, s3, done);
    assert s4.procs[p] == Inserting(Service, [raw]) && !Bindable([raw][0]);
    var s5 := Next(cfg, s4, done);
    assert s5.procs[p] == Requeueing(Service, [raw], false);
  }

  /** The call ends with the list as it was: null parses but cannot be bound, and comes back. */
  lemma NullComesBack(cfg: Config, day: string)
    ensures var s0 := Init(cfg, day);
            var s := Run(cfg, s0, NullRun(cfg));
            && !Bindable(Encoded(Null))
            && s.stores.buffer == [Encoded(Null)] && s.stores.table == []
            && s.procs == s0.procs + [Consumed]
  {
    hide WellFormed, ValidOf, InvalidOf, Run, Unstored, IsStored, Abandon, Payload;
    var s0, acts, raw := Init(cfg, day), NullRun(cfg), Encoded(Null);
    var s1 := Next(cfg, s0, acts[0]);
    var s2 := Next(cfg, s1, acts[1]);
    assert [] + [raw] == [raw];
    assert s1.stores.buffer == [raw] && s2.procs[cfg.workers] == Draining(1, []);
    UnbindableComesBack(cfg, s2, cfg.workers, raw);
    SixSteps(cfg, s0, acts);
  }

  /******* What a fault means *******/

  /** A command that fails leaves the data as a successful one does if it was carried out, and as
      it was if not. */
  lemma FaultsExactly(cfg: Config, s: Stores, ph: Phase, code: string)
    ensures var t, done := Step(cfg, s, ph, Fault(true, code)).stores, Step(cfg, s, ph, Done).stores;
            && t.buffer == done.buffer && t.table == done.table
            && t.counters.clicks == done.counters.clicks && t.counters.visitors == done.counters.visitors
    ensures var t := Step(cfg, s, ph, Fault(false, code)).stores;
            && t.buffer == s.buffer && t.table == s.table
            && t.counters.clicks == s.counters.clicks && t.counters.visitors == s.counters.visitors
  {
    hide ValidOf, InvalidOf, WellFormed, AllBindable, Payload, Unstored, IsStored;
  }

  /** HINCRBY adds one to the URL's clicks, counting from nothing. */
  lemma CountExactly(cfg: Config, s: Stores, e: Event)
    ensures var t := Step(cfg, s, Counting(e), Done).stores;
            var before := if e.urlId in s.counters.clicks then s.counters.clicks[e.urlId] else 0;
            && t.counters.clicks == s.counters.clicks[e.urlId := before + 1]
            && t.counters.visitors == s.counters.visitors && t.buffer == s.buffer && t.table == s.table
  {
  }

  /** SADD adds the visitor to the URL's set of the day, an empty one if there is none. */
  lemma VisitExactly(cfg: Config, s: Stores, e: Event)
    ensures var t := Step(cfg, s, Visiting(e), Done).stores;
            var key := (e.urlId, s.today);
            var before := if key in s.counters.visitors then s.counters.visitors[key] else {};
            && t.counters.visitors == s.counters.visitors[key := before + {e.ip + ":" + e.userAgent}]
            && t.counters.clicks == s.counters.clicks && t.buffer == s.buffer && t.table == s.table
  {
    var key := (e.urlId, s.today);
    var before := if key in s.counters.visitors then s.counters.visitors[key] else {};
    var f := Fingerprint(e.ip, e.userAgent);
    assert f == e.ip + ":" + e.userAgent;
    assert {f} + before == before + {f};
  }

  /** LPOP takes the head of a list that has one, and the consumer holds it; RPUSH, one event at a
      time, puts the batch's head behind the list. */
  lemma PopAndPushExactly(cfg: Config, s: Stores, left: nat, got: seq<Raw>, who: Consumer, batch: seq<Raw>, b: bool)
    ensures left > 0 && s.buffer != [] ==>
              && Step(cfg, s, Popping(left, got), Done).stores.buffer == s.buffer[1..]
              && Step(cfg, s, Popping(left, got), Done).phase == Popping(left - 1, got + [s.buffer[0]])
              && Step(cfg, s, Draining(left, got), Done).stores.buffer == s.buffer[1..]
    ensures batch != [] ==>
              Step(cfg, s, Requeueing(who, batch, b), Done).stores.buffer == s.buffer + [batch[0]]
  {
    hide ValidOf, InvalidOf, WellFormed, AllBindable, Payload, Unstored, IsStored;
  }

  /** COMMIT makes the batch's well-formed events durable in order, and the on-demand INSERT, if the
      batch can be bound, every event of it. */
  lemma StoreExactly(cfg: Config, s: Stores, batch: seq<Raw>)
    ensures Step(cfg, s, Committing(batch), Done).stores.table == s.table + ValidOf(cfg.checks, batch)
    ensures Step(cfg, s, Inserting(Service, batch), Done).stores.table
      == (if AllBindable(batch) then s.table + batch else s.table)
  {
    hide ValidOf, InvalidOf, WellFormed, AllBindable, Payload, Unstored, IsStored;
  }
}
