/**
 The click pipeline as a step system: producers (`trackClick`), flush workers
 (`flush`/`persistBatch`) and on-demand consumers (`processBufferedClicks`) share one
 Redis list and one SQL table. Each Redis command and each SQL statement is one step; any
 number of processes interleave, and each command may fail before or after it took effect.

 An action that does not fit the current state changes nothing, so every sequence of
 actions is a run: a statement about all sequences is a statement about all interleavings
 and all faults.
 (src/services/analytics/analyticsService.ts:42-134, src/workers/analyticsFlushWorker.ts:60-152)
 */
module ClickMachine {
  import opened Environment
  import opened ClickEvents

  const MAX_BUFFER_SIZE: nat := 10000

  /** `workers` flush workers, each popping `batch` events a cycle. */
  datatype Config = Config(checks: Checks, batch: nat, workers: nat)

  /** The two kinds of process that take events off the list. */
  datatype Consumer = Worker | Service

  /** Where a process stands: the command it sends next, and what it holds. */
  datatype Phase =
    // trackClick
    | Checking(e: Event)   // LLEN
    | Counting(e: Event)   // HINCRBY
    | Visiting(e: Event)   // SADD
    | Pushing(e: Event)    // RPUSH
    | Tracked
    // flush; `Popping(0, got)` waits for the pipeline's combined reply
    | Idle
    | Popping(left: nat, got: seq<Raw>)  // LPOP
    // processBufferedClicks
    | Draining(left: nat, got: seq<Raw>) // LPOP
    | Consumed
    // both, with `stored` telling whether the batch's rows reached the table
    | Connecting(who: Consumer, batch: seq<Raw>)
    | Beginning(batch: seq<Raw>)
    | Inserting(who: Consumer, batch: seq<Raw>)
    | Committing(batch: seq<Raw>)
    | RollingBack(batch: seq<Raw>, code: string, stored: bool)
    | Requeueing(who: Consumer, rest: seq<Raw>, stored: bool) // RPUSH

  datatype Visit = Visit(urlId: string, day: string, ip: string, userAgent: string)

  /** The real-time counters, and the history they are judged by: the events pushed, the
      clicks counted by producers that then failed, and every visit recorded. */
  datatype Counters = Counters(
    clicks: map<string, nat>,
    visitors: map<(string, string), set<string>>,
    captured: seq<Event>,
    uncounted: seq<string>,
    visits: seq<Visit>)

  /** The run's history of events: pushed for the first time, pushed back although already
      stored, discarded as malformed, lost. */
  datatype Books = Books(pushed: seq<Raw>, copies: seq<Raw>, discarded: seq<Raw>, lost: seq<Raw>)

  /** What the processes share. */
  datatype Stores = Stores(buffer: seq<Raw>, table: seq<Raw>, today: string, counters: Counters, books: Books)

  datatype State = State(stores: Stores, procs: seq<Phase>)

  /** What one command leaves behind: the stores, and the sender's next phase. */
  datatype Move = Move(stores: Stores, phase: Phase)

  datatype Action =
    | Arrive(urlId: string, timestamp: string, ip: string, userAgent: string, referer: string)
    | Tick(p: nat)                  // the timer of worker p, or stop()
    | Consume(size: nat)            // a call of processBufferedClicks
    | Advance(p: nat, reply: Reply) // the next command of process p, and its reply
    | Midnight(day: string)
    | Foreign(raw: Raw)             // something else writes to the list

  function Init(cfg: Config, day: string): State {
    State(Stores([], [], day, Counters(map[], map[], [], [], []), Books([], [], [], [])),
          seq(cfg.workers, i => Idle))
  }

  /** The SQLSTATEs the worker re-queues on. */
  predicate IsTransient(code: string) {
    code == "08001" || code == "08003" || code == "08006" || code == "57P01"
  }

  function Ended(who: Consumer): Phase {
    if who.Worker? then Idle else Consumed
  }

  /** The events of a batch that are not in the table. The worker stores only the
      well-formed ones, the on-demand consumer stores all it could parse. */
  function Unstored(checks: Checks, who: Consumer, batch: seq<Raw>, stored: bool): seq<Raw> {
    if !stored then batch else if who.Worker? then InvalidOf(checks, batch) else []
  }

  predicate IsStored(checks: Checks, who: Consumer, raw: Raw, stored: bool) {
    stored && (who.Service? || WellFormed(checks, raw))
  }

  /** Events dropped for good: the well-formed ones are lost, the others only discarded. */
  function Abandon(cfg: Config, s: Stores, batch: seq<Raw>): Stores {
    s.(books := s.books.(lost := s.books.lost + ValidOf(cfg.checks, batch),
                         discarded := s.books.discarded + InvalidOf(cfg.checks, batch)))
  }

  /******* Producers *******/

  function CountClick(c: Counters, urlId: string): Counters {
    c.(clicks := c.clicks[urlId := 1 + if urlId in c.clicks then c.clicks[urlId] else 0])
  }

  function Fingerprint(ip: string, userAgent: string): string {
    ip + ":" + userAgent
  }

  function CountVisit(c: Counters, e: Event, day: string): Counters {
    var key := (e.urlId, day);
    c.(visitors := c.visitors[key := {Fingerprint(e.ip, e.userAgent)}
                                     + if key in c.visitors then c.visitors[key] else {}],
       visits := c.visits + [Visit(e.urlId, day, e.ip, e.userAgent)])
  }

  /** The producer gives up after its click was counted. */
  function GiveUp(c: Counters, e: Event): Counters {
    c.(uncounted := c.uncounted + [e.urlId])
  }

  function PushClick(s: Stores, e: Event): Stores {
    s.(buffer := s.buffer + [Payload(e)],
       counters := s.counters.(captured := s.counters.captured + [e]),
       books := s.books.(pushed := s.books.pushed + [Payload(e)]))
  }

  function CheckStep(s: Stores, e: Event, reply: Reply): Move {
    Move(s, if reply.Done? && |s.buffer| < MAX_BUFFER_SIZE then Counting(e) else Tracked)
  }

  function CountStep(s: Stores, e: Event, reply: Reply): Move {
    if reply.Done? then Move(s.(counters := CountClick(s.counters, e.urlId)), Visiting(e))
    else if reply.applied then Move(s.(counters := GiveUp(CountClick(s.counters, e.urlId), e)), Tracked)
    else Move(s, Tracked)
  }

  function VisitStep(s: Stores, e: Event, reply: Reply): Move {
    if reply.Done? then Move(s.(counters := CountVisit(s.counters, e, s.today)), Pushing(e))
    else if reply.applied then Move(s.(counters := GiveUp(CountVisit(s.counters, e, s.today), e)), Tracked)
    else Move(s.(counters := GiveUp(s.counters, e)), Tracked)
  }

  function PushStep(s: Stores, e: Event, reply: Reply): Move {
    if reply.Done? || reply.applied then Move(PushClick(s, e), Tracked)
    else Move(s.(counters := GiveUp(s.counters, e)), Tracked)
  }

  /******* Taking events off the list *******/

  /** The worker has its batch: nothing to do, nothing worth storing, or on to the database. */
  function ReadBatch(cfg: Config, s: Stores, got: seq<Raw>): Move {
    if got == [] then Move(s, Idle)
    else if ValidOf(cfg.checks, got) == [] then Move(Abandon(cfg, s, got), Idle)
    else Move(s, Connecting(Worker, got))
  }

  /** One LPOP of the pipeline, or (none left) the reply of the whole pipeline. */
  function PopStep(cfg: Config, s: Stores, left: nat, got: seq<Raw>, reply: Reply): Move {
    if left == 0 then
      if reply.Done? then ReadBatch(cfg, s, got) else Move(Abandon(cfg, s, got), Idle)
    else if s.buffer == [] || (reply.Fault? && !reply.applied) then
      Move(s, Popping(left - 1, got))
    else
      var rest := s.(buffer := s.buffer[1..]);
      if reply.Done? then Move(rest, Popping(left - 1, got + [s.buffer[0]]))
      else Move(Abandon(cfg, rest, [s.buffer[0]]), Popping(left - 1, got))
  }

  function Drained(got: seq<Raw>): Phase {
    if got == [] then Consumed else Connecting(Service, got)
  }

  /** One LPOP of the on-demand consumer. An error escapes with everything popped so far; an
      empty string ends the loop; unparseable text is discarded. */
  function DrainStep(cfg: Config, s: Stores, left: nat, got: seq<Raw>, reply: Reply): Move {
    if s.buffer == [] || (reply.Fault? && !reply.applied) then
      if reply.Done? then Move(s, Drained(got)) else Move(Abandon(cfg, s, got), Consumed)
    else
      var raw, rest := s.buffer[0], s.(buffer := s.buffer[1..]);
      if reply.Fault? then Move(Abandon(cfg, rest, got + [raw]), Consumed)
      else if raw == Garbage("") then Move(Abandon(cfg, rest, [raw]), Drained(got))
      else if raw.Garbage? then
        Move(Abandon(cfg, rest, [raw]), if left <= 1 then Drained(got) else Draining(left - 1, got))
      else
        Move(rest, if left <= 1 then Drained(got + [raw]) else Draining(left - 1, got + [raw]))
  }

  /******* Storing a batch *******/

  function Store(s: Stores, rows: seq<Raw>): Stores {
    s.(table := s.table + rows)
  }

  function ConnectStep(cfg: Config, s: Stores, who: Consumer, batch: seq<Raw>, reply: Reply): Move {
    if reply.Fault? then Move(Abandon(cfg, s, batch), Ended(who))
    else Move(s, if who.Worker? then Beginning(batch) else Inserting(Service, batch))
  }

  function BeginStep(s: Stores, batch: seq<Raw>, reply: Reply): Move {
    Move(s, if reply.Done? then Inserting(Worker, batch) else RollingBack(batch, reply.code, false))
  }

  function InsertStep(s: Stores, who: Consumer, batch: seq<Raw>, reply: Reply): Move {
    if who.Worker? then
      Move(s, if reply.Done? then Committing(batch) else RollingBack(batch, reply.code, false))
    else if !AllBindable(batch) then Move(s, Requeueing(Service, batch, false))
    else if reply.Done? then Move(Store(s, batch), Consumed)
    else if reply.applied then Move(Store(s, batch), Requeueing(Service, batch, true))
    else Move(s, Requeueing(Service, batch, false))
  }

  function CommitStep(cfg: Config, s: Stores, batch: seq<Raw>, reply: Reply): Move {
    var stored := Store(s, ValidOf(cfg.checks, batch));
    if reply.Done? then Move(Abandon(cfg, stored, InvalidOf(cfg.checks, batch)), Idle)
    else Move(if reply.applied then stored else s, RollingBack(batch, reply.code, reply.applied))
  }

  function RollbackStep(cfg: Config, s: Stores, batch: seq<Raw>, code: string, stored: bool, reply: Reply): Move {
    if reply.Done? && IsTransient(code) then Move(s, Requeueing(Worker, batch, stored))
    else Move(Abandon(cfg, s, Unstored(cfg.checks, Worker, batch, stored)), Idle)
  }

  function PushBack(cfg: Config, s: Stores, who: Consumer, raw: Raw, stored: bool): Stores {
    s.(buffer := s.buffer + [raw],
       books := if IsStored(cfg.checks, who, raw, stored) then s.books.(copies := s.books.copies + [raw])
                else s.books)
  }

  function RequeueStep(cfg: Config, s: Stores, who: Consumer, rest: seq<Raw>, stored: bool, reply: Reply): Move {
    if rest == [] then Move(s, Ended(who))
    else if reply.Done? then
      Move(PushBack(cfg, s, who, rest[0], stored),
           if rest[1..] == [] then Ended(who) else Requeueing(who, rest[1..], stored))
    else if reply.applied then
      Move(Abandon(cfg, PushBack(cfg, s, who, rest[0], stored), Unstored(cfg.checks, who, rest[1..], stored)),
           Ended(who))
    else Move(Abandon(cfg, s, Unstored(cfg.checks, who, rest, stored)), Ended(who))
  }

  /******* The system *******/

  function Step(cfg: Config, s: Stores, ph: Phase, reply: Reply): Move {
    match ph
    case Checking(e) => CheckStep(s, e, reply)
    case Counting(e) => CountStep(s, e, reply)
    case Visiting(e) => VisitStep(s, e, reply)
    case Pushing(e) => PushStep(s, e, reply)
    case Popping(left, got) => PopStep(cfg, s, left, got, reply)
    case Draining(left, got) => DrainStep(cfg, s, left, got, reply)
    case Connecting(who, batch) => ConnectStep(cfg, s, who, batch, reply)
    case Beginning(batch) => BeginStep(s, batch, reply)
    case Inserting(who, batch) => InsertStep(s, who, batch, reply)
    case Committing(batch) => CommitStep(cfg, s, batch, reply)
    case RollingBack(batch, code, stored) => RollbackStep(cfg, s, batch, code, stored, reply)
    case Requeueing(who, rest, stored) => RequeueStep(cfg, s, who, rest, stored, reply)
    case _ => Move(s, ph)
  }

  /** The phase a new process starts in, when the action starts one. */
  function Spawned(cfg: Config, a: Action): Option<Phase> {
    match a
    case Arrive(urlId, timestamp, ip, userAgent, referer) =>
      if cfg.checks.isIP(ip) then Some(Checking(Captured(urlId, timestamp, ip, userAgent, referer))) else None
    case Consume(size) => Some(if size == 0 then Consumed else Draining(size, []))
    case _ => None
  }

  function Deposit(s: Stores, raw: Raw): Stores {
    s.(buffer := s.buffer + [raw], books := s.books.(pushed := s.books.pushed + [raw]))
  }

  function Next(cfg: Config, s: State, a: Action): State {
    match a
    case Tick(p) =>
      if p < |s.procs| && s.procs[p].Idle? then s.(procs := s.procs[p := Popping(cfg.batch, [])]) else s
    case Advance(p, reply) =>
      if p < |s.procs| then
        var m := Step(cfg, s.stores, s.procs[p], reply);
        State(m.stores, s.procs[p := m.phase])
      else s
    case Midnight(day) => s.(stores := s.stores.(today := day))
    case Foreign(raw) => s.(stores := Deposit(s.stores, raw))
    case _ => if Spawned(cfg, a).Some? then s.(procs := s.procs + [Spawned(cfg, a).value]) else s
  }

  /** The state after a sequence of actions. */
  function Run(cfg: Config, s: State, acts: seq<Action>): State {
    if acts == [] then s else Next(cfg, Run(cfg, s, acts[..|acts| - 1]), acts[|acts| - 1])
  }

  lemma RunSnoc(cfg: Config, s: State, acts: seq<Action>, a: Action)
    ensures Run(cfg, s, acts + [a]) == Next(cfg, Run(cfg, s, acts), a)
  {
    assert (acts + [a])[..|acts|] == acts;
  }

  lemma {:induction false} RunConcat(cfg: Config, s: State, acts: seq<Action>, more: seq<Action>)
    ensures Run(cfg, s, acts + more) == Run(cfg, Run(cfg, s, acts), more)
  {
    hide Next;
    if more == [] {
      assert acts + more == acts;
    } else {
      RunConcat(cfg, s, acts, more[..|more| - 1]);
      assert (acts + more)[..|acts + more| - 1] == acts + more[..|more| - 1];
    }
  }

  lemma RunOne(cfg: Config, s: State, a: Action)
    ensures Run(cfg, s, [a]) == Next(cfg, s, a)
  {
    assert [a][..0] == [];
  }

  lemma SixSteps(cfg: Config, s: State, acts: seq<Action>)
    requires |acts| == 6
    ensures var t := Next(cfg, Next(cfg, Next(cfg, s, acts[0]), acts[1]), acts[2]);
            Run(cfg, s, acts) == Next(cfg, Next(cfg, Next(cfg, t, acts[3]), acts[4]), acts[5])
  {
    hide Next;
    RunOne(cfg, s, acts[0]);
    RunSnoc(cfg, s, acts[..1], acts[1]);
    RunSnoc(cfg, s, acts[..2], acts[2]);
    RunSnoc(cfg, s, acts[..3], acts[3]);
    RunSnoc(cfg, s, acts[..4], acts[4]);
    RunSnoc(cfg, s, acts[..5], acts[5]);
    assert acts[..1] == [acts[0]] && acts[..2] == acts[..1] + [acts[1]] && acts[..3] == acts[..2] + [acts[2]];
    assert acts[..4] == acts[..3] + [acts[3]] && acts[..5] == acts[..4] + [acts[4]] && acts == acts[..5] + [acts[5]];
  }

  /** The actions that process q takes part in. */
  predicate Moves(a: Action, q: int) {
    (a.Tick? || a.Advance?) && a.p == q
  }
}
