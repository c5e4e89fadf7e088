/**
 The real-time counters of the click pipeline, over every run of `ClickMachine`: what the
 per-URL click total and the visitor sets say about the events pushed.
 (src/services/analytics/analyticsService.ts:53-76)
 */
module ClickCounters {
  import opened Environment
  import opened WhiteSpace
  import opened ClickEvents
  import opened ClickMachine
  import opened ClickLedger

  function Clicks(c: Counters, u: string): nat {
    if u in c.clicks then c.clicks[u] else 0
  }

  /** Events pushed for a URL. */
  function CapturedFor(events: seq<Event>, u: string): nat {
    if events == [] then 0
    else CapturedFor(events[..|events| - 1], u) + if events[|events| - 1].urlId == u then 1 else 0
  }

  /** Producers that counted a click on a URL and then failed. */
  function UncountedFor(urls: seq<string>, u: string): nat {
    if urls == [] then 0 else UncountedFor(urls[..|urls| - 1], u) + if urls[|urls| - 1] == u then 1 else 0
  }

  /** 1 for a producer past HINCRBY and not finished. */
  function PastCount(u: string): Phase -> nat {
    (ph: Phase) => if (ph.Visiting? || ph.Pushing?) && ph.e.urlId == u then 1 else 0
  }

  ghost predicate TotalsAgree(s: State, u: string) {
    var c := s.stores.counters;
    Clicks(c, u) == CapturedFor(c.captured, u) + Total(s.procs, PastCount(u)) + UncountedFor(c.uncounted, u)
  }

  /** Clicks counted on either side of a command balance. */
  ghost predicate TotalsBalance(c: Counters, ph: Phase, c': Counters, ph': Phase, u: string) {
    Clicks(c', u) + CapturedFor(c.captured, u) + UncountedFor(c.uncounted, u) + PastCount(u)(ph)
      == Clicks(c, u) + CapturedFor(c'.captured, u) + UncountedFor(c'.uncounted, u) + PastCount(u)(ph')
  }

  lemma CapturedMore(events: seq<Event>, e: Event, u: string)
    ensures CapturedFor(events + [e], u) == CapturedFor(events, u) + if e.urlId == u then 1 else 0
  {
    assert (events + [e])[..|events|] == events;
  }

  lemma UncountedMore(urls: seq<string>, url: string, u: string)
    ensures UncountedFor(urls + [url], u) == UncountedFor(urls, u) + if url == u then 1 else 0
  {
    assert (urls + [url])[..|urls|] == urls;
  }

  lemma TrackTotals(cfg: Config, s: Stores, ph: Phase, reply: Reply, u: string)
    requires ph.Checking? || ph.Counting? || ph.Visiting? || ph.Pushing?
    ensures var m := Step(cfg, s, ph, reply);
            TotalsBalance(s.counters, ph, m.stores.counters, m.phase, u)
  {
    hide Payload, CapturedFor, UncountedFor;
    CapturedMore(s.counters.captured, ph.e, u);
    UncountedMore(s.counters.uncounted, ph.e.urlId, u);
  }

  lemma ConsumersLeaveCounters(cfg: Config, s: Stores, ph: Phase, reply: Reply)
    requires !(ph.Checking? || ph.Counting? || ph.Visiting? || ph.Pushing?)
    ensures var m := Step(cfg, s, ph, reply);
            m.stores.counters == s.counters && !m.phase.Visiting? && !m.phase.Pushing?
  {
    hide ValidOf, InvalidOf, AllBindable, Unstored, IsStored;
  }

  lemma StepTotals(cfg: Config, s: Stores, ph: Phase, reply: Reply, u: string)
    ensures var m := Step(cfg, s, ph, reply);
            TotalsBalance(s.counters, ph, m.stores.counters, m.phase, u)
  {
    hide Step;
    if ph.Checking? || ph.Counting? || ph.Visiting? || ph.Pushing? {
      TrackTotals(cfg, s, ph, reply, u);
    } else {
      ConsumersLeaveCounters(cfg, s, ph, reply);
    }
  }

  lemma AdvanceTotals(cfg: Config, s: State, p: nat, reply: Reply, u: string)
    requires TotalsAgree(s, u) && p < |s.procs|
    ensures TotalsAgree(Next(cfg, s, Advance(p, reply)), u)
  {
    hide Step, Total, Clicks, CapturedFor, UncountedFor;
    StepTotals(cfg, s.stores, s.procs[p], reply, u);
    TotalUpdate(s.procs, p, Step(cfg, s.stores, s.procs[p], reply).phase, PastCount(u));
  }

  lemma TickTotals(cfg: Config, s: State, p: nat, u: string)
    requires TotalsAgree(s, u)
    ensures TotalsAgree(Next(cfg, s, Tick(p)), u)
  {
    hide Total, Clicks, CapturedFor, UncountedFor;
    if p < |s.procs| {
      TotalUpdate(s.procs, p, Popping(cfg.batch, []), PastCount(u));
    }
  }

  lemma NextTotals(cfg: Config, s: State, a: Action, u: string)
    requires TotalsAgree(s, u)
    ensures TotalsAgree(Next(cfg, s, a), u)
  {
    hide Step, Total, Clicks, CapturedFor, UncountedFor;
    match a
    case Tick(p) => TickTotals(cfg, s, p, u);
    case Advance(p, reply) =>
      if p < |s.procs| {
        AdvanceTotals(cfg, s, p, reply, u);
      }
    case Midnight(_) =>
    case Foreign(_) =>
    case _ =>
      if Spawned(cfg, a).Some? {
        TotalAppend(s.procs, Spawned(cfg, a).value, PastCount(u));
      }
  }

  /** In every reachable state a URL's click total is the events pushed for it, plus the
      producers past HINCRBY that have not finished, plus those that failed after it. */
  lemma {:induction false} ClickTotals(cfg: Config, day: string, acts: seq<Action>, u: string)
    ensures var s := Run(cfg, Init(cfg, day), acts);
            Clicks(s.stores.counters, u)
            == CapturedFor(s.stores.counters.captured, u) + Total(s.procs, PastCount(u))
               + UncountedFor(s.stores.counters.uncounted, u)
  {
    if acts == [] {
      TotalOfIdle(cfg.workers, PastCount(u));
    } else {
      ClickTotals(cfg, day, acts[..|acts| - 1], u);
      NextTotals(cfg, Run(cfg, Init(cfg, day), acts[..|acts| - 1]), acts[|acts| - 1], u);
    }
  }

  /******* Visitors *******/

  function VisitorsOf(c: Counters, u: string, day: string): set<string> {
    if (u, day) in c.visitors then c.visitors[(u, day)] else {}
  }

  /** The distinct fingerprints, and the distinct (address, user agent) pairs, among the
      visits of a URL on a day. */
  function Fingerprints(visits: seq<Visit>, u: string, day: string): set<string> {
    if visits == [] then {}
    else
      var v := visits[|visits| - 1];
      Fingerprints(visits[..|visits| - 1], u, day)
      + if v.urlId == u && v.day == day then {Fingerprint(v.ip, v.userAgent)} else {}
  }

  function Pairs(visits: seq<Visit>, u: string, day: string): set<(string, string)> {
    if visits == [] then {}
    else
      var v := visits[|visits| - 1];
      Pairs(visits[..|visits| - 1], u, day)
      + if v.urlId == u && v.day == day then {(v.ip, v.userAgent)} else {}
  }

  ghost predicate Visited(c: Counters, e: Event) {
    exists i :: 0 <= i < |c.visits|
             && c.visits[i].urlId == e.urlId && c.visits[i].ip == e.ip && c.visits[i].userAgent == e.userAgent
  }

  ghost predicate SetsAgree(s: State) {
    var c := s.stores.counters;
    && (forall u, day :: VisitorsOf(c, u, day) == Fingerprints(c.visits, u, day))
    && (forall i :: 0 <= i < |c.captured| ==> Visited(c, c.captured[i]))
    && (forall p :: 0 <= p < |s.procs| && s.procs[p].Pushing? ==> Visited(c, s.procs[p].e))
  }

  lemma RecordVisit(c: Counters, e: Event, today: string)
    requires forall u, day :: VisitorsOf(c, u, day) == Fingerprints(c.visits, u, day)
    ensures var c' := CountVisit(c, e, today);
            && (forall u, day :: VisitorsOf(c', u, day) == Fingerprints(c'.visits, u, day))
            && Visited(c', e) && (forall f :: Visited(c, f) ==> Visited(c', f))
  {
    var c' := CountVisit(c, e, today);
    assert c'.visits[..|c.visits|] == c.visits;
    assert c'.visits[|c.visits|] == Visit(e.urlId, today, e.ip, e.userAgent);
    forall f | Visited(c, f)
      ensures Visited(c', f)
    {
      var i :| 0 <= i < |c.visits|
            && c.visits[i].urlId == f.urlId && c.visits[i].ip == f.ip && c.visits[i].userAgent == f.userAgent;
      assert c'.visits[i] == c.visits[i];
    }
  }

  /** Every command either leaves the visits alone or records the one of its own event. */
  lemma StepVisits(cfg: Config, s: Stores, ph: Phase, reply: Reply)
    ensures var m := Step(cfg, s, ph, reply);
            var c, c' := s.counters, m.stores.counters;
            && ((c'.visitors == c.visitors && c'.visits == c.visits)
                || (ph.Visiting? && c'.visitors == CountVisit(c, ph.e, s.today).visitors
                                 && c'.visits == CountVisit(c, ph.e, s.today).visits))
            && (c'.captured == c.captured || (ph.Pushing? && c'.captured == c.captured + [ph.e]))
            && (m.phase.Pushing? && !ph.Pushing? ==>
                  ph.Visiting? && m.phase.e == ph.e && c' == CountVisit(c, ph.e, s.today))
            && (m.phase.Pushing? && ph.Pushing? ==> m.phase.e == ph.e)
  {
    hide ValidOf, InvalidOf, AllBindable, Payload, Unstored, IsStored;
  }

  lemma NextSets(cfg: Config, s: State, a: Action)
    requires SetsAgree(s)
    ensures SetsAgree(Next(cfg, s, a))
  {
    hide Step, CountVisit, Fingerprints, Visited;
    if a.Advance? && a.p < |s.procs| {
      var ph, m := s.procs[a.p], Step(cfg, s.stores, s.procs[a.p], a.reply);
      StepVisits(cfg, s.stores, ph, a.reply);
      if ph.Visiting? {
        RecordVisit(s.stores.counters, ph.e, s.stores.today);
        SameVisits(CountVisit(s.stores.counters, ph.e, s.stores.today), m.stores.counters);
      }
      SameVisits(s.stores.counters, m.stores.counters);
    }
  }

  lemma SameVisits(c: Counters, d: Counters)
    ensures c.visits == d.visits ==> forall f :: Visited(c, f) == Visited(d, f)
    ensures c.visitors == d.visitors ==> forall u, day :: VisitorsOf(c, u, day) == VisitorsOf(d, u, day)
  {
  }

  lemma {:induction false} RunSets(cfg: Config, day: string, acts: seq<Action>)
    ensures SetsAgree(Run(cfg, Init(cfg, day), acts))
  {
    hide Next;
    if acts != [] {
      RunSets(cfg, day, acts[..|acts| - 1]);
      NextSets(cfg, Run(cfg, Init(cfg, day), acts[..|acts| - 1]), acts[|acts| - 1]);
    }
  }

  lemma {:induction false} FingerprintRecorded(visits: seq<Visit>, i: nat)
    requires i < |visits|
    ensures Fingerprint(visits[i].ip, visits[i].userAgent) in Fingerprints(visits, visits[i].urlId, visits[i].day)
  {
    if i < |visits| - 1 {
      FingerprintRecorded(visits[..|visits| - 1], i);
    }
  }

  /** The fingerprint of every pushed event is in a visitor set of its URL. */
  lemma PushedEventsAreVisitors(cfg: Config, day: string, acts: seq<Action>, i: nat)
    requires i < |Run(cfg, Init(cfg, day), acts).stores.counters.captured|
    ensures var c := Run(cfg, Init(cfg, day), acts).stores.counters;
            var e := c.captured[i];
            exists d :: Fingerprint(e.ip, e.userAgent) in VisitorsOf(c, e.urlId, d)
  {
    RunSets(cfg, day, acts);
    var c := Run(cfg, Init(cfg, day), acts).stores.counters;
    var e := c.captured[i];
    assert Visited(c, e);
    var j: nat :| j < |c.visits|
         && c.visits[j].urlId == e.urlId && c.visits[j].ip == e.ip && c.visits[j].userAgent == e.userAgent;
    FingerprintRecorded(c.visits, j);
    assert Fingerprint(e.ip, e.userAgent) in VisitorsOf(c, e.urlId, c.visits[j].day);
  }

  /** The first colon of a fingerprint ends a colon-free address. */
  lemma FirstColon(ip: string, ua: string)
    requires ':' !in ip
    ensures Fingerprint(ip, ua)[|ip|] == ':' && forall k :: 0 <= k < |ip| ==> Fingerprint(ip, ua)[k] != ':'
    ensures Fingerprint(ip, ua)[..|ip|] == ip && Fingerprint(ip, ua)[|ip| + 1..] == ua
  {
    assert forall k :: 0 <= k < |ip| ==> Fingerprint(ip, ua)[k] == ip[k];
  }

  /** Without a colon in the address, as in IPv4 text, a fingerprint determines its pair. */
  lemma FingerprintInjective(ip: string, ua: string, ip': string, ua': string)
    requires ':' !in ip && ':' !in ip' && Fingerprint(ip, ua) == Fingerprint(ip', ua')
    ensures ip == ip' && ua == ua'
  {
    FirstColon(ip, ua);
    FirstColon(ip', ua');
  }

  /** The second address continues the first behind a colon, and the first user agent makes up
      for it: "::1" with "2:curl" and "::1:2" with "curl". */
  ghost predicate Shifted(ip: string, ua: string, ip': string, ua': string) {
    exists w: string :: ip' == ip + ":" + w && ua == w + ":" + ua'
  }

  lemma ShiftedCollide(ip: string, ua: string, ip': string, ua': string)
    requires Shifted(ip, ua, ip', ua')
    ensures Fingerprint(ip, ua) == Fingerprint(ip', ua')
  {
    var w: string :| ip' == ip + ":" + w && ua == w + ":" + ua';
    assert Fingerprint(ip', ua') == ip + ":" + w + ":" + ua' == ip + ":" + (w + ":" + ua');
  }

  lemma CollideShifted(ip: string, ua: string, ip': string, ua': string)
    requires Fingerprint(ip, ua) == Fingerprint(ip', ua') && |ip| < |ip'|
    ensures Shifted(ip, ua, ip', ua')
  {
    var f := Fingerprint(ip, ua);
    var w := ip'[|ip| + 1..];
    assert f[..|ip'|] == ip' && f[..|ip|] == ip && f[|ip|] == ':' && f[|ip'|] == ':';
    assert ip' == ip + ":" + w;
    assert ua == f[|ip| + 1..] == w + ":" + ua';
  }

  /** Two visitors share a fingerprint exactly when they are the same or one address continues
      the other behind a colon as the user agents allow. */
  lemma FingerprintsEqualExactly(ip: string, ua: string, ip': string, ua': string)
    ensures Fingerprint(ip, ua) == Fingerprint(ip', ua')
       <==> (ip == ip' && ua == ua') || Shifted(ip, ua, ip', ua') || Shifted(ip', ua', ip, ua)
  {
    if Shifted(ip, ua, ip', ua') {
      ShiftedCollide(ip, ua, ip', ua');
    }
    if Shifted(ip', ua', ip, ua) {
      ShiftedCollide(ip', ua', ip, ua);
    }
    if Fingerprint(ip, ua) == Fingerprint(ip', ua') {
      var f := Fingerprint(ip, ua);
      if |ip| < |ip'| {
        CollideShifted(ip, ua, ip', ua');
      } else if |ip'| < |ip| {
        CollideShifted(ip', ua', ip, ua);
      } else {
        assert ip == f[..|ip|] == ip' && ua == f[|ip| + 1..] == ua';
      }
    }
  }

  predicate ColonFree(visits: seq<Visit>) {
    forall i :: 0 <= i < |visits| ==> ':' !in visits[i].ip
  }

  /** No two different pairs that visited a URL on a day share a fingerprint. */
  ghost predicate Distinguished(visits: seq<Visit>, u: string, day: string) {
    forall a, b :: a in Pairs(visits, u, day) && b in Pairs(visits, u, day) ==>
      Fingerprint(a.0, a.1) == Fingerprint(b.0, b.1) ==> a == b
  }

  lemma {:induction false} PairOfFingerprint(visits: seq<Visit>, u: string, day: string, f: string)
    returns (ip: string, ua: string)
    requires f in Fingerprints(visits, u, day)
    ensures (ip, ua) in Pairs(visits, u, day) && Fingerprint(ip, ua) == f
    ensures ColonFree(visits) ==> ':' !in ip
  {
    var v := visits[|visits| - 1];
    if v.urlId == u && v.day == day && Fingerprint(v.ip, v.userAgent) == f {
      ip, ua := v.ip, v.userAgent;
    } else {
      ip, ua := PairOfFingerprint(visits[..|visits| - 1], u, day, f);
    }
  }

  lemma {:induction false} FingerprintOfPair(visits: seq<Visit>, u: string, day: string, pair: (string, string))
    requires pair in Pairs(visits, u, day)
    ensures Fingerprint(pair.0, pair.1) in Fingerprints(visits, u, day)
  {
    if pair in Pairs(visits[..|visits| - 1], u, day) {
      FingerprintOfPair(visits[..|visits| - 1], u, day, pair);
    }
  }

  lemma {:induction false} FingerprintCount(visits: seq<Visit>, u: string, day: string)
    ensures |Fingerprints(visits, u, day)| <= |Pairs(visits, u, day)|
    ensures |Fingerprints(visits, u, day)| == |Pairs(visits, u, day)| <==> Distinguished(visits, u, day)
    ensures (forall i :: 0 <= i < |visits| ==> ':' !in visits[i].ip) ==>
              |Fingerprints(visits, u, day)| == |Pairs(visits, u, day)|
  {
    if ColonFree(visits) {
      ColonFreeDistinguished(visits, u, day);
    }
    if visits != [] {
      var front, v := visits[..|visits| - 1], visits[|visits| - 1];
      FingerprintCount(front, u, day);
      if v.urlId == u && v.day == day {
        OneMoreVisit(visits, u, day);
      } else {
        assert Pairs(visits, u, day) == Pairs(front, u, day);
        assert Fingerprints(visits, u, day) == Fingerprints(front, u, day);
      }
    }
  }

  /** A visit adds a pair, a fingerprint, both or neither. */
  lemma OneMoreVisit(visits: seq<Visit>, u: string, day: string)
    requires visits != [] && visits[|visits| - 1].urlId == u && visits[|visits| - 1].day == day
    requires var front := visits[..|visits| - 1];
             |Fingerprints(front, u, day)| <= |Pairs(front, u, day)|
             && (|Fingerprints(front, u, day)| == |Pairs(front, u, day)| <==> Distinguished(front, u, day))
    ensures |Fingerprints(visits, u, day)| <= |Pairs(visits, u, day)|
    ensures |Fingerprints(visits, u, day)| == |Pairs(visits, u, day)| <==> Distinguished(visits, u, day)
  {
    var front, v := visits[..|visits| - 1], visits[|visits| - 1];
    var pair, f := (v.ip, v.userAgent), Fingerprint(v.ip, v.userAgent);
    var pairs, prints := Pairs(front, u, day), Fingerprints(front, u, day);
    assert Pairs(visits, u, day) == pairs + {pair} && Fingerprints(visits, u, day) == prints + {f};
    hide Fingerprint, Pairs, Fingerprints;
    if pair in pairs {
      FingerprintOfPair(front, u, day, pair);
      assert pairs + {pair} == pairs && prints + {f} == prints;
    } else if f in prints {
      var ip, ua := PairOfFingerprint(front, u, day, f);
      assert prints + {f} == prints && |pairs + {pair}| == |pairs| + 1;
      assert (ip, ua) != pair && (ip, ua) in Pairs(visits, u, day);
    } else {
      assert |prints + {f}| == |prints| + 1 && |pairs + {pair}| == |pairs| + 1;
      forall other | other in pairs
        ensures Fingerprint(other.0, other.1) != f
      {
        FingerprintOfPair(front, u, day, other);
      }
    }
  }

  /** Colon-free addresses, as in IPv4 text, always tell visitors apart. */
  lemma ColonFreeDistinguished(visits: seq<Visit>, u: string, day: string)
    requires ColonFree(visits)
    ensures Distinguished(visits, u, day)
  {
    forall a, b | && a in Pairs(visits, u, day) && b in Pairs(visits, u, day)
                  && Fingerprint(a.0, a.1) == Fingerprint(b.0, b.1)
      ensures a == b
    {
      PairsVisited(visits, u, day, a);
      PairsVisited(visits, u, day, b);
      FingerprintInjective(a.0, a.1, b.0, b.1);
    }
  }

  lemma {:induction false} PairsVisited(visits: seq<Visit>, u: string, day: string, pair: (string, string))
    requires pair in Pairs(visits, u, day)
    ensures exists i :: 0 <= i < |visits| && visits[i].ip == pair.0 && visits[i].userAgent == pair.1
  {
    if pair in Pairs(visits[..|visits| - 1], u, day) {
      PairsVisited(visits[..|visits| - 1], u, day, pair);
    }
  }

  /** In every reachable state a visitor set has at most as many members as there were
      distinct (address, user agent) pairs, and exactly as many when no two of them share a
      fingerprint, as is the case when no address holds a colon. */
  lemma VisitorCounts(cfg: Config, start: string, acts: seq<Action>, u: string, day: string)
    ensures var c := Run(cfg, Init(cfg, start), acts).stores.counters;
            && |VisitorsOf(c, u, day)| <= |Pairs(c.visits, u, day)|
            && (|VisitorsOf(c, u, day)| == |Pairs(c.visits, u, day)| <==> Distinguished(c.visits, u, day))
            && ((forall i :: 0 <= i < |c.visits| ==> ':' !in c.visits[i].ip) ==>
                  |VisitorsOf(c, u, day)| == |Pairs(c.visits, u, day)|)
  {
    hide Run, Fingerprint, Fingerprints, Pairs, Distinguished;
    RunSets(cfg, start, acts);
    var c := Run(cfg, Init(cfg, start), acts).stores.counters;
    FingerprintCount(c.visits, u, day);
  }

  /** IPv6 text contains colons (section 2.2 of RFC 4291), and then two visitors can share
      one fingerprint. */
  lemma Ipv6FingerprintsCollide()
    ensures Fingerprint("::1", "2:curl") == Fingerprint("::1:2", "curl") && ("::1", "2:curl") != ("::1:2", "curl")
  {
    assert Fingerprint("::1", "2:curl") == "::1:2:curl";
    assert Fingerprint("::1:2", "curl") == "::1:2:curl";
    assert |"::1"| != |"::1:2"|;
  }

  /******* A run that undercounts *******/

  /** Two producers, each from its check to its SADD. */
  function TwoVisitsRun(cfg: Config, a: Visit, b: Visit): seq<Action> {
    VisitSteps(a, cfg.workers) + VisitSteps(b, cfg.workers + 1)
  }

  function VisitSteps(v: Visit, p: nat): seq<Action> {
    [Arrive(v.urlId, v.day, v.ip, v.userAgent, ""), Advance(p, Done), Advance(p, Done), Advance(p, Done)]
  }

  /** Text a producer stores as it is. */
  predicate Clean(ua: string) {
    ServiceSanitize(ua) == ua
  }

  lemma OneVisit(cfg: Config, s: State, v: Visit)
    requires cfg.checks.isIP(v.ip) && Clean(v.userAgent) && s.stores.today == v.day
    requires |s.stores.buffer| < MAX_BUFFER_SIZE
    ensures var t := Run(cfg, s, VisitSteps(v, |s.procs|));
            && t.stores.counters.visits == s.stores.counters.visits + [v]
            && t.stores.today == s.stores.today && t.stores.buffer == s.stores.buffer
            && |t.procs| == |s.procs| + 1
  {
    hide ServiceSanitize, Run;
    var e, p, acts := Captured(v.urlId, v.day, v.ip, v.userAgent, ""), |s.procs|, VisitSteps(v, |s.procs|);
    var s1 := Next(cfg, s, acts[0]);
    var s2 := Next(cfg, s1, acts[1]);
    var s3 := Next(cfg, s2, acts[2]);
    var s4 := Next(cfg, s3, acts[3]);
    assert s1.procs[p] == Checking(e) && s2.procs[p] == Counting(e);
    assert s3.procs[p] == Visiting(e) && s3.stores.counters.visits == s.stores.counters.visits;
    FourSteps(cfg, s, acts);
  }

  lemma FourSteps(cfg: Config, s: State, acts: seq<Action>)
    requires |acts| == 4
    ensures Run(cfg, s, acts) == Next(cfg, Next(cfg, Next(cfg, Next(cfg, s, acts[0]), acts[1]), acts[2]), acts[3])
  {
    hide Next;
    assert acts[..1] == [acts[0]] && acts[..1][..0] == [] && acts[..2] == acts[..1] + [acts[1]];
    assert acts[..3] == acts[..2] + [acts[2]] && acts == acts[..3] + [acts[3]];
    RunSnoc(cfg, s, [], acts[0]);
    assert [] + [acts[0]] == acts[..1];
    RunSnoc(cfg, s, acts[..1], acts[1]);
    RunSnoc(cfg, s, acts[..2], acts[2]);
    RunSnoc(cfg, s, acts[..3], acts[3]);
  }

  /** Any two visitors of a URL on one day who are not the same but share a fingerprint are
      counted as one. */
  lemma CollisionUndercounts(cfg: Config, a: Visit, b: Visit)
    requires cfg.checks.isIP(a.ip) && cfg.checks.isIP(b.ip)
    requires Clean(a.userAgent) && Clean(b.userAgent) && a.urlId == b.urlId && a.day == b.day && a != b
    requires Fingerprint(a.ip, a.userAgent) == Fingerprint(b.ip, b.userAgent)
    ensures var c := Run(cfg, Init(cfg, a.day), TwoVisitsRun(cfg, a, b)).stores.counters;
            |VisitorsOf(c, a.urlId, a.day)| == 1 && |Pairs(c.visits, a.urlId, a.day)| == 2
  {
    hide ServiceSanitize, Clean, Run, Next, Fingerprint;
    var s0 := Init(cfg, a.day);
    OneVisit(cfg, s0, a);
    var s1 := Run(cfg, s0, VisitSteps(a, cfg.workers));
    OneVisit(cfg, s1, b);
    RunConcat(cfg, s0, VisitSteps(a, cfg.workers), VisitSteps(b, cfg.workers + 1));
    RunSets(cfg, a.day, TwoVisitsRun(cfg, a, b));
    TwoVisits(a, b);
    assert [] + [a] + [b] == [a, b];
  }

  lemma TwoVisits(a: Visit, b: Visit)
    requires a.urlId == b.urlId && a.day == b.day && a != b
    requires Fingerprint(a.ip, a.userAgent) == Fingerprint(b.ip, b.userAgent)
    ensures |Fingerprints([a, b], a.urlId, a.day)| == 1 && |Pairs([a, b], a.urlId, a.day)| == 2
  {
    hide Fingerprint;
    assert [a, b][..1] == [a] && [a][..0] == [];
    var f := Fingerprint(a.ip, a.userAgent);
    assert Fingerprints([a], a.urlId, a.day) == {f} && Pairs([a], a.urlId, a.day) == {(a.ip, a.userAgent)};
    assert Fingerprints([a, b], a.urlId, a.day) == {f};
    assert (a.ip, a.userAgent) != (b.ip, b.userAgent);
    assert Pairs([a, b], a.urlId, a.day) == {(a.ip, a.userAgent), (b.ip, b.userAgent)};
  }

  /** So two IPv6 clients, "::1" with user agent "2:curl" and "::1:2" with "curl", are counted
      as one visitor. */
  lemma Ipv6VisitorsUndercounted(cfg: Config, day: string)
    requires cfg.checks.isIP("::1") && cfg.checks.isIP("::1:2")
    ensures var a, b := Visit("7", day, "::1", "2:curl"), Visit("7", day, "::1:2", "curl");
            var c := Run(cfg, Init(cfg, day), TwoVisitsRun(cfg, a, b)).stores.counters;
            |VisitorsOf(c, "7", day)| == 1 && |Pairs(c.visits, "7", day)| == 2
  {
    var a, b := Visit("7", day, "::1", "2:curl"), Visit("7", day, "::1:2", "curl");
    hide Clean, Fingerprint, Run, TwoVisitsRun;
    Ipv6FingerprintsCollide();
    CurlClean();
    CollisionUndercounts(cfg, a, b);
  }

  lemma CurlClean()
    ensures Clean("2:curl") && Clean("curl")
  {
    hide Clean;
    AlreadyClean("2:curl");
    AlreadyClean("curl");
  }

  lemma AlreadyClean(ua: string)
    requires ua != "" && '<' !in ua && '>' !in ua && !IsSpace(ua[0]) && !IsSpace(ua[|ua| - 1]) && |ua| <= TEXT_LIMIT
    ensures Clean(ua)
  {
    DropAnglesIdentity(ua);
  }
}
