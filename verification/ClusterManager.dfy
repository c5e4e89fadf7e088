/**
 The cluster manager: src/bootstrap/cluster/clusterManager.ts.

 Its fork-bomb guard looks only at a purged deque. `Valid` ties that deque to the log of
 every fork ever made, so what the guard decides is what the full history says, and the
 log itself can never hold more than workerCount + 5 forks in any closed minute. Every
 method keeps `Valid`, in any order of calls: what it says holds in every run.
 */
module ClusterManagers {
  import opened Environment

  const FORK_WINDOW_MS: nat := 60000

  /** The primary process's surroundings: a clock that never goes back, the workers alive,
      the exits not yet reported, and whether the process still runs. */
  class Host {
    var now: int
    var ticks: seq<nat>     // how far the clock moves before each reading
    var live: nat
    var exited: nat
    var halted: bool
    var exitCode: int       // what the process ended with, once halted
    var messages: nat       // SHUTDOWN messages sent to workers
    ghost var forkLog: seq<int>

    constructor (now: int, ticks: seq<nat>)
      ensures this.now == now && this.ticks == ticks
      ensures live == 0 && exited == 0 && !halted && messages == 0 && forkLog == []
    {
      this.now, this.ticks := now, ticks;
      live, exited, halted, exitCode, messages, forkLog := 0, 0, false, 0, 0, [];
    }

    /** `Date.now()`. */
    method DateNow() returns (t: int)
      modifies this`now, this`ticks
      ensures t == now && old(now) <= now
    {
      if ticks != [] {
        now, ticks := now + ticks[0], ticks[1..];
      }
      t := now;
    }

    /** `cluster.fork()`, entered in the log at the time the manager recorded. */
    method Fork(ghost at: int)
      modifies this`live, this`forkLog
      ensures live == old(live) + 1 && forkLog == old(forkLog) + [at]
    {
      live := live + 1;
      forkLog := forkLog + [at];
    }

    /** A worker dies; its exit event is still to come. */
    method WorkerDies()
      requires live > 0
      modifies this`live, this`exited
      ensures live == old(live) - 1 && exited == old(exited) + 1
    {
      live, exited := live - 1, exited + 1;
    }

    /** `worker.send({ type: 'SHUTDOWN' })`. */
    method Send()
      modifies this`messages
      ensures messages == old(messages) + 1
    {
      messages := messages + 1;
    }

    /** `process.exit(code)`. */
    method Exit(code: int)
      modifies this`halted, this`exitCode
      ensures halted && exitCode == code
    {
      halted, exitCode := true, code;
    }
  }

  /******* Logs of fork times *******/

  ghost predicate Ascending(log: seq<int>) {
    forall i, j :: 0 <= i < j < |log| ==> log[i] <= log[j]
  }

  /** The entries at or after `from`, in order. */
  function Since(log: seq<int>, from: int): seq<int> {
    if log == [] then []
    else Since(log[..|log| - 1], from) + if log[|log| - 1] >= from then [log[|log| - 1]] else []
  }

  /** How many entries lie in the closed interval [from, to]. */
  function CountIn(log: seq<int>, from: int, to: int): nat {
    if log == [] then 0
    else CountIn(log[..|log| - 1], from, to) + if from <= log[|log| - 1] <= to then 1 else 0
  }

  /** Entries at most a window apart are fewer than `limit` + 1. */
  ghost predicate Spaced(log: seq<int>, limit: nat) {
    forall i, j :: 0 <= i <= j < |log| && log[j] - log[i] <= FORK_WINDOW_MS ==> j - i + 1 <= limit
  }

  lemma {:induction false} SinceTwice(log: seq<int>, a: int, b: int)
    requires a <= b
    ensures Since(Since(log, a), b) == Since(log, b)
  {
    if log != [] {
      var front, last := log[..|log| - 1], log[|log| - 1];
      SinceTwice(front, a, b);
      if last >= a {
        assert (Since(front, a) + [last])[..|Since(front, a)|] == Since(front, a);
      } else {
        assert Since(log, a) == Since(front, a);
      }
    }
  }

  lemma {:induction false} SinceShorter(log: seq<int>, from: int)
    ensures |Since(log, from)| <= |log|
  {
    if log != [] {
      SinceShorter(log[..|log| - 1], from);
    }
  }

  lemma SinceSnoc(log: seq<int>, at: int, from: int)
    requires from <= at
    ensures Since(log + [at], from) == Since(log, from) + [at]
  {
    assert (log + [at])[..|log|] == log;
  }

  lemma {:induction false} SinceAll(log: seq<int>, from: int)
    requires forall i :: 0 <= i < |log| ==> log[i] >= from
    ensures Since(log, from) == log
  {
    if log != [] {
      SinceAll(log[..|log| - 1], from);
    }
  }

  /** Dropping an old head changes nothing that counts. */
  lemma {:induction false} SinceDropHead(log: seq<int>, from: int)
    requires log != [] && log[0] < from
    ensures Since(log[1..], from) == Since(log, from)
  {
    if |log| == 1 {
      assert log[..0] == [];
    } else {
      SinceDropHead(log[..|log| - 1], from);
      assert log[1..][..|log| - 2] == log[..|log| - 1][1..];
    }
  }

  lemma {:induction false} SinceAscending(log: seq<int>, from: int)
    requires Ascending(log)
    ensures Ascending(Since(log, from))
    ensures forall i :: 0 <= i < |Since(log, from)| ==> from <= Since(log, from)[i]
    ensures log != [] ==> forall i :: 0 <= i < |Since(log, from)| ==> Since(log, from)[i] <= log[|log| - 1]
  {
    if log != [] {
      SinceAscending(log[..|log| - 1], from);
    }
  }

  /** In an ascending log, an entry at or after `from` brings all later ones with it. */
  lemma {:induction false} SinceCounts(log: seq<int>, from: int, i: nat)
    requires Ascending(log) && i < |log| && log[i] >= from
    ensures |Since(log, from)| >= |log| - i
  {
    if i < |log| - 1 {
      SinceCounts(log[..|log| - 1], from, i);
    }
  }

  /** The guard's decision keeps the log spaced: a fork recorded at `at`, allowed by a check
      at `checked` that saw fewer than `limit` forks in its window. */
  lemma AllowedForkKeepsSpacing(log: seq<int>, limit: nat, checked: int, at: int)
    requires Ascending(log) && Spaced(log, limit) && |Since(log, checked - FORK_WINDOW_MS)| < limit
    requires checked <= at && forall i :: 0 <= i < |log| ==> log[i] <= at
    ensures Ascending(log + [at]) && Spaced(log + [at], limit)
  {
    var longer, n := log + [at], |log|;
    forall i, j | 0 <= i <= j <= n && longer[j] - longer[i] <= FORK_WINDOW_MS
      ensures j - i + 1 <= limit
    {
      if j == n && i < n {
        SinceCounts(log, checked - FORK_WINDOW_MS, i);
      } else if j < n {
        assert longer[i] == log[i] && longer[j] == log[j];
      }
    }
  }

  /** The entries of a spaced, ascending log in [from, to] are consecutive. */
  lemma {:induction false} CountSpan(log: seq<int>, from: int, to: int) returns (first: nat)
    requires Ascending(log)
    ensures first + CountIn(log, from, to) <= |log|
    ensures forall i :: first <= i < first + CountIn(log, from, to) ==> from <= log[i] <= to
    ensures forall i :: first + CountIn(log, from, to) <= i < |log| ==> log[i] > to
  {
    if log == [] {
      first := 0;
    } else {
      var n := |log| - 1;
      first := CountSpan(log[..n], from, to);
      if from <= log[n] <= to {
        assert first + CountIn(log[..n], from, to) == n;
      } else if log[n] < from {
        first := |log|;
        NoneBefore(log, from, to);
      }
    }
  }

  lemma {:induction false} NoneBefore(log: seq<int>, from: int, to: int)
    requires Ascending(log) && log != [] && log[|log| - 1] < from
    ensures CountIn(log, from, to) == 0
  {
    if |log| > 1 {
      NoneBefore(log[..|log| - 1], from, to);
    }
  }

  /** Any closed window of a spaced log holds at most `limit` forks. */
  lemma AnyWindow(log: seq<int>, limit: nat, from: int, to: int)
    requires Ascending(log) && Spaced(log, limit) && to - from <= FORK_WINDOW_MS
    ensures CountIn(log, from, to) <= limit
  {
    var first := CountSpan(log, from, to);
    var k := CountIn(log, from, to);
    if k > 0 {
      assert log[first + k - 1] - log[first] <= FORK_WINDOW_MS;
    }
  }

  /** What is counted: the forks whose time lies in the interval. */
  ghost function ForksBetween(log: seq<int>, from: int, to: int): set<nat> {
    set i: nat | i < |log| && from <= log[i] <= to
  }

  lemma {:induction false} CountExactly(log: seq<int>, from: int, to: int)
    ensures CountIn(log, from, to) == |ForksBetween(log, from, to)|
  {
    if log == [] {
      assert ForksBetween(log, from, to) == {};
    } else {
      var n := |log| - 1;
      var front := ForksBetween(log[..n], from, to);
      CountExactly(log[..n], from, to);
      assert n !in front;
      assert ForksBetween(log, from, to) == front + if from <= log[n] <= to then {n} else {};
    }
  }

  /** And what the guard keeps: as many entries as there are forks from that time on. */
  lemma {:induction false} SinceExactly(log: seq<int>, from: int, to: int)
    requires forall i :: 0 <= i < |log| ==> log[i] <= to
    ensures |Since(log, from)| == CountIn(log, from, to)
    ensures forall i :: 0 <= i < |Since(log, from)| ==> Since(log, from)[i] in log && Since(log, from)[i] >= from
  {
    if log != [] {
      SinceExactly(log[..|log| - 1], from, to);
    }
  }

  lemma {:induction false} CountSplit(log: seq<int>, from: int, mid: int, to: int)
    requires from <= mid + 1 && mid <= to
    ensures CountIn(log, from, to) == CountIn(log, from, mid) + CountIn(log, mid + 1, to)
  {
    if log != [] {
      CountSplit(log[..|log| - 1], from, mid, to);
    }
  }

  /** Over any stretch of time the forks are bounded by the minutes it spans. */
  lemma {:induction false} TotalForks(log: seq<int>, limit: nat, from: int, length: nat)
    requires Ascending(log) && Spaced(log, limit)
    ensures CountIn(log, from, from + length) <= limit * (length / (FORK_WINDOW_MS + 1) + 1)
    decreases length
  {
    var k := length / (FORK_WINDOW_MS + 1);
    if length <= FORK_WINDOW_MS {
      AnyWindow(log, limit, from, from + length);
    } else {
      var rest := length - FORK_WINDOW_MS - 1;
      CountSplit(log, from, from + FORK_WINDOW_MS, from + length);
      AnyWindow(log, limit, from, from + FORK_WINDOW_MS);
      TotalForks(log, limit, from + FORK_WINDOW_MS + 1, rest);
      assert k == rest / (FORK_WINDOW_MS + 1) + 1;
      assert limit * (k + 1) == limit * k + limit;
    }
  }

  /** What the primary's event loop meets: a worker dies, its exit is reported, a signal comes,
      the analytics worker's stop settles (resolved or rejected), the shutdown timer fires. */
  datatype ProcessEvent = Death | ExitEvent | Signal | StopSettled(resolved: bool) | Timeout

  /** How far a shutdown has come. */
  datatype Shutdown = Running | Stopping | TimerSet

  class ClusterManager {
    const host: Host
    const workerCount: nat
    const FORK_THRESHOLD: nat
    var forkHistory: seq<int>
    var isShuttingDown: bool
    const hasAnalyticsWorker: bool
    var started: bool
    var shutdown: Shutdown
    ghost var purged: int  // the time of the last purge

    /** The deque is what the last purge left of the log, and the log is spaced. */
    ghost predicate GuardOk()
      reads this, host
    {
      && FORK_THRESHOLD == workerCount + 5
      && Ascending(host.forkLog)
      && (forall i :: 0 <= i < |host.forkLog| ==> host.forkLog[i] <= host.now)
      && Spaced(host.forkLog, FORK_THRESHOLD)
      && purged <= host.now
      && forkHistory == Since(host.forkLog, purged - FORK_WINDOW_MS)
    }

    /** Every worker lost is replaced as soon as its exit is reported, until shutdown. */
    ghost predicate Valid()
      reads this, host
    {
      && GuardOk()
      && host.live + host.exited <= workerCount
      && (started && !isShuttingDown && !host.halted ==> host.live + host.exited == workerCount)
      && (isShuttingDown <==> shutdown != Running)
      && (shutdown == Stopping ==> hasAnalyticsWorker)
      && (!isShuttingDown ==> host.messages == 0)
      && (host.halted ==> host.exitCode == if isShuttingDown then 0 else 1)
    }

    /** An explicit count wins; otherwise the number of cores, at most four. */
    constructor (host: Host, configured: nat, cores: nat, hasAnalyticsWorker: bool)
      requires host.live == 0 && host.exited == 0 && !host.halted && host.messages == 0 && host.forkLog == []
      ensures Valid() && this.host == host && this.hasAnalyticsWorker == hasAnalyticsWorker
      ensures !started && !isShuttingDown && forkHistory == []
      ensures workerCount == if configured > 0 then configured else Min(cores, 4)
    {
      this.host := host;
      var count := if configured > 0 then configured else cores;
      if configured == 0 && count > 4 {
        count := 4;
      }
      workerCount := count;
      FORK_THRESHOLD := count + 5;
      forkHistory := [];
      this.hasAnalyticsWorker := hasAnalyticsWorker;
      isShuttingDown, started, shutdown := false, false, Running;
      purged := host.now;
    }

    /** Fork the configured number of workers. The guard never stops the initial burst. */
    method Start()
      requires Valid() && !started && !host.halted && !isShuttingDown
      requires host.live == 0 && host.exited == 0 && host.forkLog == []
      modifies this, host
      ensures Valid() && started && !host.halted && host.live == workerCount && host.exited == 0
      ensures !isShuttingDown
    {
      for i := 0 to workerCount
        invariant Valid() && !started && !host.halted && !isShuttingDown
        invariant host.live == i == |host.forkLog| && host.exited == 0
      {
        ForkWorker();
      }
      started := true;
    }

    /** Fork unless shutting down; halt the process instead when the guard says so. */
    method ForkWorker()
      requires GuardOk() && !host.halted
      modifies this`forkHistory, this`purged, host
      ensures GuardOk() && host.exited == old(host.exited) && old(host.now) <= host.now
      ensures host.messages == old(host.messages) && (host.halted ==> host.exitCode == 1)
      ensures isShuttingDown || host.halted ==> host.forkLog == old(host.forkLog) && host.live == old(host.live)
      ensures isShuttingDown ==> !host.halted
      ensures !isShuttingDown && !host.halted ==>
                host.live == old(host.live) + 1 && |host.forkLog| == |old(host.forkLog)| + 1
      ensures !isShuttingDown ==>
                && old(host.now) <= purged <= host.now
                && (host.halted <==> |Since(old(host.forkLog), purged - 60000)| >= workerCount + 5)
      ensures |old(host.forkLog)| < FORK_THRESHOLD ==> !host.halted
    {
      hide Since, Ascending, Spaced;
      if isShuttingDown {
        return;
      }
      var bombing := IsForkBombing();
      SinceShorter(host.forkLog, purged - FORK_WINDOW_MS);
      if bombing {
        host.Exit(1);
        return;
      }
      var at := host.DateNow();
      SinceSnoc(host.forkLog, at, purged - FORK_WINDOW_MS);
      AllowedForkKeepsSpacing(host.forkLog, FORK_THRESHOLD, purged, at);
      forkHistory := forkHistory + [at];
      host.Fork(at);
    }

    /** Drop expired entries from the head and compare. Although only the head is looked at,
        what is left is exactly the forks of the full history in the last minute. */
    method IsForkBombing() returns (bombing: bool)
      requires Ascending(host.forkLog)
      requires purged <= host.now && forkHistory == Since(host.forkLog, purged - FORK_WINDOW_MS)
      modifies this`forkHistory, this`purged, host`now, host`ticks
      ensures purged == host.now && old(host.now) <= host.now
      ensures forkHistory == Since(host.forkLog, host.now - 60000)
      ensures bombing <==> |Since(host.forkLog, host.now - 60000)| >= FORK_THRESHOLD
    {
      hide Since;
      SinceAscending(host.forkLog, purged - FORK_WINDOW_MS);
      var now := host.DateNow();
      SinceTwice(host.forkLog, purged - FORK_WINDOW_MS, now - FORK_WINDOW_MS);
      while |forkHistory| > 0 && forkHistory[0] < now - FORK_WINDOW_MS
        invariant host.now == now && Ascending(forkHistory)
        invariant Since(forkHistory, now - FORK_WINDOW_MS) == Since(host.forkLog, now - FORK_WINDOW_MS)
        decreases |forkHistory|
      {
        SinceDropHead(forkHistory, now - FORK_WINDOW_MS);
        forkHistory := forkHistory[1..];
      }
      SinceAll(forkHistory, now - FORK_WINDOW_MS);
      purged := now;
      bombing := |forkHistory| >= FORK_THRESHOLD;
    }

    /** The handler of a worker's exit event: replace it unless shutting down. */
    method HandleWorkerExit()
      requires Valid() && started && !host.halted && host.exited > 0
      modifies this`forkHistory, this`purged, host
      ensures Valid() && host.exited == old(host.exited) - 1
      ensures isShuttingDown ==> host.forkLog == old(host.forkLog) && host.live == old(host.live)
      ensures !isShuttingDown && !host.halted ==> host.live == old(host.live) + 1
      ensures host.halted ==> !isShuttingDown && |Since(host.forkLog, purged - FORK_WINDOW_MS)| >= FORK_THRESHOLD
    {
      host.exited := host.exited - 1;
      if !isShuttingDown {
        ForkWorker();
      }
    }

    /** SIGTERM or SIGINT, up to the first await: from now on nothing is forked; every worker
        alive is told; then the analytics worker is stopped, or the timer is set at once when
        there is none. A second signal is ignored. */
    method HandleSignal()
      requires Valid() && started && !host.halted
      modifies this`isShuttingDown, this`shutdown, host`messages
      ensures Valid() && isShuttingDown
      ensures old(isShuttingDown) ==> shutdown == old(shutdown) && host.messages == old(host.messages)
      ensures !old(isShuttingDown) ==>
                host.messages == host.live && shutdown == if hasAnalyticsWorker then Stopping else TimerSet
    {
      hide Since, Ascending, Spaced;
      if isShuttingDown {
        return;
      }
      isShuttingDown := true;
      for i := 0 to host.live
        invariant GuardOk() && isShuttingDown && host.messages == i
      {
        host.Send();
      }
      if hasAnalyticsWorker {
        shutdown := Stopping;
      } else {
        SetTimer();
      }
    }

    /** The rest of `handleSignal`, once the stop has resolved or rejected: either way the
        timer is set. */
    method StopHasSettled(resolved: bool)
      requires Valid() && shutdown == Stopping
      modifies this`shutdown
      ensures Valid() && shutdown == TimerSet
    {
      SetTimer();
    }

    method SetTimer()
      modifies this`shutdown
      ensures shutdown == TimerSet
    {
      shutdown := TimerSet;
    }

    /** The timer's callback: the primary exits with code 0. */
    method TimeoutReached()
      requires Valid() && shutdown == TimerSet && !host.halted
      modifies host`halted, host`exitCode
      ensures Valid() && host.halted && host.exitCode == 0
    {
      host.Exit(0);
    }

    /** What reaches the primary's event loop after `Start`: whatever the order of deaths, exit
        events, signals, settled stops and timeouts, the invariant holds, the fork log stays
        spaced, after the first signal nothing is forked any more, and the process ends with
        code 1 exactly when the guard ends it, with code 0 exactly when a shutdown does. */
    method EventLoop(events: seq<ProcessEvent>)
      requires Valid() && started
      modifies this, host
      ensures Valid() && started
      ensures forall from, to :: to - from <= 60000 ==> CountIn(host.forkLog, from, to) <= workerCount + 5
      ensures old(isShuttingDown) ==> host.forkLog == old(host.forkLog)
      ensures old(isShuttingDown) || old(host.halted) ==> host.live <= old(host.live)
      ensures host.halted ==> (host.exitCode == 0 <==> isShuttingDown)
    {
      hide GuardOk;
      for i := 0 to |events|
        invariant Valid() && started
        invariant old(isShuttingDown) ==> isShuttingDown && host.forkLog == old(host.forkLog)
        invariant old(host.halted) ==> host.halted
        invariant old(isShuttingDown) || old(host.halted) ==> host.live <= old(host.live)
      {
        Handle(events[i]);
      }
      NoForkBomb();
    }

    /** One event; one that cannot happen now changes nothing. */
    method Handle(event: ProcessEvent)
      requires Valid() && started
      modifies this, host
      ensures Valid() && started
      ensures old(isShuttingDown) ==> isShuttingDown && host.forkLog == old(host.forkLog)
      ensures old(host.halted) ==> host.halted
      ensures old(isShuttingDown) || old(host.halted) ==> host.live <= old(host.live)
    {
      match event
      case Death =>
        if host.live > 0 {
          host.WorkerDies();
        }
      case ExitEvent =>
        if host.exited > 0 && !host.halted {
          HandleWorkerExit();
        }
      case Signal =>
        if !host.halted {
          HandleSignal();
        }
      case StopSettled(resolved) =>
        if shutdown == Stopping && !host.halted {
          StopHasSettled(resolved);
        }
      case Timeout =>
        if shutdown == TimerSet && !host.halted {
          TimeoutReached();
        }
    }

    /** At any time in any run, no closed minute holds more than workerCount + 5 forks. */
    lemma NoForkBomb()
      requires Valid()
      ensures forall from, to :: to - from <= 60000 ==> CountIn(host.forkLog, from, to) <= workerCount + 5
    {
      forall from, to | to - from <= FORK_WINDOW_MS
        ensures CountIn(host.forkLog, from, to) <= workerCount + 5
      {
        AnyWindow(host.forkLog, FORK_THRESHOLD, from, to);
      }
    }
  }
}
