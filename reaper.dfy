/** The request bookkeeping of lmkd's Reaper (reaper.h, reaper.cpp): a
    bounded admission counter and a LIFO work list shared between the main
    thread, which requests kills, and the reaper threads, which take and
    complete them. The mutex and condition variable are left out; the
    blocking wait for work becomes a precondition. */
module Reaper {

  /** Reaper::queued_proc: a duplicated pidfd and the pid it refers to. */
  datatype QueuedProc = QueuedProc(pidfd: int, pid: int)

  /** The bookkeeping part of a Reaper's state: `queue_`, `active_requests_`
      and `reaper_thread_cnt_`. */
  datatype Bookkeeping = Bookkeeping(queue: seq<QueuedProc>, active: int, threadCnt: int)

  /** The state of a freshly constructed Reaper. */
  const Initial: Bookkeeping := Bookkeeping([], 0, 0)

  /** request_kill accepts a request only for an fd other than -1, when reaper
      threads exist, and while fewer requests are active than there are threads. */
  predicate Admits(b: Bookkeeping, pidfd: int) {
    pidfd != -1 && b.threadCnt != 0 && b.active < b.threadCnt
  }

  /** request_kill(pidfd, pid) on `b`, where `dupFd` is what dup(pidfd)
      returned: the new bookkeeping and whether the request was accepted. */
  function KillStep(b: Bookkeeping, pidfd: int, pid: int, dupFd: int): (r: (Bookkeeping, bool))
    ensures r.1 <==> Admits(b, pidfd)
    ensures !r.1 ==> r.0 == b
    ensures r.1 ==> r.0.active == b.active + 1
    ensures r.1 ==> r.0.queue == b.queue + [QueuedProc(dupFd, pid)]
    ensures r.0.threadCnt == b.threadCnt
    ensures b.active <= b.threadCnt ==> r.0.active <= r.0.threadCnt
  {
    if pidfd == -1 then (b, false)
    else if b.threadCnt == 0 then (b, false)
    else if b.active >= b.threadCnt then (b, false)
    else (b.(active := b.active + 1, queue := b.queue + [QueuedProc(dupFd, pid)]), true)
  }

  /** dequeue_request on a non-empty queue: the entry pushed last and the
      bookkeeping without it. */
  function DequeueStep(b: Bookkeeping): (r: (Bookkeeping, QueuedProc))
    requires |b.queue| > 0
    ensures r.0.queue + [r.1] == b.queue
    ensures r.0.active == b.active && r.0.threadCnt == b.threadCnt
  {
    (b.(queue := b.queue[..|b.queue| - 1]), b.queue[|b.queue| - 1])
  }

  /** request_complete: one active request fewer; the queue is untouched. */
  function CompleteStep(b: Bookkeeping): (r: Bookkeeping)
    ensures r.active == b.active - 1
    ensures r.queue == b.queue && r.threadCnt == b.threadCnt
  {
    b.(active := b.active - 1)
  }

  /** Dequeue undoes the push of an accepted request: the reaper thread gets
      exactly the request just made, and the queue is as before it. */
  lemma DequeueTakesLatestRequest(b: Bookkeeping, pidfd: int, pid: int, dupFd: int)
    requires Admits(b, pidfd)
    ensures var b1 := KillStep(b, pidfd, pid, dupFd).0;
            |b1.queue| > 0 &&
            DequeueStep(b1) == (b.(active := b.active + 1), QueuedProc(dupFd, pid))
  {
  }

  // ---------------------------------------------------------------------
  // Runs: the calls the main thread and the reaper threads make, in order
  // ---------------------------------------------------------------------

  datatype Event =
    | Kill(pidfd: int, pid: int, dupFd: int)  // request_kill, dup returning dupFd
    | Dequeue                                 // a reaper thread takes work
    | Complete                                // a reaper thread calls request_complete

  /** A Dequeue can only happen on a non-empty queue (the thread blocks otherwise). */
  predicate Enabled(b: Bookkeeping, e: Event) {
    e.Dequeue? ==> |b.queue| > 0
  }

  function Apply(b: Bookkeeping, e: Event): Bookkeeping
    requires Enabled(b, e)
  {
    match e
    case Kill(pidfd, pid, dupFd) => KillStep(b, pidfd, pid, dupFd).0
    case Dequeue => DequeueStep(b).0
    case Complete => CompleteStep(b)
  }

  predicate Feasible(b: Bookkeeping, evs: seq<Event>)
    decreases |evs|
  {
    evs == [] || (Enabled(b, evs[0]) && Feasible(Apply(b, evs[0]), evs[1..]))
  }

  function Run(b: Bookkeeping, evs: seq<Event>): Bookkeeping
    requires Feasible(b, evs)
    decreases |evs|
  {
    if evs == [] then b else Run(Apply(b, evs[0]), evs[1..])
  }

  function Dequeues(evs: seq<Event>): nat {
    if evs == [] then 0 else (if evs[0].Dequeue? then 1 else 0) + Dequeues(evs[1..])
  }

  function Completions(evs: seq<Event>): nat {
    if evs == [] then 0 else (if evs[0].Complete? then 1 else 0) + Completions(evs[1..])
  }

  /** Admission never lets the active requests exceed the number of reaper
      threads, whatever the threads do. */
  lemma {:induction false} ActiveNeverExceedsThreads(b: Bookkeeping, evs: seq<Event>)
    requires Feasible(b, evs)
    requires b.active <= b.threadCnt
    ensures Run(b, evs).threadCnt == b.threadCnt
    ensures Run(b, evs).active <= b.threadCnt
    decreases |evs|
  {
    if evs != [] {
      ActiveNeverExceedsThreads(Apply(b, evs[0]), evs[1..]);
    }
  }

  /** `active - |queue|` counts the requests a reaper thread has taken and not
      completed: a Dequeue raises it by one, a Complete lowers it by one, and
      a request_kill, accepted or not, leaves it alone. */
  lemma {:induction false} ActiveAccounting(b: Bookkeeping, evs: seq<Event>)
    requires Feasible(b, evs)
    ensures Run(b, evs).active - |Run(b, evs).queue|
         == b.active - |b.queue| + Dequeues(evs) - Completions(evs)
    decreases |evs|
  {
    if evs != [] {
      ActiveAccounting(Apply(b, evs[0]), evs[1..]);
    }
  }

  /** Only request_complete frees capacity. Once the active requests reach
      the thread count, no run without a Complete admits anything: the count
      stays put and the queue only shrinks. (reaper_main skips
      request_complete when the kill or the mrelease fails.) */
  lemma {:induction false} SaturatedWithoutCompletion(b: Bookkeeping, evs: seq<Event>)
    requires Feasible(b, evs)
    requires b.threadCnt <= b.active
    requires forall i :: 0 <= i < |evs| ==> !evs[i].Complete?
    ensures Run(b, evs).active == b.active
    ensures Run(b, evs).queue <= b.queue
    decreases |evs|
  {
    if evs != [] {
      var b1 := Apply(b, evs[0]);
      assert b1.queue <= b.queue;
      SaturatedWithoutCompletion(b1, evs[1..]);
    }
  }

  /** Without reaper threads nothing is ever queued, whatever the run. */
  lemma {:induction false} NoThreadsNoAdmission(b: Bookkeeping, evs: seq<Event>)
    requires Feasible(b, evs)
    requires b.threadCnt == 0
    ensures Run(b, evs).queue <= b.queue
    decreases |evs|
  {
    if evs != [] {
      var b1 := Apply(b, evs[0]);
      assert b1.queue <= b.queue;
      NoThreadsNoAdmission(b1, evs[1..]);
    }
  }

  /** A freshly constructed Reaper (no threads yet) refuses every request. */
  lemma FreshReaperRefuses(pidfd: int, pid: int, dupFd: int)
    ensures KillStep(Initial, pidfd, pid, dupFd) == (Initial, false)
  {
  }

  // ---------------------------------------------------------------------
  // The Reaper object
  // ---------------------------------------------------------------------

  /** Number of true entries: how many pthread_create calls succeeded. */
  function CountTrue(bs: seq<bool>): nat {
    if bs == [] then 0 else CountTrue(bs[..|bs| - 1]) + (if bs[|bs| - 1] then 1 else 0)
  }

  class Reaper {
    var queue: seq<QueuedProc>
    var active: int
    var threadCnt: int
    var debugLogsEnabled: bool

    function State(): Bookkeeping
      reads this
    {
      Bookkeeping(queue, active, threadCnt)
    }

    /** Reaper(): no active requests, no threads, debug logs off. */
    constructor()
      ensures State() == Initial
      ensures !debugLogsEnabled
    {
      queue := [];
      active := 0;
      threadCnt := 0;
      debugLogsEnabled := false;
    }

    /** reaper_thread_cnt(): reads the thread count and changes nothing. */
    function ReaperThreadCnt(): (n: int)
      reads this
      ensures n == State().threadCnt
    {
      threadCnt
    }

    /** enable_debug_logs(enable). */
    method EnableDebugLogs(enable: bool)
      modifies this
      ensures debugLogsEnabled == enable
      ensures State() == old(State())
    {
      debugLogsEnabled := enable;
    }

    /** debug_logs_enabled(). */
    function DebugLogsEnabled(): (enabled: bool)
      reads this
      ensures enabled == debugLogsEnabled
    {
      debugLogsEnabled
    }

    /** The counting part of create_thread_pool: `spawned[i]` says whether
        the pthread_create for CPU i succeeded; the thread count is the
        number that did, and the pool is usable when it is not zero. */
    method CreateThreadPool(spawned: seq<bool>) returns (ok: bool)
      modifies this
      ensures threadCnt == CountTrue(spawned)
      ensures ok <==> threadCnt != 0
      ensures queue == old(queue) && active == old(active)
      ensures debugLogsEnabled == old(debugLogsEnabled)
    {
      threadCnt := 0;
      var i := 0;
      while i < |spawned|
        invariant 0 <= i <= |spawned|
        invariant threadCnt == CountTrue(spawned[..i])
        invariant queue == old(queue) && active == old(active)
        invariant debugLogsEnabled == old(debugLogsEnabled)
      {
        assert spawned[..i + 1][..i] == spawned[..i];
        if spawned[i] {
          threadCnt := threadCnt + 1;
        }
        i := i + 1;
      }
      assert spawned[..i] == spawned;
      ok := threadCnt != 0;
    }

    /** request_kill(pidfd, pid); `dupFd` is what dup(pidfd) returns. */
    method RequestKill(pidfd: int, pid: int, dupFd: int) returns (ok: bool)
      modifies this
      ensures ok <==> Admits(old(State()), pidfd)
      ensures !ok ==> State() == old(State())
      ensures ok ==> active == old(active) + 1
      ensures ok ==> queue == old(queue) + [QueuedProc(dupFd, pid)]
      ensures threadCnt == old(threadCnt) && debugLogsEnabled == old(debugLogsEnabled)
      ensures (State(), ok) == KillStep(old(State()), pidfd, pid, dupFd)
    {
      if pidfd == -1 {
        return false;
      }
      if threadCnt == 0 {
        return false;
      }
      if active >= threadCnt {
        return false;
      }
      active := active + 1;
      var proc := QueuedProc(dupFd, pid);
      queue := queue + [proc];
      return true;
    }

    /** dequeue_request, once the queue is non-empty (the source waits for
        that on the condition variable): takes the newest entry. */
    method DequeueRequest() returns (proc: QueuedProc)
      requires |queue| > 0
      modifies this
      ensures proc == old(queue[|queue| - 1])
      ensures queue == old(queue[..|queue| - 1])
      ensures active == old(active) && threadCnt == old(threadCnt)
      ensures debugLogsEnabled == old(debugLogsEnabled)
      ensures (State(), proc) == DequeueStep(old(State()))
    {
      proc := queue[|queue| - 1];
      queue := queue[..|queue| - 1];
    }

    /** request_complete. */
    method RequestComplete()
      modifies this
      ensures active == old(active) - 1
      ensures queue == old(queue) && threadCnt == old(threadCnt)
      ensures debugLogsEnabled == old(debugLogsEnabled)
      ensures State() == CompleteStep(old(State()))
    {
      active := active - 1;
    }
  }

  // ---------------------------------------------------------------------
  // Timing of a reap (debug logging)
  // ---------------------------------------------------------------------

  const MS_PER_SEC: int := 1000
  const NS_PER_SEC: int := 1_000_000_000
  const NS_PER_MS: int := NS_PER_SEC / MS_PER_SEC

  /** struct timespec. */
  datatype Timespec = Timespec(sec: int, nsec: int)

  /** Euclidean division of a non-negative number brackets it between two
      consecutive multiples of the divisor. */
  lemma EuclideanBracket(n: int, d: int)
    requires 0 <= n && 0 < d
    ensures 0 <= (n / d) * d <= n < (n / d) * d + d
  {
  }

  /** C's `/` on `long`: the quotient rounded toward zero. */
  function TruncDiv(a: int, d: int): (q: int)
    requires 0 < d
    ensures 0 <= a ==> 0 <= q * d <= a < q * d + d
    ensures a < 0 ==> q * d - d < a <= q * d <= 0
  {
    if 0 <= a then
      EuclideanBracket(a, d);
      a / d
    else
      EuclideanBracket(-a, d);
      assert -((-a) / d) * d == -(((-a) / d) * d);
      -((-a) / d)
  }

  /** The exact time between `from` and `to`, in nanoseconds. */
  function NsBetween(from: Timespec, to: Timespec): int {
    (to.sec - from.sec) * NS_PER_SEC + (to.nsec - from.nsec)
  }

  /** get_time_diff_ms(from, to). The milliseconds it reports are the exact
      difference to within one millisecond, off only in the direction of the
      nanosecond difference. */
  function TimeDiffMs(from: Timespec, to: Timespec): (ms: int)
    ensures var err := NsBetween(from, to) - ms * NS_PER_MS;
            -NS_PER_MS < err < NS_PER_MS &&
            (0 <= to.nsec - from.nsec ==> 0 <= err) &&
            (to.nsec - from.nsec <= 0 ==> err <= 0)
  {
    var ds, dn := to.sec - from.sec, to.nsec - from.nsec;
    var q := TruncDiv(dn, NS_PER_MS);
    assert NS_PER_MS == 1_000_000;
    assert (ds * MS_PER_SEC + q) * NS_PER_MS == ds * NS_PER_SEC + q * NS_PER_MS;
    ds * MS_PER_SEC + q
  }

  /** Swapping the endpoints negates the result; with Euclidean division it
      would not. */
  lemma TimeDiffAntisymmetric(from: Timespec, to: Timespec)
    ensures TimeDiffMs(to, from) == -TimeDiffMs(from, to)
  {
  }

  lemma TimeDiffSelf(t: Timespec)
    ensures TimeDiffMs(t, t) == 0
  {
  }

  // ---------------------------------------------------------------------
  // Support for process_mrelease
  // ---------------------------------------------------------------------

  /** ENOSYS on Linux. */
  const ENOSYS: int := 38

  /** The static tri-state of is_reaping_supported. */
  datatype ReapSupport = Unknown | Supported | Unsupported

  /** What probing process_mrelease(-1, 0) concludes: unsupported only when
      the call fails and errno is ENOSYS. */
  function ProbeReapSupport(mreleaseRet: int, errno: int): (s: ReapSupport)
    ensures s != Unknown
    ensures s == Unsupported <==> mreleaseRet != 0 && errno == ENOSYS
  {
    if mreleaseRet != 0 && errno == ENOSYS then Unsupported else Supported
  }

  /** The process-wide `reap_support` variable of is_reaping_supported. */
  class ReapingSupport {
    var reapSupport: ReapSupport

    constructor()
      ensures reapSupport == Unknown
    {
      reapSupport := Unknown;
    }

    /** is_reaping_supported: probes only while the answer is Unknown
        (`mreleaseRet` and `errno` are what the probe would give); afterwards
        the stored answer is returned unchanged. */
    method IsReapingSupported(mreleaseRet: int, errno: int) returns (supported: bool)
      modifies this
      ensures old(reapSupport) == Unknown ==> reapSupport == ProbeReapSupport(mreleaseRet, errno)
      ensures old(reapSupport) != Unknown ==> reapSupport == old(reapSupport)
      ensures reapSupport != Unknown
      ensures supported <==> reapSupport == Supported
    {
      if reapSupport == Unknown {
        reapSupport := ProbeReapSupport(mreleaseRet, errno);
      }
      supported := reapSupport == Supported;
    }
  }
}
