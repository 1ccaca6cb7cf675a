/** The sidecar supervisor refuses to start a process that was started too often of late. */
module RestartThrottle {
  import opened Basics

  /** Milliseconds. */
  const WINDOW: nat := 60_000
  const MAX_RESTARTS: nat := 3

  /** The start times that are less than a window old, as `retain` keeps them. */
  function Recent(times: seq<int>, now: int): seq<int> {
    if times == [] then []
    else
      var front, last := Recent(times[..|times| - 1], now), times[|times| - 1];
      if now - last < WINDOW then front + [last] else front
  }

  function InWindow(times: seq<int>, from: int): nat {
    if times == [] then 0
    else InWindow(times[..|times| - 1], from) + if from <= times[|times| - 1] < from + WINDOW then 1 else 0
  }

  // ---- The supervisor ---------------------------------------------------------------------

  /** An attempt at `now`; `up` is when the handshake succeeded, if it did. */
  datatype Action = Start(now: int, up: Option<int>) | Stop(now: int)

  datatype Refusal = AlreadyRunning | Throttled | LaunchFailed

  /** `history` is every successful start ever, which the program does not keep. */
  datatype Supervisor = Supervisor(running: bool, timestamps: seq<int>, history: seq<int>)

  function Step(s: Supervisor, a: Action): Supervisor {
    match a
    case Stop(_) => s.(running := false)
    case Start(now, up) =>
      if s.running then s
      else
        var kept := Recent(s.timestamps, now);
        if |kept| >= MAX_RESTARTS || up.None? then s.(timestamps := kept)
        else Supervisor(true, kept + [up.value], s.history + [up.value])
  }

  function RunAll(actions: seq<Action>): Supervisor {
    if actions == [] then Supervisor(false, [], []) else Step(RunAll(actions[..|actions| - 1]), actions[|actions| - 1])
  }

  /** When an action is over. */
  function End(a: Action): int {
    if a.Start? && a.up.Some? then a.up.value else a.now
  }

  /** A monotone clock, and one action at a time: the lock on the running process is held throughout. */
  ghost predicate Clocked(actions: seq<Action>) {
    && (forall i :: 0 <= i < |actions| ==> actions[i].now <= End(actions[i]))
    && (forall i, j :: 0 <= i < j < |actions| ==> End(actions[i]) <= actions[j].now)
  }

  // ---- Pruning loses nothing --------------------------------------------------------------

  ghost predicate Sorted(times: seq<int>) {
    forall i, j :: 0 <= i < j < |times| ==> times[i] <= times[j]
  }

  /** Every start is at least a window after the start three before it. */
  ghost predicate Spaced(times: seq<int>) {
    forall i :: 0 <= i < |times| - MAX_RESTARTS ==> times[i + MAX_RESTARTS] - times[i] >= WINDOW
  }

  lemma {:induction false} RecentMore(times: seq<int>, t: int, now: int)
    ensures Recent(times + [t], now) == if now - t < WINDOW then Recent(times, now) + [t] else Recent(times, now)
  {
    assert (times + [t])[..|times|] == times;
  }

  /** Pruning at one moment changes nothing for any later one. */
  lemma {:induction false} PrunedIsEnough(times: seq<int>, now: int, later: int)
    requires now <= later
    ensures Recent(Recent(times, now), later) == Recent(times, later)
  {
    if times != [] {
      var front, last := times[..|times| - 1], times[|times| - 1];
      PrunedIsEnough(front, now, later);
      if now - last < WINDOW {
        RecentMore(Recent(front, now), last, later);
      }
    }
  }

  ghost predicate SameRecent(s: Supervisor, from: int) {
    forall t :: from <= t ==> Recent(s.timestamps, t) == Recent(s.history, t)
  }

  ghost predicate Inv(s: Supervisor, now: int) {
    && SameRecent(s, now) && Sorted(s.history) && Spaced(s.history)
    && forall i :: 0 <= i < |s.history| ==> s.history[i] <= now
  }

  /** Three starts within a window are all still there to be counted. */
  lemma {:induction false} ThreeRecent(times: seq<int>, now: int)
    requires Sorted(times) && |times| >= MAX_RESTARTS && now - times[|times| - MAX_RESTARTS] < WINDOW
    ensures |Recent(times, now)| >= MAX_RESTARTS
  {
    var n := |times|;
    assert times[..n - 1][..n - 2] == times[..n - 2] && times[..n - 2][..n - 3] == times[..n - 3];
    assert times[n - 3] <= times[n - 2] <= times[n - 1];
    assert Recent(times[..n - 2], now) == Recent(times[..n - 3], now) + [times[n - 3]];
    assert Recent(times[..n - 1], now) == Recent(times[..n - 2], now) + [times[n - 2]];
  }

  /** A start that was not throttled keeps its distance. */
  lemma {:induction false} StartIsSpaced(history: seq<int>, now: int, up: int)
    requires Sorted(history) && Spaced(history) && |Recent(history, now)| < MAX_RESTARTS && now <= up
    requires forall i :: 0 <= i < |history| ==> history[i] <= now
    ensures Sorted(history + [up]) && Spaced(history + [up])
  {
    var n := |history|;
    if n >= MAX_RESTARTS && now - history[n - MAX_RESTARTS] < WINDOW {
      ThreeRecent(history, now);
    }
  }

  lemma {:induction false} StepKeeps(s: Supervisor, a: Action, now: int)
    requires Inv(s, now) && now <= a.now <= End(a)
    ensures Inv(Step(s, a), End(a))
  {
    if a.Start? && !s.running {
      var s', kept := Step(s, a), Recent(s.timestamps, a.now);
      assert kept == Recent(s.history, a.now);
      if |kept| < MAX_RESTARTS && a.up.Some? {
        StartIsSpaced(s.history, a.now, a.up.value);
      }
      forall t | End(a) <= t
        ensures Recent(s'.timestamps, t) == Recent(s'.history, t)
      {
        PrunedIsEnough(s.timestamps, a.now, t);
        assert Recent(s.timestamps, t) == Recent(s.history, t);
        RecentMore(kept, End(a), t);
        RecentMore(s.history, End(a), t);
      }
    }
  }

  lemma {:induction false} Reachable(actions: seq<Action>)
    requires Clocked(actions) && actions != []
    ensures Inv(RunAll(actions), End(actions[|actions| - 1]))
  {
    var n := |actions| - 1;
    if n > 0 {
      Reachable(actions[..n]);
      assert actions[..n][n - 1] == actions[n - 1];
      StepKeeps(RunAll(actions[..n]), actions[n], End(actions[n - 1]));
    } else {
      assert RunAll(actions[..0]) == Supervisor(false, [], []);
      StepKeeps(RunAll(actions[..0]), actions[0], actions[0].now);
    }
  }

  /** The pruned list decides as the full history would: a start is throttled exactly after three in a window. */
  lemma {:induction false} PrunedListDecides(actions: seq<Action>, now: int)
    requires Clocked(actions) && (actions != [] ==> End(actions[|actions| - 1]) <= now)
    ensures Recent(RunAll(actions).timestamps, now) == Recent(RunAll(actions).history, now)
  {
    if actions != [] {
      Reachable(actions);
    }
  }

  /** How many starts were less than a minute before `now`. */
  function LastMinute(times: seq<int>, now: int): nat {
    if times == [] then 0 else (if times[0] > now - 60_000 then 1 else 0) + LastMinute(times[1..], now)
  }

  lemma {:induction false} LastMinuteMore(times: seq<int>, t: int, now: int)
    ensures LastMinute(times + [t], now) == LastMinute(times, now) + if t > now - 60_000 then 1 else 0
  {
    if times != [] {
      assert (times + [t])[1..] == times[1..] + [t];
      LastMinuteMore(times[1..], t, now);
    } else {
      assert (times + [t])[1..] == [];
    }
  }

  lemma {:induction false} RecentCounts(times: seq<int>, now: int)
    ensures |Recent(times, now)| == LastMinute(times, now)
  {
    if times != [] {
      var front, last := times[..|times| - 1], times[|times| - 1];
      RecentCounts(front, now);
      LastMinuteMore(front, last, now);
      assert times == front + [last];
    }
  }

  /** A start goes through exactly when nothing runs, the launch works, and fewer than three did in the last minute. */
  lemma {:induction false} StartsExactlyAfterFewerThanThree(actions: seq<Action>, now: int, up: Option<int>)
    requires Clocked(actions) && (actions != [] ==> End(actions[|actions| - 1]) <= now)
    ensures
      var s, s' := RunAll(actions), Step(RunAll(actions), Start(now, up));
      if !s.running && up.Some? && LastMinute(s.history, now) < 3
      then s'.running && s'.history == s.history + [up.value]
      else s'.running == s.running && s'.history == s.history
  {
    PrunedListDecides(actions, now);
    RecentCounts(RunAll(actions).history, now);
  }

  // ---- No window holds more than three ----------------------------------------------------

  lemma {:induction false} NoneBefore(times: seq<int>, from: int)
    requires forall i :: 0 <= i < |times| ==> times[i] < from
    ensures InWindow(times, from) == 0
  {
    if times != [] {
      NoneBefore(times[..|times| - 1], from);
    }
  }

  lemma {:induction false} SpacedWindow(times: seq<int>, from: int)
    requires Sorted(times) && Spaced(times)
    ensures InWindow(times, from) <= MAX_RESTARTS
  {
    var n := |times|;
    if n > 0 && !(from <= times[n - 1] < from + WINDOW) {
      SpacedWindow(times[..n - 1], from);
    } else if n > 3 {
      var gap := times[(n - 4) + MAX_RESTARTS] - times[n - 4];
      assert gap >= WINDOW;
      NoneBefore(times[..n - 3], from);
      LastThree(times, from);
    } else if n > 0 {
      FewInWindow(times, from);
    }
  }

  lemma {:induction false} FewInWindow(times: seq<int>, from: int)
    ensures InWindow(times, from) <= |times|
  {
    if times != [] {
      FewInWindow(times[..|times| - 1], from);
    }
  }

  lemma {:induction false} LastThree(times: seq<int>, from: int)
    requires |times| >= 3
    ensures InWindow(times, from) <= InWindow(times[..|times| - 3], from) + 3
  {
    var n := |times|;
    assert times[..n - 1][..n - 2] == times[..n - 2] && times[..n - 2][..n - 3] == times[..n - 3];
    assert InWindow(times[..n - 1], from) <= InWindow(times[..n - 2], from) + 1;
    assert InWindow(times[..n - 2], from) <= InWindow(times[..n - 3], from) + 1;
  }

  /** However starts and stops are timed, no half-open window holds more than three successful starts. */
  lemma {:induction false} NeverTooManyStarts(actions: seq<Action>, from: int)
    requires Clocked(actions)
    ensures InWindow(RunAll(actions).history, from) <= MAX_RESTARTS
  {
    if actions != [] {
      Reachable(actions);
      SpacedWindow(RunAll(actions).history, from);
    }
  }

  // ---- The objects ------------------------------------------------------------------------

  class RestartTracker {
    var timestamps: seq<int>

    constructor ()
      ensures timestamps == []
    {
      timestamps := [];
    }

    method IsThrottled(now: int) returns (throttled: bool)
      modifies this
      ensures timestamps == Recent(old(timestamps), now)
      ensures throttled == (|timestamps| >= MAX_RESTARTS)
    {
      var kept := [];
      for i := 0 to |timestamps|
        invariant timestamps == old(timestamps) && kept == Recent(timestamps[..i], now)
      {
        RecentMore(timestamps[..i], timestamps[i], now);
        assert timestamps[..i + 1] == timestamps[..i] + [timestamps[i]];
        if now - timestamps[i] < WINDOW {
          kept := kept + [timestamps[i]];
        }
      }
      assert timestamps[..|timestamps|] == timestamps;
      timestamps := kept;
      throttled := |timestamps| >= MAX_RESTARTS;
    }

    method RecordRestart(now: int)
      modifies this
      ensures timestamps == old(timestamps) + [now]
    {
      timestamps := timestamps + [now];
    }
  }

  class SidecarSupervisor {
    var running: bool
    const tracker: RestartTracker
    ghost var history: seq<int>

    ghost function View(): Supervisor
      reads this, tracker
    {
      Supervisor(running, tracker.timestamps, history)
    }

    constructor ()
      ensures View() == RunAll([]) && fresh(tracker)
    {
      running, history := false, [];
      tracker := new RestartTracker();
    }

    /** `start`: the launch either fails or is up at the given time. */
    method Launch(now: int, up: Option<int>) returns (refusal: Option<Refusal>)
      modifies this, tracker
      ensures View() == Step(old(View()), Start(now, up))
      ensures refusal == if old(running) then Some(AlreadyRunning)
                         else if |Recent(old(tracker.timestamps), now)| >= MAX_RESTARTS then Some(Throttled)
                         else if up.None? then Some(LaunchFailed)
                         else None
    {
      if running {
        return Some(AlreadyRunning);
      }
      var throttled := tracker.IsThrottled(now);
      if throttled {
        return Some(Throttled);
      }
      if up.None? {
        return Some(LaunchFailed);
      }
      tracker.RecordRestart(up.value);
      running := true;
      history := history + [up.value];
      return None;
    }

    method Halt(now: int)
      modifies this
      ensures View() == Step(old(View()), Stop(now))
    {
      running := false;
    }
  }
}
