/**
 * The frame timer of `src/window/frame_timer.rs`. It measures the time
 * from one frame's end to the next; once 20 consecutive frames all lie
 * within a millisecond of their average, it takes the frames to be bound
 * by vsync and, from then on, sleeps at the start of each frame for
 * whatever the vsync interval leaves after the previous frame's work.
 *
 * Instants and durations are integer nanoseconds. The clock is the `now`
 * parameter of each operation and the sleep is left to the caller, who is
 * told how long to wait. Subtracting instants saturates at zero, as Rust's
 * `Instant` subtraction does.
 */
module FrameTimer {
  import opened Wrappers

  /** `STABLE_FRAMES_COUNT`. */
  const StableFramesCount: nat := 20
  /** `FRAME_DURATION_ERROR_MARGIN`: one millisecond. */
  const ErrorMargin: nat := 1_000_000

  /** `Instant - Instant`: the time from `earlier` to `later`, zero if
      `earlier` is the later one. */
  function Elapsed(later: int, earlier: int): (d: nat)
    ensures earlier <= later ==> earlier + d == later
    ensures later <= earlier ==> d == 0
  {
    if later > earlier then later - earlier else 0
  }

  function Sum(ds: seq<nat>): nat
  {
    if |ds| == 0 then 0 else Sum(ds[..|ds| - 1]) + ds[|ds| - 1]
  }

  /** `sum / STABLE_FRAMES_COUNT as u32`: a `Duration` divided by an
      integer is its nanoseconds divided and rounded down. */
  function Average(ds: seq<nat>): (avg: nat)
    ensures avg * StableFramesCount <= Sum(ds) < avg * StableFramesCount + StableFramesCount
  {
    Sum(ds) / StableFramesCount
  }

  /** `if d > avg { d - avg } else { avg - d }`. */
  function Distance(d: nat, avg: nat): (r: nat)
    ensures r == d - avg || r == avg - d
    ensures d <= avg + r && avg <= d + r
  {
    if d > avg then d - avg else avg - d
  }

  /** Every duration lies within the error margin of the average. */
  predicate Stable(ds: seq<nat>, avg: nat)
  {
    forall i :: 0 <= i < |ds| ==> Distance(ds[i], avg) < ErrorMargin
  }

  /** The vsync duration after a full window of durations: the average
      less the margin if the window is stable, the previous value
      otherwise. The subtraction stops at zero; see `VsyncAsWritten`. */
  function NewVsync(ds: seq<nat>, previous: Option<nat>): Option<nat>
  {
    var avg := Average(ds);
    if Stable(ds, avg) then Some(Elapsed(avg, ErrorMargin)) else previous
  }

  /** The vsync duration changes only after a stable window, and then it
      lies a millisecond below the average, but never below zero. A stable
      window's vsync duration is no longer than any of its frames, and
      shorter than each when the average is at least a millisecond. */
  lemma NewVsyncSpec(ds: seq<nat>, previous: Option<nat>)
    ensures NewVsync(ds, previous) != previous ==> Stable(ds, Average(ds))
    ensures Stable(ds, Average(ds)) ==>
      var v := NewVsync(ds, previous).value;
      (Average(ds) >= ErrorMargin ==> v + ErrorMargin == Average(ds)) &&
      (Average(ds) < ErrorMargin ==> v == 0) &&
      forall i :: 0 <= i < |ds| ==> v <= ds[i] && (Average(ds) >= ErrorMargin ==> v < ds[i])
  {
    if Stable(ds, Average(ds)) {
      var avg := Average(ds);
      forall i | 0 <= i < |ds|
        ensures Elapsed(avg, ErrorMargin) <= ds[i] && (avg >= ErrorMargin ==> Elapsed(avg, ErrorMargin) < ds[i])
      {
        assert Distance(ds[i], avg) < ErrorMargin;
      }
    }
  }

  /** How long `begin_frame` sleeps: what the vsync interval leaves after
      the time the last frame ran, if anything. */
  function WaitFor(vsync: nat, runningTime: nat): (wait: Option<nat>)
    ensures wait.Some? <==> runningTime < vsync
    ensures wait.Some? ==> runningTime + wait.value == vsync && wait.value > 0
  {
    if vsync > runningTime then Some(vsync - runningTime) else None
  }

  /** With the start read after the sleep, a frame whose work took `work`,
      less than the vsync duration, is followed by a wait of the rest of
      the interval: every such frame waits the same. */
  lemma SteadyWait(vsync: nat, start: int, work: nat)
    requires work < vsync
    ensures WaitFor(vsync, Elapsed(start + work, start)) == Some(vsync - work)
  {
  }

  /** The fold of `begin_frame` adding up the durations. */
  method SumDurations(ds: seq<nat>) returns (sum: nat)
    ensures sum == Sum(ds)
  {
    sum := 0;
    for i := 0 to |ds|
      invariant sum == Sum(ds[..i])
    {
      assert ds[..i + 1][..i] == ds[..i];
      sum := sum + ds[i];
    }
    assert ds[..|ds|] == ds;
  }

  /** The `all` of `begin_frame`: whether every duration lies within the
      margin of the average. */
  method AllWithinMargin(ds: seq<nat>, avg: nat) returns (stable: bool)
    ensures stable == Stable(ds, avg)
  {
    stable := true;
    var i := 0;
    while i < |ds|
      invariant 0 <= i <= |ds|
      invariant forall j :: 0 <= j < i ==> Distance(ds[j], avg) < ErrorMargin
    {
      if Distance(ds[i], avg) >= ErrorMargin {
        return false;
      }
      i := i + 1;
    }
  }

  /** `FrameTimer`. */
  class Timer {
    var vsyncDuration: Option<nat>
    var end: Option<int>
    var start: Option<int>
    var frameDuration: Option<nat>
    var waitDuration: Option<nat>
    var frameDurations: seq<nat>

    /** The window of durations never fills up between frames. */
    ghost predicate Valid()
      reads this
    {
      |frameDurations| < StableFramesCount
    }

    /** `new`: nothing measured yet. */
    constructor ()
      ensures Valid()
      ensures vsyncDuration == None && end == None && start == None
      ensures frameDuration == None && waitDuration == None && frameDurations == []
    {
      vsyncDuration := None;
      end := None;
      start := None;
      frameDuration := None;
      waitDuration := None;
      frameDurations := [];
    }

    /** `end_frame`: the frame ends at `now`; the time since the previous
        end, if there was one, is the frame's duration. */
    method EndFrame(now: int)
      requires Valid()
      modifies this
      ensures Valid()
      ensures end == Some(now)
      ensures frameDuration == if old(end).Some? then Some(Elapsed(now, old(end).value)) else old(frameDuration)
      ensures vsyncDuration == old(vsyncDuration) && start == old(start)
      ensures waitDuration == old(waitDuration) && frameDurations == old(frameDurations)
    {
      if end.Some? {
        frameDuration := Some(Elapsed(now, end.value));
      }
      end := Some(now);
    }

    /** `begin_frame`, entered at `now`. Until an end, a frame duration
        and a start are all known, only the start is recorded. After that,
        the last frame's duration joins the window; a full window is judged
        and emptied; and with a vsync duration known, the frame first waits
        for what the vsync interval leaves after the time from the last
        start to the last end. The result is that wait. The start is read
        from the clock after the sleep, which lasts the wait and
        `overshoot` more, as a sleep lasts at least as long as asked. */
    method BeginFrame(now: int, overshoot: nat) returns (sleep: Option<nat>)
      requires Valid()
      modifies this
      ensures Valid()
      ensures start == Some(if sleep.Some? then now + sleep.value + overshoot else now)
      ensures end == old(end) && frameDuration == old(frameDuration)
      ensures !(old(end).Some? && old(frameDuration).Some? && old(start).Some?) ==>
        vsyncDuration == old(vsyncDuration) && waitDuration == old(waitDuration) &&
        frameDurations == old(frameDurations) && sleep == None
      ensures old(end).Some? && old(frameDuration).Some? && old(start).Some? ==>
        var window := old(frameDurations) + [old(frameDuration).value];
        (|window| < StableFramesCount ==> frameDurations == window && vsyncDuration == old(vsyncDuration)) &&
        (|window| == StableFramesCount ==> frameDurations == [] && vsyncDuration == NewVsync(window, old(vsyncDuration))) &&
        (vsyncDuration.None? ==> waitDuration == old(waitDuration) && sleep == None) &&
        (vsyncDuration.Some? ==>
          waitDuration == WaitFor(vsyncDuration.value, Elapsed(old(end).value, old(start).value)) &&
          sleep == waitDuration)
    {
      sleep := None;
      if !(end.Some? && frameDuration.Some? && start.Some?) {
        start := Some(now);
        return;
      }
      var lastEnd, duration, lastStart := end.value, frameDuration.value, start.value;

      frameDurations := frameDurations + [duration];
      if |frameDurations| >= StableFramesCount {
        var sum := SumDurations(frameDurations);
        var avg := sum / StableFramesCount;
        var stable := AllWithinMargin(frameDurations, avg);
        if stable {
          vsyncDuration := Some(Elapsed(avg, ErrorMargin));
        }
        frameDurations := [];
      }

      if vsyncDuration.Some? {
        var vsync := vsyncDuration.value;
        var runningTime := Elapsed(lastEnd, lastStart);
        if vsync > runningTime {
          waitDuration := Some(vsync - runningTime);
          sleep := waitDuration;
        } else {
          waitDuration := None;
        }
      }

      start := Some(if sleep.Some? then now + sleep.value + overshoot else now);
    }
  }

  // ---------------------------------------------------------------------
  // The vsync duration as written

  /** The vsync update as written: `avg - FRAME_DURATION_ERROR_MARGIN` on
      durations, which panics when the average is under a millisecond. */
  function VsyncAsWritten(ds: seq<nat>, previous: Option<nat>): (r: Result<Option<nat>, string>)
    ensures r.Ok? ==> r.value == NewVsync(ds, previous)
  {
    var avg := Average(ds);
    if Stable(ds, avg) then
      if avg >= ErrorMargin then Ok(Some(avg - ErrorMargin))
      else Err("overflow when subtracting durations")
    else Ok(previous)
  }

  /** Twenty frames of half a millisecond each are stable around their
      average, which is under the margin: the update panics. */
  lemma FastFramesPanic()
    ensures VsyncAsWritten(seq(20, _ => 500_000), None).Err?
  {
    var ds: seq<nat> := seq(20, _ => 500_000);
    SumConstant(20, 500_000);
    assert Average(ds) == 500_000;
    assert Stable(ds, 500_000);
  }

  lemma {:induction false} SumConstant(n: nat, d: nat)
    ensures Sum(seq(n, _ => d)) == n * d
  {
    if n > 0 {
      var ds: seq<nat> := seq(n, _ => d);
      assert ds[..n - 1] == seq(n - 1, _ => d);
      SumConstant(n - 1, d);
    }
  }
}
