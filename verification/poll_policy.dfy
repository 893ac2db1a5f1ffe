/**
 The poll windows of src/content/poll-policy.ts. Times are milliseconds and
 policy values minutes, both as reals; a missing, non-finite or non-positive
 policy number falls back to its default.
 */
module PollPolicy {
  import opened Wrappers

  datatype Phase = Normal | Approaching | Final90

  datatype Policy = Policy(
    normalMinutes: Option<real>,
    approachingMinutes: Option<real>,
    final90Minutes: Option<real>,
    safetyLagMinutes: Option<real>,
    overlapMinutes: Option<real>,
    maxCatchupMinutes: Option<real>)

  const MINUTE_MS := 60000.0

  function PolicyNumber(value: Option<real>, fallback: real): (r: real)
    requires fallback > 0.0
    ensures r > 0.0
    ensures r == fallback || value == Some(r)
  {
    if value.Some? && value.value > 0.0 then value.value else fallback
  }

  function PeriodMs(p: Policy, phase: Phase): (r: real)
    ensures r > 0.0
  {
    (match phase
     case Final90 => PolicyNumber(p.final90Minutes, 5.0)
     case Approaching => PolicyNumber(p.approachingMinutes, 10.0)
     case Normal => PolicyNumber(p.normalMinutes, 30.0)) * MINUTE_MS
  }

  function LagMs(p: Policy): (r: real)
    ensures r > 0.0
  {
    PolicyNumber(p.safetyLagMinutes, 2.0) * MINUTE_MS
  }

  function OverlapMs(p: Policy): (r: real)
    ensures r > 0.0
  {
    PolicyNumber(p.overlapMinutes, 5.0) * MINUTE_MS
  }

  function MaxCatchupMs(p: Policy): (r: real)
    ensures r > 0.0
  {
    PolicyNumber(p.maxCatchupMinutes, 360.0) * MINUTE_MS
  }

  predicate IsPollDue(p: Policy, phase: Phase, now: real, checkpointEnd: Option<real>) {
    checkpointEnd.None? || now - checkpointEnd.value >= PeriodMs(p, phase) + LagMs(p)
  }

  datatype Window = Window(start: real, end: real)

  function ComputePollWindow(p: Policy, phase: Phase, now: real, checkpointEnd: Option<real>): Window {
    var end := now - LagMs(p);
    var earliest := end - MaxCatchupMs(p);
    var fromCheckpoint :=
      if checkpointEnd.Some? then checkpointEnd.value - OverlapMs(p) else end - PeriodMs(p, phase);
    Window(if fromCheckpoint < earliest then earliest else fromCheckpoint, end)
  }

  // -------------------------------------------------------------------- runs

  /** The window, if any, that one wake-up adds. */
  function Poll(p: Policy, phase: Phase, now: real, done: seq<Window>): (r: seq<Window>)
    ensures |done| <= |r| <= |done| + 1 && r[..|done|] == done
  {
    var checkpoint := if done == [] then None else Some(done[|done| - 1].end);
    if IsPollDue(p, phase, now, checkpoint) then done + [ComputePollWindow(p, phase, now, checkpoint)] else done
  }

  /** The wake-up times at which a fixed policy and phase is asked whether to poll. */
  function Windows(p: Policy, phase: Phase, wakeups: seq<real>): seq<Window> {
    if wakeups == [] then []
    else
      Poll(p, phase, wakeups[|wakeups| - 1], Windows(p, phase, wakeups[..|wakeups| - 1]))
  }

  /** What each new window is, relative to the one before it. */
  predicate Follows(p: Policy, phase: Phase, previous: Window, next: Window) {
    && next.start < next.end
    && next.end - previous.end >= PeriodMs(p, phase)
    && next.start >= next.end - MaxCatchupMs(p)
    && (next.start <= previous.end <==> next.end - previous.end <= MaxCatchupMs(p))
  }

  /**
   Each window is non-empty, ends at least one period after the one before it, and reaches back to it exactly when the
   gap fits.
   */
  lemma {:induction false} WindowsAdvance(p: Policy, phase: Phase, wakeups: seq<real>)
    ensures
      var ws := Windows(p, phase, wakeups);
      && (ws != [] ==> ws[0].start < ws[0].end)
      && (forall i | 0 < i < |ws| :: Follows(p, phase, ws[i - 1], ws[i]))
  {
    if wakeups != [] {
      var front := wakeups[..|wakeups| - 1];
      WindowsAdvance(p, phase, front);
      var done, ws := Windows(p, phase, front), Windows(p, phase, wakeups);
      assert ws == Poll(p, phase, wakeups[|wakeups| - 1], done);
      forall i | 0 < i < |ws| ensures Follows(p, phase, ws[i - 1], ws[i]) {
        if i < |done| { assert Follows(p, phase, done[i - 1], done[i]); }
      }
    }
  }

  // ---------------------------------------------------------------- coverage

  predicate Covered(ws: seq<Window>, t: real) {
    exists i | 0 <= i < |ws| :: ws[i].start <= t <= ws[i].end
  }

  /** Every instant between the first start and the last end lies in some window. */
  ghost predicate NoHole(ws: seq<Window>) {
    forall t: real {:trigger Covered(ws, t)} | ws != [] && ws[0].start <= t <= ws[|ws| - 1].end :: Covered(ws, t)
  }

  predicate GapsFit(p: Policy, ws: seq<Window>) {
    forall i | 0 < i < |ws| :: ws[i].end - ws[i - 1].end <= MaxCatchupMs(p)
  }

  lemma {:induction false} JoinedWindowsHaveNoHole(ws: seq<Window>, t: real)
    requires forall i | 0 < i < |ws| :: ws[i].start <= ws[i - 1].end
    requires ws != [] && ws[0].start <= t <= ws[|ws| - 1].end
    ensures Covered(ws, t)
  {
    var last := |ws| - 1;
    if last > 0 && t <= ws[last - 1].end {
      JoinedWindowsHaveNoHole(ws[..last], t);
      var i :| 0 <= i < |ws[..last]| && ws[..last][i].start <= t <= ws[..last][i].end;
      assert ws[i].start <= t <= ws[i].end;
    } else {
      assert ws[last].start <= t <= ws[last].end;
    }
  }

  lemma {:induction false} EndsIncrease(p: Policy, phase: Phase, ws: seq<Window>, i: nat, j: nat)
    requires forall n | 0 < n < |ws| :: Follows(p, phase, ws[n - 1], ws[n])
    requires i <= j < |ws|
    ensures ws[i].end <= ws[j].end
  {
    if i < j {
      EndsIncrease(p, phase, ws, i, j - 1);
      assert Follows(p, phase, ws[j - 1], ws[j]);
    }
  }

  /** A gap beyond the catch-up limit leaves an instant that no window, earlier or later, ever covers. */
  lemma WideGapIsAHole(p: Policy, phase: Phase, ws: seq<Window>, k: nat)
    requires ws != [] && ws[0].start < ws[0].end
    requires forall n | 0 < n < |ws| :: Follows(p, phase, ws[n - 1], ws[n])
    requires 0 < k < |ws| && ws[k].end - ws[k - 1].end > MaxCatchupMs(p)
    ensures !NoHole(ws)
  {
    assert Follows(p, phase, ws[k - 1], ws[k]);
    var limit := ws[k].end - MaxCatchupMs(p);
    var t := (ws[k - 1].end + limit) / 2.0;
    forall i | 0 <= i < |ws| ensures !(ws[i].start <= t <= ws[i].end) {
      if i < k {
        EndsIncrease(p, phase, ws, i, k - 1);
      } else {
        EndsIncrease(p, phase, ws, k, i);
        assert Follows(p, phase, ws[i - 1], ws[i]);
      }
    }
    assert !Covered(ws, t);
    EndsIncrease(p, phase, ws, 0, k - 1);
    EndsIncrease(p, phase, ws, k, |ws| - 1);
  }

  /**
   The windows of a run cover one interval with no hole exactly when no gap between their ends exceeds the catch-up
   limit.
   */
  lemma WindowsCoverTimeIffGapsFit(p: Policy, phase: Phase, wakeups: seq<real>)
    ensures NoHole(Windows(p, phase, wakeups)) <==> GapsFit(p, Windows(p, phase, wakeups))
  {
    var ws := Windows(p, phase, wakeups);
    WindowsAdvance(p, phase, wakeups);
    if GapsFit(p, ws) {
      assert forall i | 0 < i < |ws| :: Follows(p, phase, ws[i - 1], ws[i]);
      forall t: real {:trigger Covered(ws, t)} | ws != [] && ws[0].start <= t <= ws[|ws| - 1].end
        ensures Covered(ws, t) {
        JoinedWindowsHaveNoHole(ws, t);
      }
    } else {
      var k :| 0 < k < |ws| && ws[k].end - ws[k - 1].end > MaxCatchupMs(p);
      WideGapIsAHole(p, phase, ws, k);
    }
  }

  // ----------------------------------------------------------------- cadence

  /** A wake-up every minute from `from` on. */
  function EveryMinute(from: real, n: nat): (wakeups: seq<real>)
    ensures |wakeups| == n
    ensures forall i | 0 <= i < n :: wakeups[i] == from + i as real * MINUTE_MS
  {
    seq(n, i requires 0 <= i < n => from + i as real * MINUTE_MS)
  }

  /** Polls at every `period`-th wake-up: how many among n, the k-th ending when. */
  predicate Steady(p: Policy, ws: seq<Window>, from: real, period: nat, n: nat) {
    && |ws| * period >= n
    && (|ws| - 1) * period < n
    && (n == 0 ==> ws == [])
    && forall k | 0 <= k < |ws| :: ws[k].end == from + (k * period) as real * MINUTE_MS - LagMs(p)
  }

  /** Woken every minute, a phase whose period is a whole number of minutes polls at every period-th wake-up. */
  lemma {:induction false} SteadyCadence(p: Policy, phase: Phase, period: nat, from: real, n: nat)
    requires period > 0 && PeriodMs(p, phase) == period as real * MINUTE_MS
    ensures Steady(p, Windows(p, phase, EveryMinute(from, n)), from, period, n)
  {
    if n > 0 {
      var wakeups := EveryMinute(from, n);
      assert wakeups[..n - 1] == EveryMinute(from, n - 1);
      SteadyCadence(p, phase, period, from, n - 1);
      var done, ws := Windows(p, phase, EveryMinute(from, n - 1)), Windows(p, phase, wakeups);
      assert ws == Poll(p, phase, wakeups[n - 1], done);
      NextSteadyPoll(p, phase, period, from, n - 1, done);
    }
  }

  /** The wake-up in minute n polls exactly when the last poll lies a period back. */
  lemma NextSteadyPoll(p: Policy, phase: Phase, period: nat, from: real, n: nat, done: seq<Window>)
    requires period > 0 && PeriodMs(p, phase) == period as real * MINUTE_MS && Steady(p, done, from, period, n)
    ensures Steady(p, Poll(p, phase, from + n as real * MINUTE_MS, done), from, period, n + 1)
  {
    var now := from + n as real * MINUTE_MS;
    var ws := Poll(p, phase, now, done);
    if done == [] {
      assert n == 0;
    } else {
      var last := (|done| - 1) * period;
      assert |done| * period == last + period;
      var end := done[|done| - 1].end;
      assert now - end == (n - last) as real * MINUTE_MS + LagMs(p);
      assert IsPollDue(p, phase, now, Some(end)) <==> n - last >= period;
    }
  }

  /** The minutes a policy gives, or the default when it gives no positive number. */
  predicate MinutesAre(given: Option<real>, fallback: real, minutes: real) {
    if given.Some? && given.value > 0.0 then given.value == minutes else minutes == fallback
  }

  /** The policy numbers that matter in a phase, in minutes. */
  predicate Timing(p: Policy, phase: Phase, period: real, lag: real, overlap: real, catchup: real) {
    && (phase == Normal ==> MinutesAre(p.normalMinutes, 30.0, period))
    && (phase == Approaching ==> MinutesAre(p.approachingMinutes, 10.0, period))
    && (phase == Final90 ==> MinutesAre(p.final90Minutes, 5.0, period))
    && MinutesAre(p.safetyLagMinutes, 2.0, lag) && MinutesAre(p.overlapMinutes, 5.0, overlap)
    && MinutesAre(p.maxCatchupMinutes, 360.0, catchup)
  }

  lemma TimingIsUsed(p: Policy, phase: Phase, period: real, lag: real, overlap: real, catchup: real)
    requires Timing(p, phase, period, lag, overlap, catchup)
    ensures PeriodMs(p, phase) == period * MINUTE_MS && LagMs(p) == lag * MINUTE_MS
    ensures OverlapMs(p) == overlap * MINUTE_MS && MaxCatchupMs(p) == catchup * MINUTE_MS
  {
  }

  /**
   The cadence of a phase woken every minute: windows end `lag` before every `period`-th minute, each starts `overlap`
   before the end of the last one, the first a period before its own end, and none reaches further back than `catchup`.
   */
  lemma PhaseCadence(p: Policy, phase: Phase, period: nat, lag: real, overlap: real, catchup: real, from: real, n: nat,
    k: nat)
    requires period > 0 && Timing(p, phase, period as real, lag, overlap, catchup)
    requires k < |Windows(p, phase, EveryMinute(from, n))|
    ensures
      var ws := Windows(p, phase, EveryMinute(from, n));
      var reach := if k == 0 then period as real else period as real + overlap;
      && (|ws| - 1) * period < n <= |ws| * period
      && ws[k].end == from + ((k * period) as real - lag) * 60000.0
      && ws[k].start == ws[k].end - (if reach < catchup then reach else catchup) * 60000.0
  {
    var ws := Windows(p, phase, EveryMinute(from, n));
    TimingIsUsed(p, phase, period as real, lag, overlap, catchup);
    SteadyCadence(p, phase, period, from, n);
    WindowStarts(p, phase, EveryMinute(from, n), k);
    if k > 0 { assert (k - 1) * period == k * period - period; }
  }

  /** Where the window of one poll starts, in any run. */
  lemma {:induction false} WindowStarts(p: Policy, phase: Phase, wakeups: seq<real>, k: nat)
    requires k < |Windows(p, phase, wakeups)|
    ensures
      var ws := Windows(p, phase, wakeups);
      var earliest := ws[k].end - MaxCatchupMs(p);
      var wanted := if k == 0 then ws[0].end - PeriodMs(p, phase) else ws[k - 1].end - OverlapMs(p);
      ws[k].start == if wanted < earliest then earliest else wanted
  {
    var front := wakeups[..|wakeups| - 1];
    var done, ws := Windows(p, phase, front), Windows(p, phase, wakeups);
    assert ws == Poll(p, phase, wakeups[|wakeups| - 1], done);
    if k < |done| { WindowStarts(p, phase, front, k); }
  }
}
