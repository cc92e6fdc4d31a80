/**
 * The hazard-alert debounce of the live-stream client (LiveMode.jsx,
 * `onmessage`, lines 129-167), as a pure state machine.  `active` stands for
 * `alertRef.current` being set (the warning toast is up and its sound plays),
 * `clearAt` for `cooldownRef.current` (a pending clear timer, written as the
 * time at which it is due) and `onScreen` for the number of warning toasts on
 * screen.  A positive lane-hazard count raises the warning at once; a count
 * that is zero, negative or missing arms one 3000 ms clear timer.
 */
module AlertDebounce {
  import opened Wrappers

  const ClearDelay: nat := 3000

  datatype AlertState = AlertState(active: bool, clearAt: Option<nat>, onScreen: nat)

  const Idle: AlertState := AlertState(false, None, 0)

  /** `driverLaneHazardCount > 0`; an absent count (`undefined > 0`) is false. */
  predicate Positive(count: Option<int>)
  {
    count.Some? && count.value > 0
  }

  /** One warning toast is on screen exactly while the warning is active. */
  predicate Inv(s: AlertState)
  {
    s.onScreen == if s.active then 1 else 0
  }

  /** A telemetry message with the given lane-hazard count arrives at time `t`. */
  function OnTelemetry(s: AlertState, count: Option<int>, t: nat): (r: AlertState)
    // a positive count raises the warning at once and cancels any pending clear
    ensures Positive(count) ==> r.active && r.clearAt.None?
    // a new toast is shown only when none is active
    ensures Positive(count) ==> r.onScreen == if s.active then s.onScreen else s.onScreen + 1
    // telemetry never lowers the warning
    ensures !Positive(count) ==> r.active == s.active && r.onScreen == s.onScreen
    // a quiet count arms a timer only when none is pending, and never moves a pending one
    ensures !Positive(count) && s.clearAt.Some? ==> r.clearAt == s.clearAt
    ensures !Positive(count) && s.clearAt.None? ==> r.clearAt == Some(t + ClearDelay)
    ensures Inv(s) ==> Inv(r)
  {
    if Positive(count) then
      AlertState(true, None, if s.active then s.onScreen else s.onScreen + 1)
    else if s.clearAt.None? then
      s.(clearAt := Some(t + ClearDelay))
    else
      s
  }

  /** The clear timer fires: an active warning is dismissed, and the timer slot is always freed. */
  function OnTimerFire(s: AlertState): (r: AlertState)
    ensures !r.active && r.clearAt.None?
    ensures s.active && s.onScreen > 0 ==> r.onScreen == s.onScreen - 1
    ensures !s.active ==> r.onScreen == s.onScreen
    ensures Inv(s) ==> r == Idle
  {
    if s.active then
      AlertState(false, None, if s.onScreen > 0 then s.onScreen - 1 else 0)
    else
      s.(clearAt := None)
  }

  datatype Event = Telemetry(count: Option<int>, at: nat) | TimerFire(at: nat)

  predicate Raises(e: Event)
  {
    e.Telemetry? && Positive(e.count)
  }

  predicate Quiet(e: Event)
  {
    e.Telemetry? && !Positive(e.count)
  }

  /** A timer event can only happen while a timer is pending and due. */
  predicate Enabled(s: AlertState, e: Event)
  {
    e.TimerFire? ==> s.clearAt.Some? && s.clearAt.value <= e.at
  }

  function Step(s: AlertState, e: Event): AlertState
  {
    match e
    case Telemetry(count, at) => OnTelemetry(s, count, at)
    case TimerFire(_) => OnTimerFire(s)
  }

  function Run(s: AlertState, evs: seq<Event>): AlertState
    decreases |evs|
  {
    if evs == [] then s else Run(Step(s, evs[0]), evs[1..])
  }

  /** Events in time order, each timer firing no earlier than it is due. */
  predicate Admissible(s: AlertState, evs: seq<Event>, now: nat)
    decreases |evs|
  {
    evs == [] ||
    (now <= evs[0].at && Enabled(s, evs[0]) && Admissible(Step(s, evs[0]), evs[1..], evs[0].at))
  }

  ghost predicate NoRaiseIn(evs: seq<Event>, lo: nat, hi: nat)
    requires lo <= hi <= |evs|
  {
    forall k :: lo <= k < hi ==> !Raises(evs[k])
  }

  /** Somewhere in `evs` a quiet message at t0 is followed, with no positive count
      in between, by the clear timer firing at t >= t0 + 3000. */
  ghost predicate QuietPeriodThenClear(evs: seq<Event>)
  {
    exists j, i :: 0 <= j < i < |evs| && Quiet(evs[j]) && evs[i].TimerFire? &&
      evs[j].at + ClearDelay <= evs[i].at && NoRaiseIn(evs, j, i + 1)
  }

  /** The timer fires at or after `d`, with no positive count before it. */
  ghost predicate FiresAfter(evs: seq<Event>, d: nat)
  {
    exists i :: 0 <= i < |evs| && evs[i].TimerFire? && d <= evs[i].at && NoRaiseIn(evs, 0, i + 1)
  }

  lemma ShiftQuietPeriod(evs: seq<Event>)
    requires evs != [] && QuietPeriodThenClear(evs[1..])
    ensures QuietPeriodThenClear(evs)
  {
    var tail := evs[1..];
    var j, i :| 0 <= j < i < |tail| && Quiet(tail[j]) && tail[i].TimerFire? &&
      tail[j].at + ClearDelay <= tail[i].at && NoRaiseIn(tail, j, i + 1);
    assert evs[j + 1] == tail[j] && evs[i + 1] == tail[i];
    forall k | j + 1 <= k < i + 2
      ensures !Raises(evs[k])
    {
      assert evs[k] == tail[k - 1];
    }
  }

  lemma ShiftFiresAfter(evs: seq<Event>, d: nat)
    requires evs != [] && !Raises(evs[0]) && FiresAfter(evs[1..], d)
    ensures FiresAfter(evs, d)
  {
    var tail := evs[1..];
    var i :| 0 <= i < |tail| && tail[i].TimerFire? && d <= tail[i].at && NoRaiseIn(tail, 0, i + 1);
    assert evs[i + 1] == tail[i];
    forall k | 0 <= k < i + 2
      ensures !Raises(evs[k])
    {
      if k > 0 {
        assert evs[k] == tail[k - 1];
      }
    }
  }

  lemma QuietThenFires(evs: seq<Event>)
    requires evs != [] && Quiet(evs[0]) && FiresAfter(evs[1..], evs[0].at + ClearDelay)
    ensures QuietPeriodThenClear(evs)
  {
    var tail := evs[1..];
    var i :| 0 <= i < |tail| && tail[i].TimerFire? && evs[0].at + ClearDelay <= tail[i].at &&
      NoRaiseIn(tail, 0, i + 1);
    assert evs[i + 1] == tail[i];
    forall k | 0 <= k < i + 2
      ensures !Raises(evs[k])
    {
      if k > 0 {
        assert evs[k] == tail[k - 1];
      }
    }
  }

  /**
   * Hysteresis: once raised (no timer pending), the warning is lowered only
   * after a quiet message at some t0 that no positive count followed until
   * the clear timer fired at t >= t0 + 3000.  Momentary gaps do not flap it.
   */
  lemma {:induction false} ClearOnlyAfterQuietPeriod(s: AlertState, evs: seq<Event>, now: nat)
    requires Admissible(s, evs, now) && s.active && s.clearAt.None?
    requires !Run(s, evs).active
    ensures QuietPeriodThenClear(evs)
    decreases |evs|, 1
  {
    if evs != [] {
      var e := evs[0];
      var s' := Step(s, e);
      if Raises(e) {
        ClearOnlyAfterQuietPeriod(s', evs[1..], e.at);
        ShiftQuietPeriod(evs);
      } else if Quiet(e) {
        PendingClear(s', evs[1..], e.at);
        if FiresAfter(evs[1..], e.at + ClearDelay) {
          QuietThenFires(evs);
        } else {
          ShiftQuietPeriod(evs);
        }
      }
    }
  }

  /** The same, while a clear timer due at `d` is pending. */
  lemma {:induction false} PendingClear(s: AlertState, evs: seq<Event>, now: nat)
    requires Admissible(s, evs, now) && s.active && s.clearAt.Some?
    requires !Run(s, evs).active
    ensures FiresAfter(evs, s.clearAt.value) || QuietPeriodThenClear(evs)
    decreases |evs|, 0
  {
    if evs != [] {
      var e := evs[0];
      var s' := Step(s, e);
      if Raises(e) {
        ClearOnlyAfterQuietPeriod(s', evs[1..], e.at);
        ShiftQuietPeriod(evs);
      } else if Quiet(e) {
        assert s' == s;
        PendingClear(s', evs[1..], e.at);
        if FiresAfter(evs[1..], s.clearAt.value) {
          ShiftFiresAfter(evs, s.clearAt.value);
        } else {
          ShiftQuietPeriod(evs);
        }
      } else {
        assert NoRaiseIn(evs, 0, 1);
      }
    }
  }

  /** Repeated quiet messages neither re-arm nor extend a pending clear timer. */
  lemma {:induction false} QuietRunKeepsDeadline(s: AlertState, evs: seq<Event>)
    requires s.clearAt.Some?
    requires forall k :: 0 <= k < |evs| ==> Quiet(evs[k])
    ensures Run(s, evs) == s
    decreases |evs|
  {
    if evs != [] {
      QuietRunKeepsDeadline(Step(s, evs[0]), evs[1..]);
    }
  }

  /** After a run of quiet messages the clear deadline is 3000 ms after the first of them. */
  lemma DeadlineFromFirstQuiet(s: AlertState, evs: seq<Event>)
    requires s.clearAt.None? && evs != []
    requires forall k :: 0 <= k < |evs| ==> Quiet(evs[k])
    ensures Run(s, evs) == s.(clearAt := Some(evs[0].at + ClearDelay))
  {
    QuietRunKeepsDeadline(Step(s, evs[0]), evs[1..]);
  }

  /** At most one warning toast is ever on screen. */
  lemma {:induction false} AtMostOneWarning(s: AlertState, evs: seq<Event>)
    requires Inv(s)
    ensures Inv(Run(s, evs)) && Run(s, evs).onScreen <= 1
    decreases |evs|
  {
    if evs != [] {
      AtMostOneWarning(Step(s, evs[0]), evs[1..]);
    }
  }

  /** A non-zero count 2999 ms after a zero cancels the clear; the next zero starts a fresh 3000 ms. */
  lemma NonzeroBeforeDeadlineResets(t: nat)
    ensures var s := AlertState(true, None, 1);
      var evs := [Telemetry(Some(0), t), Telemetry(Some(1), t + 2999), Telemetry(Some(0), t + 3500)];
      Run(s, evs) == AlertState(true, Some(t + 6500), 1)
  {
    var s := AlertState(true, None, 1);
    var evs := [Telemetry(Some(0), t), Telemetry(Some(1), t + 2999), Telemetry(Some(0), t + 3500)];
    var s1 := AlertState(true, Some(t + 3000), 1);
    var s2 := AlertState(true, None, 1);
    assert Step(s, evs[0]) == s1;
    assert Step(s1, evs[1]) == s2;
    assert Run(s2, evs[2..]) == AlertState(true, Some(t + 6500), 1) by {
      assert evs[2..][1..] == [];
    }
    assert evs[1..][1..] == evs[2..];
  }
}
