/** The two small state machines around a compaction: the pressure tracker with its
    hysteresis band, and the watchdog that re-issues a stalled resume. */
module LoopGuards {

  // ---- context pressure ----

  datatype Sample = Sample(utilization: real) | Reset

  class Pressure {
    const high: real
    const low: real
    var armed: bool

    constructor (high: real, low: real)
      ensures this.high == high && this.low == low && !armed
    {
      this.high, this.low, armed := high, low, false;
    }

    method Update(u: real) returns (changed: bool)
      modifies this`armed
      ensures armed == Follow(high, low, old(armed), Sample(u))
      ensures changed <==> armed != old(armed)
    {
      changed := false;
      if !armed {
        if u >= high { armed, changed := true, true; }
      } else {
        if u <= low { armed, changed := false, true; }
      }
    }

    method ResetNow()
      modifies this`armed
      ensures armed == Follow(high, low, old(armed), Reset)
    {
      armed := false;
    }
  }

  function Follow(high: real, low: real, armed: bool, s: Sample): bool {
    match s
    case Reset => false
    case Sample(u) => if armed then u > low else u >= high
  }

  function ArmedAfter(high: real, low: real, run: seq<Sample>): bool {
    run != [] && Follow(high, low, ArmedAfter(high, low, run[..|run| - 1]), run[|run| - 1])
  }

  predicate IsHigh(high: real, s: Sample) { s.Sample? && s.utilization >= high }

  /** At or below the low mark, or a reset. */
  predicate IsLow(low: real, s: Sample) { s.Reset? || s.utilization <= low }

  /** A high sample came, and nothing low since. */
  predicate LastOutsideIsHigh(high: real, low: real, run: seq<Sample>) {
    exists i :: 0 <= i < |run| && IsHigh(high, run[i]) && forall j :: i < j < |run| ==> !IsLow(low, run[j])
  }

  /** The tracker is armed exactly when the latest sample outside the open band since the
      last reset was high. */
  lemma {:induction false} ArmedIff(high: real, low: real, run: seq<Sample>)
    requires low < high
    ensures ArmedAfter(high, low, run) <==> LastOutsideIsHigh(high, low, run)
  {
    if run != [] {
      var init, last := run[..|run| - 1], |run| - 1;
      ArmedIff(high, low, init);
      if LastOutsideIsHigh(high, low, init) && !IsLow(low, run[last]) {
        var i :| 0 <= i < |init| && IsHigh(high, init[i]) && forall j :: i < j < |init| ==> !IsLow(low, init[j]);
        assert run[i] == init[i] && forall j :: i < j < last ==> !IsLow(low, run[j]) by {
          assert forall j :: i < j < last ==> run[j] == init[j];
        }
      }
      if IsHigh(high, run[last]) {
        assert LastOutsideIsHigh(high, low, run);
      } else if i :| 0 <= i < |run| && IsHigh(high, run[i]) && forall j :: i < j < |run| ==> !IsLow(low, run[j]) {
        assert init[i] == run[i] && forall j :: i < j < |init| ==> init[j] == run[j];
      }
    }
  }

  predicate ArmsAt(high: real, low: real, run: seq<Sample>, k: nat)
    requires k < |run|
  {
    !ArmedAfter(high, low, run[..k]) && ArmedAfter(high, low, run[..k + 1])
  }

  /** No thrash: between two armings a sample reached the low mark or a reset came. */
  lemma ArmingsApart(high: real, low: real, run: seq<Sample>, i: nat, k: nat)
    requires low < high && i < k < |run| && ArmsAt(high, low, run, i) && ArmsAt(high, low, run, k)
    ensures exists j :: i < j < k && IsLow(low, run[j])
  {
    var first, upTo := run[..i + 1], run[..k];
    ArmedIff(high, low, first);
    ArmedIff(high, low, upTo);
    var a :| 0 <= a < |first| && IsHigh(high, first[a]) && forall j :: a < j < |first| ==> !IsLow(low, first[j]);
    assert forall j :: 0 <= j <= i ==> first[j] == upTo[j];
    assert !forall j :: a < j < k ==> !IsLow(low, upTo[j]);
    var j :| a < j < k && IsLow(low, upTo[j]);
    assert run[j] == upTo[j];
  }

  // ---- the watchdog ----

  datatype Stage = Idle | Armed | Reissued | Cancelled

  /** `Fire` is any timer callback, late or doubled ones included, or a forced expiry. */
  datatype Call = Arm | Fire | ReachedRunning | Disarm

  datatype Dog = Dog(stage: Stage, fired: bool)

  /** The state after a call, and whether it re-issued the task. */
  function Respond(d: Dog, c: Call): (Dog, bool) {
    match c
    case Arm => (Dog(Armed, false), false)
    case Fire => if d.fired || !d.stage.Armed? then (d, false) else (Dog(Reissued, true), true)
    case ReachedRunning => if d.stage.Reissued? then (d, false) else (Dog(Cancelled, true), false)
    case Disarm => (Dog(if d.stage.Reissued? then Reissued else Cancelled, true), false)
  }

  class Watchdog {
    var timer: bool
    var stage: Stage
    var fired: bool

    /** A timer is pending exactly while the watchdog is armed. */
    ghost predicate Valid()
      reads this
    {
      (timer <==> stage.Armed?) && (stage.Armed? ==> !fired)
    }

    constructor ()
      ensures Valid() && stage == Idle && !fired
    {
      timer, stage, fired := false, Idle, false;
    }

    method FireNow() returns (reissued: bool)
      requires Valid()
      modifies this
      ensures Valid() && (Dog(stage, fired), reissued) == Respond(old(Dog(stage, fired)), Fire)
      ensures !timer
    {
      if fired { return false; }
      if stage != Armed { return false; }
      fired, timer, stage := true, false, Reissued;
      reissued := true;
    }

    method ArmNow()
      requires Valid()
      modifies this
      ensures Valid() && Dog(stage, fired) == Respond(old(Dog(stage, fired)), Arm).0
      ensures timer
    {
      fired, stage, timer := false, Armed, true;
    }

    method RunningReached() returns (inTime: bool)
      requires Valid()
      modifies this
      ensures Valid() && Dog(stage, fired) == Respond(old(Dog(stage, fired)), ReachedRunning).0
      ensures inTime <==> !old(stage).Reissued?
      ensures !timer
    {
      if stage == Reissued { return false; }
      timer, fired, stage := false, true, Cancelled;
      inTime := true;
    }

    method DisarmNow()
      requires Valid()
      modifies this
      ensures Valid() && Dog(stage, fired) == Respond(old(Dog(stage, fired)), Disarm).0
      ensures !timer
    {
      timer, fired := false, true;
      if stage != Reissued { stage := Cancelled; }
    }
  }

  function After(calls: seq<Call>): Dog {
    if calls == [] then Dog(Idle, false) else Respond(After(calls[..|calls| - 1]), calls[|calls| - 1]).0
  }

  predicate Reissues(calls: seq<Call>, k: nat)
    requires k < |calls|
  {
    Respond(After(calls[..k]), calls[k]).1
  }

  /** The watchdog is armed, with its timer pending, exactly right after an arming. */
  lemma {:induction false} ArmedMeans(calls: seq<Call>)
    ensures After(calls).stage.Armed? <==> calls != [] && calls[|calls| - 1].Arm?
    ensures After(calls).stage.Armed? ==> !After(calls).fired
  {
    if calls != [] { ArmedMeans(calls[..|calls| - 1]); }
  }

  /** A callback re-issues exactly when it is the first call of any kind since an arming:
      so at most once for each arming, and never after the resume was reached in time or
      the watchdog was disarmed, until it is armed again. */
  lemma {:induction false} ReissuesIff(calls: seq<Call>, k: nat)
    requires k < |calls|
    ensures Reissues(calls, k) <==> calls[k].Fire? && k > 0 && calls[k - 1].Arm?
  {
    ArmedMeans(calls[..k]);
    if k > 0 { assert calls[..k][|calls[..k]| - 1] == calls[k - 1]; }
  }

  /** The last arming was followed by a callback at once, which re-issued the task. */
  predicate HandedOn(calls: seq<Call>) {
    exists k :: 0 <= k < |calls| && Reissues(calls, k) && forall j :: k < j < |calls| ==> !calls[j].Arm?
  }

  /** The watchdog stands as re-issued, and so tells that running was reached too late,
      exactly from a re-issue until the next arming. */
  lemma {:induction false} ReissuedIff(calls: seq<Call>)
    ensures After(calls).stage.Reissued? <==> HandedOn(calls)
  {
    if calls != [] {
      var init, last := calls[..|calls| - 1], |calls| - 1;
      ReissuedIff(init);
      forall k: nat | k < |init| ensures Reissues(init, k) == Reissues(calls, k) {
        assert init[..k] == calls[..k];
      }
      if HandedOn(init) && !calls[last].Arm? {
        var k :| 0 <= k < |init| && Reissues(init, k) && forall j :: k < j < |init| ==> !init[j].Arm?;
        assert Reissues(calls, k) && forall j :: k < j < |calls| ==> !calls[j].Arm? by {
          assert forall j :: k < j < |init| ==> init[j] == calls[j];
        }
      }
      if Reissues(calls, last) {
        assert HandedOn(calls);
      } else if k :| 0 <= k < |calls| && Reissues(calls, k) && forall j :: k < j < |calls| ==> !calls[j].Arm? {
        assert k < |init| && Reissues(init, k);
        assert forall j :: k < j < |init| ==> init[j] == calls[j];
        assert !calls[last].Arm?;
      }
    }
  }
}
