/**
 * The simulation task: initialise the run in Girder, report it running, walk
 * the solver's states and take a checkpoint (render, upload, report progress)
 * whenever the integer part of the simulated time passes that of the last
 * checkpoint, then mark the run complete and report success. Every call to
 * Girder and every render is an action recorded in a trace; which of them
 * raises is a parameter of the run.
 */
module Tasks {
  import opened Wrappers
  import opened Records
  import opened StepNames

  /** One state of the solver's iterator: its time and whether its phase is `finalize`. */
  datatype Step = Step(time: real, final: bool)

  /** An exception: Girder's HttpError, or anything else. */
  datatype Exception = HttpError | OtherError

  /** An external action of the task. */
  datatype Event =
    | Initialize                                       // fetch the simulation folder, upload config.ini
    | SetStatus(status: Status, current: real, total: real)
    | Render(time: real)                               // generate_vtk into a fresh directory
    | Upload(name: string, time: real)                 // checkpoint folder with its time metadata
    | Finalize                                         // mark the simulation complete

  /** How the task ends: it returns the simulation folder, or re-raises. */
  datatype RunResult = Returned | Raised(exception: Exception)

  datatype Run = Run(trace: seq<Event>, result: RunResult)

  // ---------------------------------------------------------------------------
  // The checkpoint policy
  // ---------------------------------------------------------------------------

  datatype Checkpoint = Checkpoint(time: real, final: bool)

  /** `previous_time`: the time of the last checkpoint, 0.0 before the first. */
  function LastCheckpointTime(cps: seq<Checkpoint>): real
  {
    if cps == [] then 0.0 else cps[|cps| - 1].time
  }

  /** The checkpoints taken while the solver yields `steps`, in order. */
  function Checkpoints(steps: seq<Step>): (cps: seq<Checkpoint>)
    ensures |cps| <= |steps|
  {
    if steps == [] then []
    else
      var earlier := Checkpoints(steps[..|steps| - 1]);
      var s := steps[|steps| - 1];
      if s.time.Floor > LastCheckpointTime(earlier).Floor
      then earlier + [Checkpoint(s.time, s.final)]
      else earlier
  }

  /**
   * The integer parts of the checkpoint times strictly increase and the first
   * is at least 1.
   */
  ghost predicate FloorsIncrease(cps: seq<Checkpoint>)
  {
    && (forall i :: 0 <= i < |cps| ==> cps[i].time.Floor >= 1)
    && (forall i, j :: 0 <= i < j < |cps| ==> cps[i].time.Floor < cps[j].time.Floor)
  }

  /** No checkpoint before time 1, and at most one per time unit. */
  lemma {:induction false} CheckpointFloorsIncrease(steps: seq<Step>)
    ensures FloorsIncrease(Checkpoints(steps))
  {
    if steps != [] {
      var init := steps[..|steps| - 1];
      var s := steps[|steps| - 1];
      var earlier := Checkpoints(init);
      CheckpointFloorsIncrease(init);
      if s.time.Floor > LastCheckpointTime(earlier).Floor {
        var cps := earlier + [Checkpoint(s.time, s.final)];
        assert Checkpoints(steps) == cps;
        if earlier == [] {
          assert LastCheckpointTime(earlier).Floor == 0;
        } else {
          assert LastCheckpointTime(earlier) == earlier[|earlier| - 1].time;
        }
        forall i, j | 0 <= i < j < |cps| ensures cps[i].time.Floor < cps[j].time.Floor {
          if j == |cps| - 1 && i < |earlier| - 1 {
            assert earlier[i].time.Floor < earlier[|earlier| - 1].time.Floor;
          }
        }
      }
    }
  }

  ghost predicate DrawnFrom(cps: seq<Checkpoint>, steps: seq<Step>)
  {
    forall i :: 0 <= i < |cps| ==> Step(cps[i].time, cps[i].final) in steps
  }

  /** Every checkpoint is one of the solver's states. */
  lemma {:induction false} CheckpointsFromSteps(steps: seq<Step>)
    ensures DrawnFrom(Checkpoints(steps), steps)
  {
    if steps != [] {
      var init := steps[..|steps| - 1];
      var s := steps[|steps| - 1];
      CheckpointsFromSteps(init);
      assert steps == init + [s];
      var earlier := Checkpoints(init);
      var cps := Checkpoints(steps);
      forall i | 0 <= i < |cps| ensures Step(cps[i].time, cps[i].final) in steps {
        if i < |earlier| {
          assert cps[i] == earlier[i];
          assert Step(earlier[i].time, earlier[i].final) in init;
        } else {
          assert cps[i] == Checkpoint(s.time, s.final);
        }
      }
    }
  }

  /** A state that does not pass the last checkpoint's time unit adds no checkpoint. */
  lemma QuietStep(steps: seq<Step>, s: Step)
    requires s.time.Floor <= LastCheckpointTime(Checkpoints(steps)).Floor
    ensures Checkpoints(steps + [s]) == Checkpoints(steps)
  {
    assert (steps + [s])[..|steps|] == steps;
  }

  /** A state that passes it adds exactly one checkpoint, at its time. */
  lemma FiringStep(steps: seq<Step>, s: Step)
    requires s.time.Floor > LastCheckpointTime(Checkpoints(steps)).Floor
    ensures Checkpoints(steps + [s]) == Checkpoints(steps) + [Checkpoint(s.time, s.final)]
  {
    assert (steps + [s])[..|steps|] == steps;
  }

  predicate NonDecreasing(steps: seq<Step>)
  {
    forall i, j :: 0 <= i < j < |steps| ==> steps[i].time <= steps[j].time
  }

  /** With non-decreasing solver times, the last checkpoint is no later than the last state. */
  lemma {:induction false} LastCheckpointNotLater(steps: seq<Step>)
    requires NonDecreasing(steps) && Checkpoints(steps) != []
    ensures LastCheckpointTime(Checkpoints(steps)) <= steps[|steps| - 1].time
  {
    var init := steps[..|steps| - 1];
    var s := steps[|steps| - 1];
    if Checkpoints(steps) == Checkpoints(init) {
      LastCheckpointNotLater(init);
      assert init[|init| - 1] == steps[|steps| - 2];
    }
  }

  /** With non-decreasing solver times, a run takes at most floor(last time) checkpoints. */
  lemma CheckpointCountBound(steps: seq<Step>)
    requires NonDecreasing(steps) && steps != []
    ensures |Checkpoints(steps)| <= if steps[|steps| - 1].time.Floor < 0 then 0 else steps[|steps| - 1].time.Floor
  {
    var cps := Checkpoints(steps);
    if cps != [] {
      CheckpointFloorsIncrease(steps);
      FloorsAtLeastPosition(cps, |cps| - 1);
      LastCheckpointNotLater(steps);
      assert cps[|cps| - 1].time <= steps[|steps| - 1].time;
    }
  }

  lemma {:induction false} FloorsAtLeastPosition(cps: seq<Checkpoint>, k: nat)
    requires k < |cps|
    requires FloorsIncrease(cps)
    ensures cps[k].time.Floor >= k + 1
  {
    if k > 0 {
      FloorsAtLeastPosition(cps, k - 1);
    }
  }

  /** If only the last state is in the finalize phase, checkpoint names are pairwise distinct. */
  lemma CheckpointNamesDistinct(steps: seq<Step>, i: nat, j: nat)
    requires forall k :: 0 <= k < |steps| - 1 ==> !steps[k].final
    requires i < j < |Checkpoints(steps)|
    ensures var cps := Checkpoints(steps);
      StepName(i, cps[i].final) != StepName(j, cps[j].final)
  {
    var cps := Checkpoints(steps);
    CheckpointFloorsIncrease(steps);
    CheckpointsFromSteps(steps);
    StepNamesDistinct(i, cps[i].final, j, cps[j].final);
  }

  // ---------------------------------------------------------------------------
  // The actions of a run in which nothing fails
  // ---------------------------------------------------------------------------

  /** An action together with `current_time` at the moment it is made. */
  datatype Action = Action(event: Event, clock: real)

  /** The actions of the checkpoint numbered `k`: render, upload, report progress. */
  function CheckpointActions(k: nat, c: Checkpoint, target: real): seq<Action>
  {
    [ Action(Render(c.time), c.time),
      Action(Upload(StepName(k, c.final), c.time), c.time),
      Action(SetStatus(Running, c.time, target), c.time) ]
  }

  function LoopActions(cps: seq<Checkpoint>, target: real): (r: seq<Action>)
    ensures |r| == 3 * |cps|
  {
    if cps == [] then []
    else LoopActions(cps[..|cps| - 1], target) + CheckpointActions(|cps| - 1, cps[|cps| - 1], target)
  }

  /**
   * Checkpoint `k` occupies three consecutive actions: its render, then the
   * upload named for its number, then the running report at its time.
   */
  lemma {:induction false} LoopActionsAt(cps: seq<Checkpoint>, target: real, k: nat, j: nat)
    requires k < |cps| && j < 3
    ensures LoopActions(cps, target)[3 * k + j] == CheckpointActions(k, cps[k], target)[j]
  {
    if k < |cps| - 1 {
      LoopActionsAt(cps[..|cps| - 1], target, k, j);
    }
  }

  lemma {:induction false} LoopActionsPrefix(cps: seq<Checkpoint>, more: seq<Checkpoint>, target: real)
    ensures LoopActions(cps + more, target)[..3 * |cps|] == LoopActions(cps, target)
    decreases |more|
  {
    if more == [] {
      assert cps + more == cps;
    } else {
      var init := more[..|more| - 1];
      assert (cps + more)[..|cps + more| - 1] == cps + init;
      LoopActionsPrefix(cps, init, target);
    }
  }

  lemma {:induction false} CheckpointsPrefix(steps: seq<Step>, i: nat)
    requires i <= |steps|
    ensures Checkpoints(steps[..i]) <= Checkpoints(steps)
    decreases |steps| - i
  {
    if i < |steps| {
      CheckpointsPrefix(steps, i + 1);
      var next := steps[..i + 1];
      assert next[..|next| - 1] == steps[..i];
    } else {
      assert steps[..i] == steps;
    }
  }

  /** The two actions before the solver is started. */
  function Head(target: real): seq<Action>
  {
    [Action(Initialize, 0.0), Action(SetStatus(Running, 0.0, target), 0.0)]
  }

  /** `current_time` after the solver yielded `steps`: the last state's time, 0 if none. */
  function LastSeenTime(steps: seq<Step>): real
  {
    if steps == [] then 0.0 else steps[|steps| - 1].time
  }

  /** Every action of a run in which nothing fails, in order. */
  function Ideal(steps: seq<Step>, target: real): (r: seq<Action>)
    ensures |r| == 2 + 3 * |Checkpoints(steps)| + 2
  {
    Head(target)
    + LoopActions(Checkpoints(steps), target)
    + [ Action(Finalize, LastSeenTime(steps)),
        Action(SetStatus(Success, target, target), LastSeenTime(steps)) ]
  }

  /** The actions after the first `i` states form a prefix of the whole run's. */
  lemma IdealPrefix(steps: seq<Step>, i: nat, target: real)
    requires i <= |steps|
    ensures var p := Head(target) + LoopActions(Checkpoints(steps[..i]), target);
      |p| <= |Ideal(steps, target)| - 2 && Ideal(steps, target)[..|p|] == p
  {
    var cps := Checkpoints(steps[..i]);
    var all := Checkpoints(steps);
    CheckpointsPrefix(steps, i);
    assert all == cps + all[|cps|..];
    LoopActionsPrefix(cps, all[|cps|..], target);
    var p := Head(target) + LoopActions(cps, target);
    var ideal := Ideal(steps, target);
    assert ideal[..|p|] == Head(target) + LoopActions(all, target)[..3 * |cps|];
  }

  function Events(actions: seq<Action>): (r: seq<Event>)
    ensures |r| == |actions|
  {
    seq(|actions|, i requires 0 <= i < |actions| => actions[i].event)
  }

  // ---------------------------------------------------------------------------
  // Failures
  // ---------------------------------------------------------------------------

  /** The exception the action with this trace position raises, if any. */
  function Reply(faults: map<nat, Exception>, index: nat): Option<Exception>
  {
    if index in faults then Some(faults[index]) else None
  }

  ghost predicate NoFaultBelow(faults: map<nat, Exception>, n: nat)
  {
    forall j :: 0 <= j < n ==> j !in faults
  }

  /** The first position in [from, upto) at which an action raises, or `upto`. */
  function FirstFault(faults: map<nat, Exception>, from: nat, upto: nat): (k: nat)
    requires from <= upto
    ensures from <= k <= upto
    ensures forall j :: from <= j < k ==> j !in faults
    ensures k < upto ==> k in faults
    decreases upto - from
  {
    if from == upto then upto
    else if from in faults then from
    else FirstFault(faults, from + 1, upto)
  }

  /**
   * The end of a run whose `attempted` actions ended in exception `e` with
   * `current_time` equal to `clock`: an HttpError is re-raised as it is; any
   * other exception first makes an attempt to report ERROR, and a failure of
   * that attempt is swallowed.
   */
  function Raise(attempted: seq<Action>, e: Exception, clock: real, target: real): (r: Run)
    ensures r.result == Raised(e)
    ensures Events(attempted) <= r.trace && |r.trace| <= |attempted| + 1
    ensures |r.trace| == |attempted| + 1 <==> e == OtherError
  {
    var report := if e == OtherError then [SetStatus(Error, clock, target)] else [];
    Run(Events(attempted) + report, Raised(e))
  }

  /**
   * The run whose actions, when nothing fails, are `ideal`, the solver's
   * iterator being exhausted just before the last two (after which
   * `current_time` is `lastSeen`): cut after the first action that raises,
   * or where the iterator raises.
   */
  function Cut(ideal: seq<Action>, lastSeen: real, iteratorFault: Option<Exception>,
               faults: map<nat, Exception>, target: real): (r: Run)
    requires |ideal| >= 2
    ensures r.result.Returned? ==> iteratorFault.None? && r.trace == Events(ideal)
    ensures |r.trace| <= |ideal| + 1
  {
    var exhausted := |ideal| - 2;
    var k := FirstFault(faults, 0, |ideal|);
    if k < exhausted then Raise(ideal[..k + 1], faults[k], ideal[k].clock, target)
    else if iteratorFault.Some? then Raise(ideal[..exhausted], iteratorFault.value, lastSeen, target)
    else if k < |ideal| then Raise(ideal[..k + 1], faults[k], ideal[k].clock, target)
    else Run(Events(ideal), Returned)
  }

  /** What a run does: the ideal actions of the solver's states, cut at the first failure. */
  function Outcome(steps: seq<Step>, iteratorFault: Option<Exception>,
                   faults: map<nat, Exception>, target: real): (r: Run)
    ensures r.result.Returned? ==> r.trace == Events(Ideal(steps, target))
    ensures |r.trace| <= |Ideal(steps, target)| + 1
  {
    Cut(Ideal(steps, target), LastSeenTime(steps), iteratorFault, faults, target)
  }

  /** How each way of ending a run is cut out of the ideal actions. */
  lemma CutAtFault(ideal: seq<Action>, lastSeen: real, iteratorFault: Option<Exception>,
                   faults: map<nat, Exception>, target: real, n: nat)
    requires 2 <= |ideal| && 0 < n <= |ideal|
    requires NoFaultBelow(faults, n - 1) && n - 1 in faults
    requires n > |ideal| - 2 ==> iteratorFault.None?
    ensures Cut(ideal, lastSeen, iteratorFault, faults, target)
            == Raise(ideal[..n], faults[n - 1], ideal[n - 1].clock, target)
  {
    var k := FirstFault(faults, 0, |ideal|);
    assert k == n - 1;
  }

  lemma CutAtIterator(ideal: seq<Action>, lastSeen: real, iteratorFault: Option<Exception>,
                      faults: map<nat, Exception>, target: real)
    requires 2 <= |ideal| && NoFaultBelow(faults, |ideal| - 2) && iteratorFault.Some?
    ensures Cut(ideal, lastSeen, iteratorFault, faults, target)
            == Raise(ideal[..|ideal| - 2], iteratorFault.value, lastSeen, target)
  {
  }

  lemma CutNormally(ideal: seq<Action>, lastSeen: real, iteratorFault: Option<Exception>,
                    faults: map<nat, Exception>, target: real)
    requires 2 <= |ideal| && NoFaultBelow(faults, |ideal|) && iteratorFault.None?
    ensures Cut(ideal, lastSeen, iteratorFault, faults, target) == Run(Events(ideal), Returned)
  {
  }

  /** The events of `trace` are those of the first actions of `ideal`. */
  ghost predicate Follows(trace: seq<Event>, ideal: seq<Action>)
  {
    |trace| <= |ideal| && forall j :: 0 <= j < |trace| ==> trace[j] == ideal[j].event
  }

  lemma FollowsEvents(trace: seq<Event>, ideal: seq<Action>)
    requires Follows(trace, ideal)
    ensures trace == Events(ideal[..|trace|])
  {
  }

  // ---------------------------------------------------------------------------
  // The task
  // ---------------------------------------------------------------------------

  /**
   * The checkpoint branch of the loop: render the state, upload the rendering
   * under the checkpoint's name, report progress. The first action that raises
   * ends the branch.
   */
  method TakeCheckpoint(ghost ideal: seq<Action>, trace: seq<Event>, faults: map<nat, Exception>,
                        timeStep: nat, c: Checkpoint, target: real)
    returns (after: seq<Event>, failure: Option<Exception>)
    requires |trace| + 3 <= |ideal| && Follows(trace, ideal) && NoFaultBelow(faults, |trace|)
    requires forall j :: 0 <= j < 3 ==> ideal[|trace| + j] == CheckpointActions(timeStep, c, target)[j]
    ensures |trace| < |after| <= |trace| + 3 && Follows(after, ideal)
    ensures failure.None? ==> |after| == |trace| + 3 && NoFaultBelow(faults, |after|)
    ensures failure.Some? ==>
      && NoFaultBelow(faults, |after| - 1)
      && Reply(faults, |after| - 1) == failure
      && ideal[|after| - 1].clock == c.time
  {
    ghost var n := |trace|;
    ghost var acts := CheckpointActions(timeStep, c, target);
    assert ideal[n] == acts[0] && ideal[n + 1] == acts[1] && ideal[n + 2] == acts[2];
    after := trace + [Render(c.time)];
    failure := Reply(faults, |after| - 1);
    if failure.None? {
      after := after + [Upload(StepName(timeStep, c.final), c.time)];
      failure := Reply(faults, |after| - 1);
    }
    if failure.None? {
      after := after + [SetStatus(Running, c.time, target)];
      failure := Reply(faults, |after| - 1);
    }
  }

  lemma LoopActionsSnoc(cps: seq<Checkpoint>, c: Checkpoint, target: real)
    ensures LoopActions(cps + [c], target) == LoopActions(cps, target) + CheckpointActions(|cps|, c, target)
  {
    var next := cps + [c];
    assert next[..|next| - 1] == cps;
  }

  /** In the actions up to a new checkpoint, its three come right after those of the earlier ones. */
  lemma SnocAt(cps: seq<Checkpoint>, c: Checkpoint, target: real, m: nat)
    requires m < 3
    ensures |Head(target) + LoopActions(cps + [c], target)| == 2 + 3 * |cps| + 3
    ensures (Head(target) + LoopActions(cps + [c], target))[2 + 3 * |cps| + m]
            == CheckpointActions(|cps|, c, target)[m]
  {
    LoopActionsSnoc(cps, c, target);
  }

  lemma PrefixAt(whole: seq<Action>, p: seq<Action>, j: nat)
    requires |p| <= |whole| && whole[..|p|] == p && j < |p|
    ensures whole[j] == p[j]
  {
    assert whole[..|p|][j] == whole[j];
  }

  lemma FiringCheckpoints(steps: seq<Step>, i: nat)
    requires i < |steps|
    requires steps[i].time.Floor > LastCheckpointTime(Checkpoints(steps[..i])).Floor
    ensures Checkpoints(steps[..i + 1]) == Checkpoints(steps[..i]) + [Checkpoint(steps[i].time, steps[i].final)]
  {
    assert steps[..i + 1] == steps[..i] + [steps[i]];
    FiringStep(steps[..i], steps[i]);
  }

  /** The `i`-th state fires: the ideal actions that follow are its checkpoint's three. */
  lemma FiringActions(steps: seq<Step>, i: nat, target: real)
    requires i < |steps|
    requires steps[i].time.Floor > LastCheckpointTime(Checkpoints(steps[..i])).Floor
    ensures var cps := Checkpoints(steps[..i]);
      var c := Checkpoint(steps[i].time, steps[i].final);
      var ideal := Ideal(steps, target);
      && Checkpoints(steps[..i + 1]) == cps + [c]
      && 2 + 3 * |cps| + 3 <= |ideal| - 2
      && forall j :: 0 <= j < 3 ==> ideal[2 + 3 * |cps| + j] == CheckpointActions(|cps|, c, target)[j]
  {
    var cps := Checkpoints(steps[..i]);
    var c := Checkpoint(steps[i].time, steps[i].final);
    FiringCheckpoints(steps, i);
    IdealPrefix(steps, i + 1, target);
    var p := Head(target) + LoopActions(cps + [c], target);
    var ideal := Ideal(steps, target);
    forall j | 0 <= j < 3
      ensures ideal[2 + 3 * |cps| + j] == CheckpointActions(|cps|, c, target)[j]
    {
      SnocAt(cps, c, target, j);
      PrefixAt(ideal, p, 2 + 3 * |cps| + j);
    }
  }

  /** The `i`-th state does not fire: it adds no checkpoint. */
  lemma QuietActions(steps: seq<Step>, i: nat)
    requires i < |steps|
    requires steps[i].time.Floor <= LastCheckpointTime(Checkpoints(steps[..i])).Floor
    ensures Checkpoints(steps[..i + 1]) == Checkpoints(steps[..i])
  {
    assert steps[..i + 1] == steps[..i] + [steps[i]];
    QuietStep(steps[..i], steps[i]);
  }

  /** After all states, the loop's actions reach the `finalize` call. */
  lemma LoopLength(steps: seq<Step>, target: real)
    ensures 2 + 3 * |Checkpoints(steps)| == |Ideal(steps, target)| - 2
  {
  }

  /** The loop's state after the first `i` solver states, none of whose actions raised. */
  ghost predicate Going(steps: seq<Step>, faults: map<nat, Exception>, target: real, i: nat,
                        trace: seq<Event>, timeStep: nat, previousTime: real, currentTime: real)
  {
    && i <= |steps|
    && Follows(trace, Ideal(steps, target))
    && |trace| == 2 + 3 * |Checkpoints(steps[..i])|
    && timeStep == |Checkpoints(steps[..i])|
    && previousTime == LastCheckpointTime(Checkpoints(steps[..i]))
    && currentTime == LastSeenTime(steps[..i])
    && NoFaultBelow(faults, |trace|)
  }

  /** The loop's state once an action of a checkpoint raised. */
  ghost predicate Stopped(steps: seq<Step>, faults: map<nat, Exception>, target: real,
                          trace: seq<Event>, failure: Option<Exception>, currentTime: real)
  {
    && 2 <= |trace| <= |Ideal(steps, target)| - 2
    && Follows(trace, Ideal(steps, target))
    && NoFaultBelow(faults, |trace| - 1)
    && failure.Some? && Reply(faults, |trace| - 1) == failure
    && Ideal(steps, target)[|trace| - 1].clock == currentTime
  }

  /** One turn of the loop: consume the `i`-th state and checkpoint it if it fires. */
  method Advance(steps: seq<Step>, faults: map<nat, Exception>, target: real, i: nat,
                 trace: seq<Event>, timeStep: nat, previousTime: real)
    returns (trace': seq<Event>, failure: Option<Exception>, timeStep': nat, previousTime': real, currentTime: real)
    requires i < |steps|
    requires Going(steps, faults, target, i, trace, timeStep, previousTime, LastSeenTime(steps[..i]))
    ensures failure.None? ==> Going(steps, faults, target, i + 1, trace', timeStep', previousTime', currentTime)
    ensures failure.Some? ==> Stopped(steps, faults, target, trace', failure, currentTime)
  {
    assert steps[..i + 1][..i] == steps[..i];
    trace', failure, timeStep', previousTime' := trace, None, timeStep, previousTime;
    currentTime := steps[i].time;
    if currentTime.Floor > previousTime.Floor {
      var c := Checkpoint(currentTime, steps[i].final);
      FiringActions(steps, i, target);
      previousTime' := currentTime;
      trace', failure := TakeCheckpoint(Ideal(steps, target), trace, faults, timeStep, c, target);
      timeStep' := timeStep + 1;
    } else {
      QuietActions(steps, i);
    }
  }

  /**
   * The loop over the solver's states, from just after the initial running
   * report to the exhaustion of the iterator or the first action that raises.
   */
  method CheckpointLoop(steps: seq<Step>, faults: map<nat, Exception>, target: real, start: seq<Event>)
    returns (trace: seq<Event>, failure: Option<Exception>, currentTime: real)
    requires |start| == 2 && Follows(start, Ideal(steps, target)) && NoFaultBelow(faults, 2)
    ensures failure.None? ==>
      && Follows(trace, Ideal(steps, target))
      && |trace| == |Ideal(steps, target)| - 2
      && NoFaultBelow(faults, |trace|)
      && currentTime == LastSeenTime(steps)
    ensures failure.Some? ==> Stopped(steps, faults, target, trace, failure, currentTime)
  {
    trace := start;
    failure := None;
    currentTime := 0.0;
    var timeStep := 0;
    var previousTime := 0.0;
    var i := 0;
    assert steps[..0] == [];
    while i < |steps| && failure.None?
      invariant 0 <= i <= |steps|
      invariant failure.None? ==> Going(steps, faults, target, i, trace, timeStep, previousTime, currentTime)
      invariant failure.Some? ==> Stopped(steps, faults, target, trace, failure, currentTime)
    {
      trace, failure, timeStep, previousTime, currentTime :=
        Advance(steps, faults, target, i, trace, timeStep, previousTime);
      i := i + 1;
    }
    if failure.None? {
      assert steps[..i] == steps;
      LoopLength(steps, target);
    }
  }

  /**
   * The state once the run stopped making actions: every action succeeded, the
   * iterator raised after the loop, or the last action attempted raised.
   */
  ghost predicate Ended(steps: seq<Step>, iteratorFault: Option<Exception>, faults: map<nat, Exception>,
                        target: real, trace: seq<Event>, failure: Option<Exception>,
                        currentTime: real, byIterator: bool)
  {
    var ideal := Ideal(steps, target);
    && Follows(trace, ideal)
    && (failure.None? ==> |trace| == |ideal| && NoFaultBelow(faults, |trace|) && iteratorFault.None?)
    && (failure.Some? && byIterator ==>
          && |trace| == |ideal| - 2 && NoFaultBelow(faults, |trace|)
          && failure == iteratorFault && currentTime == LastSeenTime(steps))
    && (failure.Some? && !byIterator ==>
          && 0 < |trace| && NoFaultBelow(faults, |trace| - 1)
          && Reply(faults, |trace| - 1) == failure
          && ideal[|trace| - 1].clock == currentTime
          && (|trace| > |ideal| - 2 ==> iteratorFault.None?))
  }

  /** How a run that `Ended` finishes: it returns, or reports ERROR when it should and re-raises. */
  lemma EndedOutcome(steps: seq<Step>, iteratorFault: Option<Exception>, faults: map<nat, Exception>,
                     target: real, trace: seq<Event>, failure: Option<Exception>,
                     currentTime: real, byIterator: bool)
    requires Ended(steps, iteratorFault, faults, target, trace, failure, currentTime, byIterator)
    ensures failure.None? ==> Outcome(steps, iteratorFault, faults, target) == Run(trace, Returned)
    ensures failure.Some? ==>
              Outcome(steps, iteratorFault, faults, target) ==
              Run(trace + (if failure.value == OtherError then [SetStatus(Error, currentTime, target)] else []),
                  Raised(failure.value))
  {
    var ideal := Ideal(steps, target);
    var lastSeen := LastSeenTime(steps);
    assert Outcome(steps, iteratorFault, faults, target) == Cut(ideal, lastSeen, iteratorFault, faults, target);
    FollowsEvents(trace, ideal);
    if failure.None? {
      CutNormally(ideal, lastSeen, iteratorFault, faults, target);
    } else if byIterator {
      CutAtIterator(ideal, lastSeen, iteratorFault, faults, target);
    } else {
      CutAtFault(ideal, lastSeen, iteratorFault, faults, target, |trace|);
    }
  }

  /** Before the loop: initialise the run in Girder, then report RUNNING at time 0. */
  method Start(steps: seq<Step>, iteratorFault: Option<Exception>, faults: map<nat, Exception>, target: real)
    returns (trace: seq<Event>, failure: Option<Exception>)
    ensures failure.None? ==> |trace| == 2 && Follows(trace, Ideal(steps, target)) && NoFaultBelow(faults, 2)
    ensures failure.Some? ==> Ended(steps, iteratorFault, faults, target, trace, failure, 0.0, false)
  {
    ghost var ideal := Ideal(steps, target);
    assert ideal[0] == Action(Initialize, 0.0);
    assert ideal[1] == Action(SetStatus(Running, 0.0, target), 0.0);
    LoopLength(steps, target);
    trace := [Initialize];
    failure := Reply(faults, 0);
    if failure.None? {
      trace := trace + [SetStatus(Running, 0.0, target)];
      failure := Reply(faults, 1);
    }
  }

  lemma StoppedEnded(steps: seq<Step>, iteratorFault: Option<Exception>, faults: map<nat, Exception>,
                     target: real, trace: seq<Event>, failure: Option<Exception>, currentTime: real)
    requires Stopped(steps, faults, target, trace, failure, currentTime)
    ensures Ended(steps, iteratorFault, faults, target, trace, failure, currentTime, false)
  {
  }

  /** Making the next ideal action keeps the trace on the ideal run. */
  lemma FollowsSnoc(trace: seq<Event>, ideal: seq<Action>, e: Event)
    requires Follows(trace, ideal) && |trace| < |ideal| && ideal[|trace|].event == e
    ensures Follows(trace + [e], ideal)
  {
  }

  /** The calls after an exhausted iterator, `finalize` and then SUCCESS, end the run. */
  lemma FinalizeEnded(steps: seq<Step>, faults: map<nat, Exception>, target: real,
                      trace: seq<Event>, trace': seq<Event>, failure: Option<Exception>, currentTime: real)
    requires Follows(trace, Ideal(steps, target)) && |trace| == |Ideal(steps, target)| - 2
    requires NoFaultBelow(faults, |trace|) && currentTime == LastSeenTime(steps)
    requires || (trace' == trace + [Finalize] && failure.Some? && failure == Reply(faults, |trace|))
             || (&& trace' == trace + [Finalize] + [SetStatus(Success, target, target)]
                 && Reply(faults, |trace|).None? && failure == Reply(faults, |trace| + 1))
    ensures Ended(steps, None, faults, target, trace', failure, currentTime, false)
  {
    var ideal := Ideal(steps, target);
    var n := |trace|;
    assert ideal[n] == Action(Finalize, currentTime);
    assert ideal[n + 1] == Action(SetStatus(Success, target, target), currentTime);
    FollowsSnoc(trace, ideal, Finalize);
    if |trace'| == n + 2 {
      FollowsSnoc(trace + [Finalize], ideal, SetStatus(Success, target, target));
    }
  }

  /** After the loop: the iterator's own exception, then `finalize` and the success report. */
  method Complete(steps: seq<Step>, iteratorFault: Option<Exception>, faults: map<nat, Exception>,
                  target: real, trace: seq<Event>, currentTime: real)
    returns (trace': seq<Event>, failure: Option<Exception>, ghost byIterator: bool)
    requires Follows(trace, Ideal(steps, target)) && |trace| == |Ideal(steps, target)| - 2
    requires NoFaultBelow(faults, |trace|) && currentTime == LastSeenTime(steps)
    ensures Ended(steps, iteratorFault, faults, target, trace', failure, currentTime, byIterator)
    // an exception from the iterator comes before either call
    ensures iteratorFault.Some? ==> trace' == trace && failure == iteratorFault
    // otherwise `finalize`, then SUCCESS with (target, target) unless `finalize` raised
    ensures iteratorFault.None? ==>
      && |trace| < |trace'| <= |trace| + 2
      && trace'[..|trace|] == trace && trace'[|trace|] == Finalize
    ensures iteratorFault.None? && |trace'| == |trace| + 1 ==> failure.Some? && failure == Reply(faults, |trace|)
    ensures iteratorFault.None? && |trace'| == |trace| + 2 ==>
      trace'[|trace| + 1] == SetStatus(Success, target, target) && failure == Reply(faults, |trace| + 1)
  {
    trace', failure, byIterator := trace, iteratorFault, iteratorFault.Some?;
    if failure.None? {
      trace' := trace + [Finalize];
      failure := Reply(faults, |trace|);
      if failure.None? {
        trace' := trace' + [SetStatus(Success, target, target)];
        failure := Reply(faults, |trace| + 1);
      }
      FinalizeEnded(steps, faults, target, trace, trace', failure, currentTime);
    }
  }

  /**
   * Runs the simulation: `steps` are the states the solver yields before it
   * stops, or before it raises `iteratorFault`; `faults` says which actions,
   * by their position in the trace, raise.
   */
  method RunSimulation(steps: seq<Step>, iteratorFault: Option<Exception>,
                       faults: map<nat, Exception>, target: real)
    returns (trace: seq<Event>, result: RunResult)
    ensures Run(trace, result) == Outcome(steps, iteratorFault, faults, target)
  {
    ghost var byIterator := false;
    var currentTime := 0.0;
    var failure: Option<Exception>;
    trace, failure := Start(steps, iteratorFault, faults, target);
    if failure.None? {
      trace, failure, currentTime := CheckpointLoop(steps, faults, target, trace);
      if failure.None? {
        trace, failure, byIterator := Complete(steps, iteratorFault, faults, target, trace, currentTime);
      } else {
        StoppedEnded(steps, iteratorFault, faults, target, trace, failure, currentTime);
      }
    }

    EndedOutcome(steps, iteratorFault, faults, target, trace, failure, currentTime, byIterator);
    if failure.None? {
      result := Returned;
    } else {
      if failure.value == OtherError {
        // the ERROR report is attempted; an exception it raises is logged and dropped
        trace := trace + [SetStatus(Error, currentTime, target)];
      }
      result := Raised(failure.value);
    }
  }

  // ---------------------------------------------------------------------------
  // What a run promises
  // ---------------------------------------------------------------------------

  predicate IsErrorReport(e: Event)
  {
    e.SetStatus? && e.status == Error
  }

  /** No action of a run without failures reports ERROR. */
  lemma {:induction false} LoopActionsReportNoError(cps: seq<Checkpoint>, target: real)
    ensures forall j :: 0 <= j < |LoopActions(cps, target)| ==> !IsErrorReport(LoopActions(cps, target)[j].event)
  {
    if cps != [] {
      LoopActionsReportNoError(cps[..|cps| - 1], target);
    }
  }

  lemma IdealReportsNoError(steps: seq<Step>, target: real)
    ensures forall j :: 0 <= j < |Ideal(steps, target)| ==> !IsErrorReport(Ideal(steps, target)[j].event)
  {
    var loop := LoopActions(Checkpoints(steps), target);
    LoopActionsReportNoError(Checkpoints(steps), target);
    var ideal := Ideal(steps, target);
    forall j | 0 <= j < |ideal|
      ensures !IsErrorReport(ideal[j].event)
    {
      if 2 <= j < 2 + |loop| {
        assert ideal[j] == loop[j - 2];
      }
    }
  }

  lemma EventsPrefix(actions: seq<Action>, n: nat)
    requires n <= |actions|
    ensures Events(actions[..n]) == Events(actions)[..n]
  {
  }

  /** A cut run starts with the first ideal action, and, unless it raises, the second. */
  lemma CutStarts(ideal: seq<Action>, lastSeen: real, iteratorFault: Option<Exception>,
                  faults: map<nat, Exception>, target: real)
    requires |ideal| >= 4
    ensures var r := Cut(ideal, lastSeen, iteratorFault, faults, target);
      && |r.trace| >= 1 && r.trace[0] == ideal[0].event
      && (0 !in faults ==> |r.trace| >= 2 && r.trace[1] == ideal[1].event)
  {
    var k := FirstFault(faults, 0, |ideal|);
    if k == 0 {
      assert 0 in faults;
    }
  }

  /**
   * The run starts by initialising the simulation in Girder; unless that
   * raises, it next reports RUNNING with progress (0, target).
   */
  lemma RunStartsWithInitialize(steps: seq<Step>, iteratorFault: Option<Exception>,
                                faults: map<nat, Exception>, target: real)
    ensures var r := Outcome(steps, iteratorFault, faults, target);
      && |r.trace| >= 1 && r.trace[0] == Initialize
      && (0 !in faults ==> |r.trace| >= 2 && r.trace[1] == SetStatus(Running, 0.0, target))
  {
    var ideal := Ideal(steps, target);
    assert ideal[0] == Action(Initialize, 0.0);
    assert ideal[1] == Action(SetStatus(Running, 0.0, target), 0.0);
    CutStarts(ideal, LastSeenTime(steps), iteratorFault, faults, target);
  }

  /**
   * A cut run that raises made the ideal actions before `cut`, then, for an
   * exception other than HttpError, the ERROR report at `clock`: the time of
   * the last action made, or `lastSeen` when the iterator raised.
   */
  lemma CutRaisedAt(ideal: seq<Action>, lastSeen: real, iteratorFault: Option<Exception>,
                    faults: map<nat, Exception>, target: real)
    returns (cut: nat, clock: real)
    requires |ideal| >= 2 && Cut(ideal, lastSeen, iteratorFault, faults, target).result.Raised?
    ensures cut <= |ideal|
    ensures || (0 < cut && clock == ideal[cut - 1].clock && (cut > |ideal| - 2 ==> iteratorFault.None?))
            || (iteratorFault.Some? && cut == |ideal| - 2 && clock == lastSeen)
    ensures var r := Cut(ideal, lastSeen, iteratorFault, faults, target);
      r == Raise(ideal[..cut], r.result.exception, clock, target)
  {
    var k := FirstFault(faults, 0, |ideal|);
    if k < |ideal| - 2 || (iteratorFault.None? && k < |ideal|) {
      cut, clock := k + 1, ideal[k].clock;
    } else {
      cut, clock := |ideal| - 2, lastSeen;
    }
  }

  /** A cut run returns exactly when nothing raises, after all its ideal actions. */
  lemma CutReturns(ideal: seq<Action>, lastSeen: real, iteratorFault: Option<Exception>,
                   faults: map<nat, Exception>, target: real)
    requires |ideal| >= 2
    ensures var r := Cut(ideal, lastSeen, iteratorFault, faults, target);
      && (r.result.Returned? <==> iteratorFault.None? && NoFaultBelow(faults, |ideal|))
      && (r.result.Returned? ==> r.trace == Events(ideal))
  {
    var k := FirstFault(faults, 0, |ideal|);
    if k < |ideal| {
      assert k in faults;
    }
  }

  /**
   * The task returns exactly when neither the solver nor any action raises;
   * it then made every action of the ideal run, the last two being `finalize`
   * and SUCCESS with progress (target, target).
   */
  lemma RunReturns(steps: seq<Step>, iteratorFault: Option<Exception>,
                   faults: map<nat, Exception>, target: real)
    ensures var r := Outcome(steps, iteratorFault, faults, target);
      r.result.Returned? <==> iteratorFault.None? && NoFaultBelow(faults, |Ideal(steps, target)|)
    ensures var r := Outcome(steps, iteratorFault, faults, target);
      r.result.Returned? ==>
        && r.trace == Events(Ideal(steps, target))
        && r.trace[|r.trace| - 2..] == [Finalize, SetStatus(Success, target, target)]
  {
    var ideal := Ideal(steps, target);
    CutReturns(ideal, LastSeenTime(steps), iteratorFault, faults, target);
    var events := Events(ideal);
    assert events[|events| - 2] == Finalize;
    assert events[|events| - 1] == SetStatus(Success, target, target);
  }

  /** Raising after a prefix of `whole` leaves that prefix, and then the ERROR report if one is due. */
  lemma RaiseAfterPrefix(whole: seq<Action>, cut: nat, e: Exception, clock: real, target: real)
    requires cut <= |whole|
    ensures var r := Raise(whole[..cut], e, clock, target);
      && (e == HttpError ==> r.trace <= Events(whole))
      && (e == OtherError ==>
            && |r.trace| == cut + 1
            && r.trace[..cut] <= Events(whole)
            && r.trace[cut] == SetStatus(Error, clock, target))
  {
    EventsPrefix(whole, cut);
    var r := Raise(whole[..cut], e, clock, target);
    if e == OtherError {
      assert r.trace[..cut] == Events(whole[..cut]);
    }
  }

  /**
   * A run (any cut of ideal actions, `Outcome` among them) that raises an
   * HttpError made a prefix of the ideal actions and nothing more; one that
   * raises any other exception made such a prefix followed by one ERROR
   * report whose total is the target.
   */
  lemma RunRaises(ideal: seq<Action>, lastSeen: real, iteratorFault: Option<Exception>,
                  faults: map<nat, Exception>, target: real)
    requires |ideal| >= 2
    ensures var r := Cut(ideal, lastSeen, iteratorFault, faults, target);
      r.result == Raised(HttpError) ==> r.trace <= Events(ideal)
    ensures var r := Cut(ideal, lastSeen, iteratorFault, faults, target);
      r.result == Raised(OtherError) ==>
        && |r.trace| >= 1
        && r.trace[..|r.trace| - 1] <= Events(ideal)
        && IsErrorReport(r.trace[|r.trace| - 1])
        && r.trace[|r.trace| - 1].total == target
  {
    var r := Cut(ideal, lastSeen, iteratorFault, faults, target);
    if r.result.Raised? {
      var cut, clock := CutRaisedAt(ideal, lastSeen, iteratorFault, faults, target);
      RaiseAfterPrefix(ideal, cut, r.result.exception, clock, target);
    }
  }

  /** A run that ends in an HttpError never reports ERROR. */
  lemma HttpErrorNotReported(steps: seq<Step>, iteratorFault: Option<Exception>,
                             faults: map<nat, Exception>, target: real)
    ensures var r := Outcome(steps, iteratorFault, faults, target);
      r.result == Raised(HttpError) ==> forall j :: 0 <= j < |r.trace| ==> !IsErrorReport(r.trace[j])
  {
    var r := Outcome(steps, iteratorFault, faults, target);
    var events := Events(Ideal(steps, target));
    RunRaises(Ideal(steps, target), LastSeenTime(steps), iteratorFault, faults, target);
    IdealReportsNoError(steps, target);
    if r.result == Raised(HttpError) {
      forall j | 0 <= j < |r.trace|
        ensures !IsErrorReport(r.trace[j])
      {
        assert r.trace[j] == events[j];
      }
    }
  }

  /** When two fault maps agree below `m`, their first faults agree as far as `m`. */
  lemma {:induction false} FirstFaultAgree(f: map<nat, Exception>, g: map<nat, Exception>,
                                           from: nat, upto: nat, m: nat)
    requires from <= m <= upto
    requires forall j :: from <= j < m ==> (j in f <==> j in g)
    ensures FirstFault(f, from, upto) < m <==> FirstFault(g, from, upto) < m
    ensures FirstFault(f, from, upto) < m ==> FirstFault(f, from, upto) == FirstFault(g, from, upto)
    decreases upto - from
  {
    if from < m && from !in f {
      FirstFaultAgree(f, g, from + 1, upto, m);
    }
  }

  /**
   * The exception raised by the attempt to report ERROR is swallowed: a run
   * (any cut of ideal actions, `Outcome` among them) that reports ERROR ends
   * the same way whatever happens at the position of that report or later.
   */
  lemma ErrorReportFailureSwallowed(ideal: seq<Action>, lastSeen: real, iteratorFault: Option<Exception>,
                                    faults: map<nat, Exception>, g: map<nat, Exception>, target: real)
    requires |ideal| >= 2 && Cut(ideal, lastSeen, iteratorFault, faults, target).result == Raised(OtherError)
    requires var n := |Cut(ideal, lastSeen, iteratorFault, faults, target).trace| - 1;
      forall j :: 0 <= j < n ==> Reply(g, j) == Reply(faults, j)
    ensures Cut(ideal, lastSeen, iteratorFault, g, target) == Cut(ideal, lastSeen, iteratorFault, faults, target)
  {
    var r := Cut(ideal, lastSeen, iteratorFault, faults, target);
    var n := |r.trace| - 1;
    var k := FirstFault(faults, 0, |ideal|);
    var cut, clock := CutRaisedAt(ideal, lastSeen, iteratorFault, faults, target);
    assert n == cut;
    forall j | 0 <= j < n
      ensures j in faults <==> j in g
    {
      assert Reply(g, j) == Reply(faults, j);
    }
    FirstFaultAgree(faults, g, 0, |ideal|, n);
    if k < n {
      assert Reply(g, k) == Reply(faults, k);
    }
  }

  /** Every checkpoint action happens at the time of its checkpoint. */
  lemma {:induction false} LoopClocks(cps: seq<Checkpoint>, target: real)
    ensures forall j :: 0 <= j < |LoopActions(cps, target)| ==>
      exists m :: 0 <= m < |cps| && LoopActions(cps, target)[j].clock == cps[m].time
  {
    if cps == [] {
      assert |LoopActions(cps, target)| == 0;
    } else {
      var init := cps[..|cps| - 1];
      LoopClocks(init, target);
      var r := LoopActions(cps, target);
      forall j | 0 <= j < |r|
        ensures exists m :: 0 <= m < |cps| && r[j].clock == cps[m].time
      {
        var c := cps[|cps| - 1];
        assert r == LoopActions(init, target) + CheckpointActions(|cps| - 1, c, target);
        if j < |LoopActions(init, target)| {
          var m :| 0 <= m < |init| && LoopActions(init, target)[j].clock == init[m].time;
          assert r[j] == LoopActions(init, target)[j];
          assert cps[m] == init[m];
          assert r[j].clock == cps[m].time;
        } else {
          var last := |cps| - 1;
          assert r[j].clock == cps[last].time;
        }
      }
    }
  }

  /** Every action of a run happens at time 0 or at the time of one of the solver's states. */
  lemma IdealClocks(steps: seq<Step>, target: real)
    ensures forall j :: 0 <= j < |Ideal(steps, target)| ==>
      Ideal(steps, target)[j].clock == 0.0 || exists i :: 0 <= i < |steps| && steps[i].time == Ideal(steps, target)[j].clock
  {
    var cps := Checkpoints(steps);
    var loop := LoopActions(cps, target);
    var ideal := Ideal(steps, target);
    LoopClocks(cps, target);
    CheckpointsFromSteps(steps);
    forall j | 0 <= j < |ideal|
      ensures ideal[j].clock == 0.0 || exists i :: 0 <= i < |steps| && steps[i].time == ideal[j].clock
    {
      if 2 <= j < 2 + |loop| {
        assert ideal[j] == loop[j - 2];
        var m :| 0 <= m < |cps| && loop[j - 2].clock == cps[m].time;
        assert Step(cps[m].time, cps[m].final) in steps;
      } else if j >= 2 + |loop| && steps != [] {
        assert ideal[j].clock == steps[|steps| - 1].time;
      }
    }
  }

  /**
   * The ERROR report carries, as its current time, 0 or the time of a state
   * the solver yielded.
   */
  lemma ErrorReportTime(steps: seq<Step>, iteratorFault: Option<Exception>,
                        faults: map<nat, Exception>, target: real)
    ensures var r := Outcome(steps, iteratorFault, faults, target);
      r.result == Raised(OtherError) ==>
        var t := r.trace[|r.trace| - 1].current;
        t == 0.0 || exists i :: 0 <= i < |steps| && steps[i].time == t
  {
    var ideal := Ideal(steps, target);
    var r := Cut(ideal, LastSeenTime(steps), iteratorFault, faults, target);
    if r.result == Raised(OtherError) {
      var cut, clock := CutRaisedAt(ideal, LastSeenTime(steps), iteratorFault, faults, target);
      IdealClocks(steps, target);
      if steps != [] {
        assert LastSeenTime(steps) == steps[|steps| - 1].time;
      }
      if 0 < cut && clock == ideal[cut - 1].clock {
        assert ideal[cut - 1].clock == 0.0 || exists i :: 0 <= i < |steps| && steps[i].time == ideal[cut - 1].clock;
      }
    }
  }
}
