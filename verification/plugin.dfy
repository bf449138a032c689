/**
 * The job-update handler: a job update refreshes its simulation's progress and
 * status and, when the simulation belongs to an experiment, the experiment's
 * per-simulation maps and the progress and status derived from them.
 */
module Plugin {
  import opened Wrappers
  import opened Records
  import Models

  /** The job type the plugin's route gives simulation jobs. */
  const NliJobType: string := "nli_simulation"

  /** The parts of a job document the handler reads. */
  datatype Job = Job(
    jobType: string,
    simulationId: Option<Id>,
    inExperiment: bool,
    experimentId: Option<Id>,
    status: Status,
    current: real,
    total: real)

  /** An exception the handler lets escape. */
  datatype UpdateError =
    | ZeroDivision       // progress total is 0
    | ExperimentMissing  // the experiment id does not load

  datatype Outcome =
    | Ignored                               // not a simulation job
    | SimulationMissing                     // logged, nothing saved
    | Updated(experimentUpdated: bool)
    | Raised(error: UpdateError)

  // ---------------------------------------------------------------------------
  // Experiment progress: the mean of the per-simulation progress map
  // ---------------------------------------------------------------------------

  /** Sum of the values of `m` at the keys `ks`. */
  ghost function SumOf(m: map<Id, real>, ks: set<Id>): real
    requires ks <= m.Keys
    decreases ks
  {
    if ks == {} then 0.0
    else
      var k :| k in ks;
      m[k] + SumOf(m, ks - {k})
  }

  /** The sum does not depend on which key is taken out first. */
  lemma {:induction false} SumOfRemove(m: map<Id, real>, ks: set<Id>, k: Id)
    requires ks <= m.Keys && k in ks
    ensures SumOf(m, ks) == m[k] + SumOf(m, ks - {k})
    decreases ks
  {
    var j :| j in ks && SumOf(m, ks) == m[j] + SumOf(m, ks - {j});
    if j != k {
      SumOfRemove(m, ks - {j}, k);
      SumOfRemove(m, ks - {k}, j);
      assert ks - {j} - {k} == ks - {k} - {j};
    }
  }

  /** Mean of the values of a non-empty map, as `sum(values) / len(map)`. */
  ghost function Mean(m: map<Id, real>): real
    requires |m| > 0
  {
    SumOf(m, m.Keys) / (|m| as real)
  }

  /** Computes the mean by summing the values one key at a time. */
  method MeanOf(m: map<Id, real>) returns (mean: real)
    requires |m| > 0
    ensures mean == Mean(m)
  {
    var total := 0.0;
    var rest := m.Keys;
    while rest != {}
      invariant rest <= m.Keys
      invariant total + SumOf(m, rest) == SumOf(m, m.Keys)
      decreases rest
    {
      var k :| k in rest;
      SumOfRemove(m, rest, k);
      total := total + m[k];
      rest := rest - {k};
    }
    mean := total / (|m| as real);
  }

  /** `n` copies of `x` added up. */
  ghost function Times(x: real, n: nat): real
  {
    if n == 0 then 0.0 else Times(x, n - 1) + x
  }

  lemma {:induction false} TimesIsProduct(x: real, n: nat)
    ensures Times(x, n) == x * (n as real)
  {
    if n > 0 {
      TimesIsProduct(x, n - 1);
      assert x * (n as real) == x * ((n - 1) as real) + x;
    }
  }

  /** A sum of values each at least `lo` is at least `lo` times their number. */
  lemma {:induction false} SumOfAtLeast(m: map<Id, real>, ks: set<Id>, lo: real)
    requires ks <= m.Keys && forall k :: k in ks ==> lo <= m[k]
    ensures Times(lo, |ks|) <= SumOf(m, ks)
    decreases ks
  {
    if ks != {} {
      var k :| k in ks;
      var rest := ks - {k};
      SumOfRemove(m, ks, k);
      SumOfAtLeast(m, rest, lo);
      assert Times(lo, |ks|) == Times(lo, |rest|) + lo;
    }
  }

  /** A sum of values each at most `hi` is at most `hi` times their number. */
  lemma {:induction false} SumOfAtMost(m: map<Id, real>, ks: set<Id>, hi: real)
    requires ks <= m.Keys && forall k :: k in ks ==> m[k] <= hi
    ensures SumOf(m, ks) <= Times(hi, |ks|)
    decreases ks
  {
    if ks != {} {
      var k :| k in ks;
      var rest := ks - {k};
      SumOfRemove(m, ks, k);
      SumOfAtMost(m, rest, hi);
      assert Times(hi, |ks|) == Times(hi, |rest|) + hi;
    }
  }

  /** A quotient by a positive count lies between the bounds its dividend lies between, scaled. */
  lemma QuotientWithin(s: real, n: real, lo: real, hi: real)
    requires n > 0.0 && lo * n <= s <= hi * n
    ensures lo <= s / n <= hi
  {
    var q := s / n;
    assert q * n == s;
    assert (q - lo) * n == s - lo * n;
    assert (hi - q) * n == hi * n - s;
  }

  /** When every simulation's progress lies in [lo, hi], so does the mean. */
  lemma MeanWithin(m: map<Id, real>, lo: real, hi: real)
    requires |m| > 0 && forall k :: k in m ==> lo <= m[k] <= hi
    ensures lo <= Mean(m) <= hi
  {
    SumOfAtLeast(m, m.Keys, lo);
    SumOfAtMost(m, m.Keys, hi);
    assert |m.Keys| == |m|;
    TimesIsProduct(lo, |m|);
    TimesIsProduct(hi, |m|);
    QuotientWithin(SumOf(m, m.Keys), |m| as real, lo, hi);
  }

  /** The mean of the progress values 20, 60 and 100 is 60. */
  lemma MeanExample()
    ensures Mean(map["a" := 20.0, "b" := 60.0, "c" := 100.0]) == 60.0
  {
    var m := map["a" := 20.0, "b" := 60.0, "c" := 100.0];
    var abc: set<Id> := {"a", "b", "c"};
    var bc: set<Id> := {"b", "c"};
    var c: set<Id> := {"c"};
    assert m.Keys == abc;
    assert abc - {"a"} == bc;
    assert bc - {"b"} == c;
    assert c - {"c"} == {};
    SumOfRemove(m, abc, "a");
    SumOfRemove(m, bc, "b");
    SumOfRemove(m, c, "c");
    assert |m| == |abc| == 3;
  }

  // ---------------------------------------------------------------------------
  // Experiment status: strict precedence over the per-simulation statuses
  // ---------------------------------------------------------------------------

  /** Position in the precedence order, highest precedence first. */
  function Precedence(s: Status): nat
  {
    match s
    case Error => 0
    case Canceled => 1
    case Inactive => 2
    case Queued => 3
    case Running => 4
    case Success => 5
  }

  /**
   * The experiment status derived from its simulations' statuses: any error,
   * else any cancellation, else any inactive, else any queued, else any
   * running, else success.
   */
  function ExperimentStatus(perSim: map<Id, Status>): (r: Status)
    ensures perSim != map[] ==>
      r in perSim.Values && forall v :: v in perSim.Values ==> Precedence(r) <= Precedence(v)
    ensures perSim == map[] ==> r == Success
  {
    var statuses := perSim.Values;
    if Error in statuses then Error
    else if Canceled in statuses then Canceled
    else if Inactive in statuses then Inactive
    else if Queued in statuses then Queued
    else if Running in statuses then Running
    else
      assert perSim != map[] ==> Success in statuses by {
        if perSim != map[] {
          var k :| k in perSim;
          assert perSim[k] in statuses;
          assert perSim[k] == Success;
        }
      }
      Success
  }

  /** The experiment is in error exactly when some simulation is. */
  lemma ErrorIffSomeError(perSim: map<Id, Status>)
    ensures ExperimentStatus(perSim) == Error <==> exists k :: k in perSim && perSim[k] == Error
  {
    if ExperimentStatus(perSim) == Error {
      var k :| k in perSim && perSim[k] == Error;
    }
  }

  /** The experiment succeeds exactly when every simulation has succeeded. */
  lemma SuccessIffAllSuccess(perSim: map<Id, Status>)
    ensures ExperimentStatus(perSim) == Success <==> forall k :: k in perSim ==> perSim[k] == Success
  {
    if ExperimentStatus(perSim) == Success {
      forall k | k in perSim ensures perSim[k] == Success {
        assert perSim[k] in perSim.Values;
      }
    }
  }

  /** Only the set of statuses matters, not which simulation holds which. */
  lemma StatusDependsOnlyOnValues(a: map<Id, Status>, b: map<Id, Status>)
    requires a.Values == b.Values
    ensures ExperimentStatus(a) == ExperimentStatus(b)
  {
  }

  lemma PairValues(a: Id, b: Id, x: Status, y: Status)
    requires a != b
    ensures map[a := x, b := y].Values == {x, y}
  {
    var m := map[a := x, b := y];
    assert m[a] == x && m[b] == y;
    forall v | v in m.Values ensures v in {x, y} {
      var k :| k in m && m[k] == v;
    }
  }

  /** The precedence examples: running beats success, error beats all, canceled beats queued. */
  lemma StatusExamples()
    ensures ExperimentStatus(map["a" := Running, "b" := Success]) == Running
    ensures ExperimentStatus(map["a" := Error, "b" := Success]) == Error
    ensures ExperimentStatus(map["a" := Canceled, "b" := Queued]) == Canceled
    ensures ExperimentStatus(map["a" := Success, "b" := Success]) == Success
  {
    PairValues("a", "b", Running, Success);
    PairValues("a", "b", Error, Success);
    PairValues("a", "b", Canceled, Queued);
    PairValues("a", "b", Success, Success);
  }

  // ---------------------------------------------------------------------------
  // The handler
  // ---------------------------------------------------------------------------

  /** Simulation progress reported by a job: `100 * current / total`. */
  function JobProgress(job: Job): (progress: real)
    requires job.total != 0.0
    ensures job.current == job.total ==> progress == 100.0
    ensures 0.0 < job.total && 0.0 <= job.current <= job.total ==> 0.0 <= progress <= 100.0
  {
    100.0 * (job.current / job.total)
  }

  /** The simulation folder after the job's progress and status are written into it. */
  function WithJobUpdate(f: Folder, job: Job): (g: Folder)
    requires f.nli.Some? && job.total != 0.0
    ensures g.id == f.id && g.parentId == f.parentId && g.name == f.name && g.nli.Some?
    ensures var n, m := f.nli.value, g.nli.value;
      && m.progress == JobProgress(job) && m.status == job.status
      && m.complete == n.complete && m.config == n.config
      && m.author == n.author && m.archived == n.archived
  {
    f.(nli := Some(f.nli.value.(progress := JobProgress(job), status := job.status)))
  }

  /**
   * `Simulation().load(id)`: the folder saved under the id, looked up through
   * the model's own `findOne`, which adds the `nli.complete` filter, so only a
   * folder with an `nli` record loads.
   */
  function LoadSimulation(simulations: map<Id, Folder>, id: Option<Id>): (r: Option<Folder>)
    ensures r.Some? <==> id.Some? && id.value in simulations && simulations[id.value].nli.Some?
    ensures r.Some? ==> r.value == simulations[id.value]
  {
    if id.Some? && id.value in simulations then
      var f := simulations[id.value];
      Models.FilterSelectsSimulations(None, f);
      assert Models.Matches(Models.Flatten(f), Models.QueryOrEmpty(None) - {Models.NliComplete});
      if Models.Matches(Models.Flatten(f), Models.Forwarded(None, false)) then Some(f) else None
    else None
  }

  /** The simulations and experiments as the handler loads and saves them. */
  class Store {
    var simulations: map<Id, Folder>
    var experiments: map<Id, ExperimentNli>

    constructor(simulations: map<Id, Folder>, experiments: map<Id, ExperimentNli>)
      ensures this.simulations == simulations && this.experiments == experiments
    {
      this.simulations := simulations;
      this.experiments := experiments;
    }

    /** True when the job names a simulation that loads. */
    predicate Loads(job: Job)
      reads this
    {
      LoadSimulation(simulations, job.simulationId).Some?
    }

    /** Handles one job-update event. */
    method UpdateStatus(job: Job) returns (outcome: Outcome)
      modifies this
      // a job of another type is ignored
      ensures job.jobType != NliJobType ==> outcome == Ignored
      // a simulation that cannot be loaded is logged and nothing is saved
      ensures job.jobType == NliJobType && !old(Loads(job)) ==> outcome == SimulationMissing
      // the errors raised before the simulation is saved
      ensures job.jobType == NliJobType && old(Loads(job)) && job.total == 0.0 ==>
        outcome == Raised(ZeroDivision)
      // a simulation that loads, with a non-zero total, is saved; then the experiment's turn
      ensures job.jobType == NliJobType && old(Loads(job)) && job.total != 0.0 ==>
        && (!job.inExperiment ==> outcome == Updated(false))
        && (job.inExperiment && job.experimentId.Some? && job.experimentId.value in old(experiments) ==>
              outcome == Updated(true))
        && (job.inExperiment && (job.experimentId.None? || job.experimentId.value !in old(experiments)) ==>
              outcome == Raised(ExperimentMissing))
      // nothing is saved unless the simulation is
      ensures outcome in {Ignored, SimulationMissing, Raised(ZeroDivision)} ==>
        simulations == old(simulations) && experiments == old(experiments)
      // otherwise the simulation takes the job's progress and status
      ensures outcome.Updated? || outcome == Raised(ExperimentMissing) ==>
        && old(Loads(job)) && job.total != 0.0
        && old(simulations)[job.simulationId.value].nli.Some?
        && simulations == old(simulations)[job.simulationId.value :=
             WithJobUpdate(old(simulations)[job.simulationId.value], job)]
      // the experiment is touched only for a job in an experiment
      ensures outcome.Updated? ==> outcome.experimentUpdated == job.inExperiment
      ensures outcome == Updated(false) ==> experiments == old(experiments)
      ensures outcome == Raised(ExperimentMissing) ==>
        job.inExperiment && experiments == old(experiments)
        && (job.experimentId.None? || job.experimentId.value !in old(experiments))
      // an experiment's entry for this simulation changes, and the aggregates follow
      ensures outcome == Updated(true) ==>
        && job.experimentId.Some? && job.experimentId.value in old(experiments)
        && experiments.Keys == old(experiments).Keys
        && var sid := job.simulationId.value;
           var before := old(experiments)[job.experimentId.value];
           var after := experiments[job.experimentId.value];
        && (forall id :: id in experiments && id != job.experimentId.value ==>
              experiments[id] == old(experiments)[id])
        && after.perSimProgress == before.perSimProgress[sid := JobProgress(job)]
        && after.perSimStatus == before.perSimStatus[sid := job.status]
        && after.progress == Mean(after.perSimProgress)
        && after.status == ExperimentStatus(after.perSimStatus)
    {
      if job.jobType != NliJobType {
        return Ignored;
      }
      var loaded := LoadSimulation(simulations, job.simulationId);
      if loaded.None? {
        return SimulationMissing;
      }
      var simulationId := job.simulationId.value;
      var simulation := loaded.value;
      if job.total == 0.0 {
        return Raised(ZeroDivision);
      }
      var progress := 100.0 * (job.current / job.total);
      simulation := simulation.(nli := Some(simulation.nli.value.(progress := progress, status := job.status)));
      simulations := simulations[simulationId := simulation];

      if !job.inExperiment {
        return Updated(false);
      }
      if job.experimentId.None? || job.experimentId.value !in experiments {
        return Raised(ExperimentMissing);
      }
      var experimentId := job.experimentId.value;
      var experiment := experiments[experimentId];
      var perSimProgress := experiment.perSimProgress[simulationId := progress];
      assert simulationId in perSimProgress;
      var mean := MeanOf(perSimProgress);
      var perSimStatus := experiment.perSimStatus[simulationId := job.status];
      experiment := ExperimentNli(perSimProgress, perSimStatus, mean, ExperimentStatus(perSimStatus));
      experiments := experiments[experimentId := experiment];
      return Updated(true);
    }
  }
}
