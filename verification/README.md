# girder-nlisim core, modelled in Dafny

This project models the three pieces of logic at the centre of the
girder-nlisim plugin. Girder is a data-management server, and the plugin runs
lung-immunity simulations under it.

- **The job-update handler** (`update_status`). A job update carries a
  simulation's progress and status.
  - The handler writes them into the simulation folder's `nli` record.
  - When the simulation belongs to an experiment, it also updates that
    simulation's entry in the experiment's per-simulation progress and status
    maps.
  - It then recomputes the experiment's progress, the mean of the progress
    map.
  - Last, it recomputes the experiment's status by precedence: ERROR, then
    CANCELED, then INACTIVE, then QUEUED, then RUNNING, then SUCCESS.
  - Module `Plugin`. The loaded records form a `Store` object whose two maps
    the handler updates in place.
- **The simulation task** (`run_simulation`). The task does the following:
  - It initialises the run in Girder and reports RUNNING at progress
    (0, target).
  - It walks the solver's states. It takes a checkpoint each time the integer
    part of the simulated time passes that of the last checkpoint. A
    checkpoint renders the state, uploads the rendering under the name
    `0000`, `0001`, … (or `final` in the solver's finalize phase), then
    reports progress.
  - It then marks the simulation complete and reports SUCCESS.
  - If it fails, an HttpError is re-raised as it is. Any other exception is
    re-raised after an attempt to report ERROR.

  Each call to Girder and each render is an event in a trace. Which calls
  raise is a parameter, `faults`, a map from trace positions to exceptions.
  The solver's output is a finite sequence of states, optionally followed by
  an exception raised by the iterator. `Tasks.RunSimulation` is the task,
  and it calls `Tasks.CheckpointLoop`, the loop over the solver's states.
  Its postcondition equates its trace and result with `Outcome`: the
  events of a failure-free run, cut after the first action that raises.
  Modules `Tasks` and `StepNames`.
- **The simulation folder model** (`Simulation`). It covers:
  - the `_skipNLIFilter` flag, which is set while the base class creates the
    folder and cleared afterwards whether creation returns or raises;
  - the initial `nli` record;
  - the `nli.complete` filter that `find` and `findOne` add, in place, to a
    non-empty caller query;
  - the query `list` builds;
  - marking a simulation complete.

  Queries are given a meaning by `Models.Matches`, which covers the
  `$exists`, `$ne` and equality constraints that occur. Module `Models`.

`Records` holds the persisted records: the simulation folder with its `nli`
record, and the experiment's `nli` record. `Wrappers` holds `Option` and
`Result`.

Points where the code's behaviour is easy to misread:

- `update_status` divides by the job's progress total without a guard, so a
  total of 0 raises and nothing is saved.
- The handler loads the simulation through the `Simulation` model. Girder's
  `load` looks the folder up with `findOne`, which this model overrides to
  add the `nli.complete` filter (girder_nlisim/models.py:45-49). So a folder
  without an `nli` record does not load, and the handler logs and returns
  for it.
- The checkpoint rule compares the integer parts of the current time and of
  the last checkpoint's time.
- The handler's job type, `NLI_JOB_TYPE`, is imported from the REST module,
  whose definition of it is not part of this model. The model assumes the
  value `nli_simulation`, the type the plugin's route gives the jobs it
  creates (girder_nlisim/api.py:46).

## Model

| member | source | states |
|---|---|---|
| Plugin.Store.UpdateStatus | girder_nlisim/plugin.py:10-72 | Each way the modelled handler ends is stated with its result (two further raises are listed under "Left out"): a job of another type changes nothing; a simulation that does not load is logged and nothing is saved; a zero total raises before anything is saved. A job for a simulation that loads, with a non-zero total, always updates the simulation, and only it, with progress `100*current/total` and the job's status. The outcome is then fixed: done for a job outside an experiment, the experiment updated when its id loads, and an exception after the simulation is saved when it does not. Only this simulation's entries in the two per-simulation maps change, no other experiment changes, and the experiment's progress and status become the mean and the precedence status of the updated maps |
| Plugin.LoadSimulation | girder_nlisim/plugin.py:16-21 | A simulation id loads exactly when it names a saved folder that has an `nli` record, the only kind the model's filtered `findOne` returns; the folder loaded is the one saved under the id |
| Plugin.JobProgress | girder_nlisim/plugin.py:23-24 | The simulation's progress is 100 when the job's current equals its total, and lies in [0, 100] when 0 <= current <= total with a positive total |
| Plugin.WithJobUpdate | girder_nlisim/plugin.py:24-26 | The saved simulation takes the job's progress and status; its id, parent, name and every other `nli` field are kept |
| Plugin.MeanOf | girder_nlisim/plugin.py:35-38 | The loop over the progress map's keys returns the mean, `sum(values) / len(map)`, of a non-empty map |
| Plugin.SumOfRemove | girder_nlisim/plugin.py:38 | The sum of the values does not depend on the order in which the keys are taken |
| Plugin.MeanWithin | girder_nlisim/plugin.py:34-38 | When every simulation's progress lies in [lo, hi], for instance [0, 100], so does the experiment's mean progress |
| Plugin.MeanExample | girder_nlisim/plugin.py:38 | The mean of 20, 60 and 100 is 60 |
| Plugin.ExperimentStatus | girder_nlisim/plugin.py:44-70 | For a non-empty map, the derived status is one of the simulations' statuses and has the highest precedence among them (ERROR > CANCELED > INACTIVE > QUEUED > RUNNING > SUCCESS); for an empty map it is SUCCESS |
| Plugin.ErrorIffSomeError | girder_nlisim/plugin.py:44-47 | The experiment is ERROR exactly when some simulation is ERROR |
| Plugin.SuccessIffAllSuccess | girder_nlisim/plugin.py:56-70 | The experiment is SUCCESS exactly when every simulation is SUCCESS |
| Plugin.StatusDependsOnlyOnValues | girder_nlisim/plugin.py:44-70 | Two maps with the same set of statuses derive the same experiment status, whatever the ids and insertion order |
| Plugin.StatusExamples | girder_nlisim/plugin.py:44-70 | RUNNING+SUCCESS gives RUNNING, ERROR+SUCCESS gives ERROR, CANCELED+QUEUED gives CANCELED, SUCCESS+SUCCESS gives SUCCESS |
| Tasks.Checkpoints | girder_nlisim/tasks.py:102-107 | At most one checkpoint per solver state |
| Tasks.CheckpointFloorsIncrease | girder_nlisim/tasks.py:102-107 | No checkpoint has a time below 1, and the integer parts of successive checkpoint times strictly increase, so there is at most one checkpoint per time unit |
| Tasks.CheckpointsFromSteps | girder_nlisim/tasks.py:104-107 | Every checkpoint is one of the solver's states, with its time and phase |
| Tasks.QuietStep | girder_nlisim/tasks.py:104-106 | A state whose time does not pass the last checkpoint's time unit adds no checkpoint, hence no event |
| Tasks.FiringStep | girder_nlisim/tasks.py:106-107 | A state that passes it adds exactly one checkpoint, at its time; `previous_time` becomes that time |
| Tasks.LastCheckpointNotLater | girder_nlisim/tasks.py:105-107 | With non-decreasing solver times, the last checkpoint is no later than the last state |
| Tasks.CheckpointCountBound | girder_nlisim/tasks.py:102-107 | With non-decreasing solver times, a run takes at most floor(last time) checkpoints |
| Tasks.CheckpointNamesDistinct | girder_nlisim/tasks.py:101-122 | When only the last state can be in the finalize phase, the names of two checkpoints of a run differ |
| StepNames.Padded4 | girder_nlisim/tasks.py:113 | The `%04i` name has at least four characters, all digits |
| StepNames.StepName | girder_nlisim/tasks.py:113 | The name is `final` exactly for a checkpoint in the finalize phase |
| StepNames.PaddedRoundTrip | girder_nlisim/tasks.py:113 | The `%04i` name of a counter reads back as that counter |
| StepNames.PaddedInjective | girder_nlisim/tasks.py:113 | Distinct counters give distinct names |
| StepNames.StepNamesDistinct | girder_nlisim/tasks.py:113 | A numbered name never equals `final`, and two numbered names are equal only for the same counter |
| StepNames.PaddedExamples | girder_nlisim/tasks.py:113 | 0 is named `0000`, 7 `0007`, 12345 `12345` |
| Tasks.Ideal | girder_nlisim/tasks.py:96-126 | The actions of a run in which nothing raises: two before the loop, three per checkpoint, two after it |
| Tasks.Raise | girder_nlisim/tasks.py:127-136 | A run that raises exception `e` re-raises `e`; its trace is the actions attempted, followed by one more event, the ERROR report, exactly when `e` is not an HttpError |
| Tasks.Cut | girder_nlisim/tasks.py:94-136 | Cutting the ideal actions at the first failure: a run that returns made no exception from the iterator and every ideal action, and a run never makes more than one event beyond the ideal actions |
| Tasks.Outcome | girder_nlisim/tasks.py:90-136 | What a run does, given the solver's states and the faults: when it returns, its trace is the events of `Ideal`, and it never makes more than one event beyond them |
| Tasks.LoopActionsAt | girder_nlisim/tasks.py:109-122 | Checkpoint number k occupies three consecutive actions: the render of its state, then the upload named `StepName(k, final)` with its time, then the RUNNING report with (its time, target). Counters run 0, 1, … consecutively and each upload precedes its status report |
| Tasks.Start | girder_nlisim/tasks.py:96-99 | Before the loop, `initialize` and then RUNNING with (0, target), the second attempted only if the first did not raise; a failure there ends the run at that action |
| Tasks.TakeCheckpoint | girder_nlisim/tasks.py:109-120 | The checkpoint branch performs its render, upload and report in order, stopping at the first that raises |
| Tasks.Advance | girder_nlisim/tasks.py:104-122 | One turn of the loop sets `current_time`; it advances `previous_time` and `time_step` only when the state fires |
| Tasks.CheckpointLoop | girder_nlisim/tasks.py:101-122 | The loop performs exactly the checkpoint actions of all states, unless an action raises, in which case it stops after that action |
| Tasks.Complete | girder_nlisim/tasks.py:124-126 | After the loop, an exception from the iterator leaves the trace unchanged and is the failure; otherwise `finalize` is called, then SUCCESS with (target, target) is reported unless `finalize` raised, and the failure is whatever the last call made raised |
| Tasks.EndedOutcome | girder_nlisim/tasks.py:124-136 | A run that returns ends with the trace as it stands; a run that raises adds an ERROR report only for a non-HttpError, and re-raises the same exception |
| Tasks.RunSimulation | girder_nlisim/tasks.py:90-136 | The trace and result of the task are those of `Outcome`: the actions of a failure-free run, cut after the first action that raises, or where the iterator raises |
| Tasks.CutRaisedAt | girder_nlisim/tasks.py:127-136 | A run that raises made the ideal actions up to some point and then, for a non-HttpError, the ERROR report. When an action raised, the report carries the time of that action, which is before the last two actions unless the iterator did not raise. When the iterator raised, the actions stop just before `finalize` and the report carries the last state's time |
| Tasks.RunStartsWithInitialize | girder_nlisim/tasks.py:90-99 | The first event is `initialize`; unless it raises, the next is RUNNING with (0, target) |
| Tasks.RunReturns | girder_nlisim/tasks.py:124-126 | The task returns exactly when neither the iterator nor any action raises; it then made every action of the failure-free run, ending with `finalize` and SUCCESS with (target, target) |
| Tasks.RunRaises | girder_nlisim/tasks.py:127-136 | A run that raises an HttpError made a prefix of the failure-free actions and nothing more; one that raises any other exception made such a prefix followed by exactly one ERROR report, whose total is the target |
| Tasks.IdealReportsNoError | girder_nlisim/tasks.py:96-126 | No action of a failure-free run reports ERROR |
| Tasks.HttpErrorNotReported | girder_nlisim/tasks.py:127-130 | A run ending in HttpError reports no ERROR status |
| Tasks.ErrorReportFailureSwallowed | girder_nlisim/tasks.py:131-136 | Whatever happens at the position of the ERROR report (it raises or not) or later, a run that reports ERROR ends the same way and re-raises the original exception |
| Tasks.ErrorReportTime | girder_nlisim/tasks.py:90-105 | The ERROR report carries as its current time 0 or the time of one of the solver's states |
| Models.SimulationModel.constructor | girder_nlisim/models.py:7-8 | A new model starts with the filter switched on |
| Models.SimulationModel.CreateFolder | girder_nlisim/models.py:20-22 | The folder base class's creation call is recorded with the flag as it stands |
| Models.SimulationModel.CreateSimulation | girder_nlisim/models.py:13-33 | The folder is created with the filter skipped, and the filter is switched back on whether creation returns or raises. On success the folder gets the initial `nli` record and is saved; on failure nothing is saved and the exception propagates |
| Models.AuthorName | girder_nlisim/models.py:26 | The author is the creator's first name, a space, then the last name |
| Models.NewSimulationIsListed | girder_nlisim/models.py:23-30 | A new simulation is neither complete nor archived, at progress 0 and INACTIVE, and it is selected by the `find` filter and by the default `list` query |
| Models.MarkedComplete | girder_nlisim/models.py:35-37 | Only `nli.complete` changes, to true; a folder without `nli` is unchanged |
| Models.MarkedCompleteListing | girder_nlisim/models.py:35-37 | Marking complete is idempotent and changes neither what `list` nor what `find` selects |
| Models.SimulationModel.SetSimulationComplete | girder_nlisim/models.py:35-37 | Saves the simulation marked complete, and nothing else changes |
| Models.QueryOrEmpty | girder_nlisim/models.py:40 | A missing query is read as the empty one; a given query is kept as it is |
| Models.InitialNli | girder_nlisim/models.py:23-30 | A new simulation's `nli` record is not complete, not archived, at progress 0 and INACTIVE, with the given config and the creator's name as author |
| Models.Forwarded | girder_nlisim/models.py:39-49 | With the filter on, the query forwarded is the caller's, or the empty one when none is given, with `nli.complete: {$exists: true}` added and every other key kept; with the filter skipped it is the caller's query unchanged |
| Models.SimulationModel.FilterQuery | girder_nlisim/models.py:40-42 | Forwards `Forwarded`; a non-empty caller query object receives the added constraint itself, while a missing or empty one is left alone |
| Models.SimulationModel.Find | girder_nlisim/models.py:39-43 | Returns exactly the saved folders the forwarded query selects |
| Models.SimulationModel.FindOne | girder_nlisim/models.py:45-49 | Returns a saved folder the forwarded query selects, or none when no saved folder matches |
| Models.FilterSelectsSimulations | girder_nlisim/models.py:39-49 | The filtered query selects exactly the folders that have an `nli` record and that the caller's other constraints select |
| Models.SkippedFilterSelectsAsGiven | girder_nlisim/models.py:41-43 | With the filter skipped, the query selects what the caller's query selects |
| Models.ListQuery | girder_nlisim/models.py:51-56 | The `list` query constrains at most `nli.archived`, and does so exactly when archived folders are excluded |
| Models.ListQuerySelects | girder_nlisim/models.py:51-57 | The `list` query with `includeArchived=True` matches every folder; otherwise it matches every folder that is not a simulation marked archived. What `list` returns also depends on `findWithPermissions`, which is not modelled |

## Left out

- Girder client plumbing (`GirderConfig.client`, `upload_config`, `initialize`, `finalize`, `set_status`, `upload`, girder_nlisim/tasks.py:34-76): each call is one event in the trace. Folder creation, metadata and file globbing are not modelled.
- The simulation engine (`run_iterator`, `generate_vtk`, `SimulationConfig`): the iterator is a given finite sequence of (time, finalize phase) pairs with an optional exception at the end, and a render is one event.
- Which actions raise: the exceptions of Girder and of rendering are a parameter (`faults`), and each is classified only as HttpError or another exception. Logging is not modelled.
- Tasks.RunSimulation: exceptions that are not subclasses of `Exception`, such as `KeyboardInterrupt` or `SystemExit`, pass both handlers of girder_nlisim/tasks.py:127-136 without an ERROR report, and one raised by the ERROR report itself replaces the original exception. The model has no such exception: every exception other than HttpError is treated as one that triggers the ERROR report and whose report failure is swallowed.
- Filesystem effects: temporary directories, temporary files and `os.chdir`.
- Floating point: times and progress are real numbers, and `floor` is `.Floor`.
- Persistence and the Girder base classes (`load`, `save`, `createFolder`, `findWithPermissions`, `ensureIndices`, `exposeFields`). Records are maps, and saving replaces an entry. `createFolder`'s reply is a parameter of `CreateSimulation`; `list` is modelled only as the query it builds, since the query runs in `findWithPermissions`.
- Models.SimulationModel.SetSimulationComplete: takes the folder as a value, so it does not capture that the caller's own dictionary is updated in place.
- Event binding and plugin loading (girder_nlisim/plugin.py:75-84), the REST routes (girder_nlisim/api.py), Celery configuration and packaging.
- Concurrency: two job updates racing on the same experiment record are outside a sequential model.
- The `Experiment` model class is not part of this model. An experiment is its `nli` record.
- Plugin.Store.UpdateStatus: assumes that a job document always carries a progress pair (`current`, `total`) and that an experiment record always has both per-simulation maps. The handler reads both without a guard (girder_nlisim/plugin.py:23-24, 34, 41). A job whose progress was never set, or an experiment without `per_sim_progress` or `per_sim_status`, makes it raise: before anything is saved in the first case, after the simulation is saved in the second. The model has neither case.
- Plugin.Store.UpdateStatus: a job without a `simulation_id` is treated as a simulation that does not load. What Girder's `load` does with a null id (it may raise rather than return nothing) is not part of this model.
- Plugin.Store.UpdateStatus: a missing experiment ends in an exception after the simulation is saved. The model does not distinguish the exception Python raises (indexing `None`).
- Plugin.Store.UpdateStatus: statuses are the six job states shared by jobs, simulations and experiments. Other job states of girder_jobs are not modelled.
- Tasks.ErrorReportTime: states that the ERROR report carries 0 or some state's time, rather than naming which state. Which one is tied to the task's own `current_time` variable by `Tasks.RunSimulation`'s postcondition.
