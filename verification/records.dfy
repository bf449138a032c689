/**
 * The persisted records the plugin works on. A Girder folder plays three roles:
 * a plain folder, a simulation (it carries an `nli` sub-document) and an
 * experiment. Records are values; saving one is replacing it in a map.
 */
module Records {
  import opened Wrappers

  /** Identity of a folder, as the string form of its object id. */
  type Id = string

  /** The job states of girder_jobs, shared by jobs, simulations and experiments. */
  datatype Status = Inactive | Queued | Running | Success | Error | Canceled

  /** The part of a Girder user record the plugin reads. */
  datatype User = User(firstName: string, lastName: string)

  /** The `nli` sub-document of a simulation folder. */
  datatype Nli = Nli(
    complete: bool,
    config: string,
    author: string,
    archived: bool,
    progress: real,
    status: Status)

  /** A folder; `nli` is present exactly when the folder is a simulation. */
  datatype Folder = Folder(id: Id, parentId: Id, name: string, nli: Option<Nli>)

  /** The `nli` sub-document of an experiment folder. */
  datatype ExperimentNli = ExperimentNli(
    perSimProgress: map<Id, real>,
    perSimStatus: map<Id, Status>,
    progress: real,
    status: Status)
}
