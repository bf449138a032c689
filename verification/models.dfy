/**
 * The Girder model of simulation folders: the initial `nli` record of a new
 * simulation, the instance flag that switches off the model's own query filter
 * while a folder is being created, the filter `find` and `findOne` add to every
 * query, the query `list` builds, and marking a simulation complete.
 *
 * A query is a map from dotted field names to constraints. Its meaning is
 * given by `Matches` over the flattened fields of a folder, for the three
 * constraint forms that occur: `{$exists: b}`, `{$ne: v}` and a plain value.
 */
module Models {
  import opened Wrappers
  import opened Records

  /** A field value of a stored folder. */
  datatype Value =
    | BoolValue(b: bool)
    | StringValue(s: string)
    | NumberValue(r: real)
    | StatusValue(st: Status)

  /** The constraint a query puts on one field. */
  datatype Constraint =
    | Exists(present: bool)      // {'$exists': present}
    | NotEqual(value: Value)     // {'$ne': value}; also matches when the field is missing
    | Equals(value: Value)       // a plain value

  type QueryMap = map<string, Constraint>

  const NliComplete := "nli.complete"
  const NliArchived := "nli.archived"

  /** The fields of a stored folder, under their dotted names. */
  function Flatten(f: Folder): map<string, Value>
  {
    var base := map["_id" := StringValue(f.id), "parentId" := StringValue(f.parentId),
                    "name" := StringValue(f.name)];
    match f.nli
    case None => base
    case Some(n) =>
      base[NliComplete := BoolValue(n.complete)][NliArchived := BoolValue(n.archived)]
          ["nli.config" := StringValue(n.config)]["nli.author" := StringValue(n.author)]
          ["nli.progress" := NumberValue(n.progress)]["nli.status" := StatusValue(n.status)]
  }

  predicate Satisfies(doc: map<string, Value>, key: string, c: Constraint)
  {
    match c
    case Exists(present) => (key in doc) == present
    case NotEqual(v) => key !in doc || doc[key] != v
    case Equals(v) => key in doc && doc[key] == v
  }

  /** A document matches a query when it satisfies every constraint in it. */
  predicate Matches(doc: map<string, Value>, q: QueryMap)
  {
    forall key :: key in q ==> Satisfies(doc, key, q[key])
  }

  lemma NliFieldsPresent(f: Folder)
    ensures NliComplete in Flatten(f) <==> f.nli.Some?
    ensures NliArchived in Flatten(f) <==> f.nli.Some?
    ensures f.nli.Some? ==> Flatten(f)[NliArchived] == BoolValue(f.nli.value.archived)
  {
  }

  // ---------------------------------------------------------------------------
  // Queries
  // ---------------------------------------------------------------------------

  /** `query or {}`: a missing or empty query is read as the empty one. */
  function QueryOrEmpty(query: Option<QueryMap>): (q: QueryMap)
    ensures query.None? ==> q == map[]
    ensures query.Some? ==> q == query.value
  {
    if query.Some? then query.value else map[]
  }

  /**
   * The query `find` and `findOne` forward: the caller's query, with the
   * constraint that `nli.complete` exists added unless the filter is skipped.
   */
  function Forwarded(query: Option<QueryMap>, skipFilter: bool): (q: QueryMap)
    ensures skipFilter ==> q == QueryOrEmpty(query)
    ensures !skipFilter ==>
      && q.Keys == QueryOrEmpty(query).Keys + {NliComplete}
      && q[NliComplete] == Exists(true)
      && forall key :: key in QueryOrEmpty(query) && key != NliComplete ==> q[key] == QueryOrEmpty(query)[key]
  {
    var base := QueryOrEmpty(query);
    if skipFilter then base else base[NliComplete := Exists(true)]
  }

  /**
   * The filtered query selects exactly the simulation folders (those with an
   * `nli` record) that the caller's query, apart from its own
   * `nli.complete` constraint, selects.
   */
  lemma FilterSelectsSimulations(query: Option<QueryMap>, f: Folder)
    ensures Matches(Flatten(f), Forwarded(query, false)) <==>
      f.nli.Some? && Matches(Flatten(f), QueryOrEmpty(query) - {NliComplete})
  {
    var doc := Flatten(f);
    var base := QueryOrEmpty(query);
    var q := Forwarded(query, false);
    NliFieldsPresent(f);
    if Matches(doc, q) {
      assert Satisfies(doc, NliComplete, q[NliComplete]);
      forall key | key in base - {NliComplete}
        ensures Satisfies(doc, key, (base - {NliComplete})[key])
      {
        assert Satisfies(doc, key, q[key]);
      }
    }
    if f.nli.Some? && Matches(doc, base - {NliComplete}) {
      forall key | key in q
        ensures Satisfies(doc, key, q[key])
      {
        if key != NliComplete {
          assert Satisfies(doc, key, (base - {NliComplete})[key]);
        }
      }
    }
  }

  /** With the filter skipped, the query selects what the caller's query selects. */
  lemma SkippedFilterSelectsAsGiven(query: Option<QueryMap>, f: Folder)
    ensures Matches(Flatten(f), Forwarded(query, true)) <==> Matches(Flatten(f), QueryOrEmpty(query))
  {
  }

  /** The query of `list`: none at all, or "not archived". */
  function ListQuery(includeArchived: bool): (q: QueryMap)
    ensures q.Keys <= {NliArchived}
    ensures includeArchived <==> NliArchived !in q
  {
    if includeArchived then map[] else map[NliArchived := NotEqual(BoolValue(true))]
  }

  /**
   * `list` selects every folder when archived ones are included, and otherwise
   * every folder that is not a simulation marked archived.
   */
  lemma ListQuerySelects(includeArchived: bool, f: Folder)
    ensures Matches(Flatten(f), ListQuery(includeArchived)) <==>
      includeArchived || f.nli.None? || !f.nli.value.archived
  {
    NliFieldsPresent(f);
    if !includeArchived {
      assert ListQuery(includeArchived)[NliArchived] == NotEqual(BoolValue(true));
    }
  }

  // ---------------------------------------------------------------------------
  // Records
  // ---------------------------------------------------------------------------

  /** The display name of a user: first name, a space, last name. */
  function AuthorName(creator: User): (name: string)
    ensures |name| == |creator.firstName| + 1 + |creator.lastName|
    ensures name[..|creator.firstName|] == creator.firstName
    ensures name[|creator.firstName|] == ' '
    ensures name[|creator.firstName| + 1..] == creator.lastName
  {
    creator.firstName + " " + creator.lastName
  }

  /** The `nli` record of a simulation that was just created. */
  function InitialNli(config: string, creator: User): (n: Nli)
    ensures !n.complete && !n.archived && n.progress == 0.0 && n.status == Inactive
    ensures n.config == config && n.author == AuthorName(creator)
  {
    Nli(complete := false, config := config, author := AuthorName(creator),
        archived := false, progress := 0.0, status := Inactive)
  }

  /**
   * A new simulation is neither complete nor archived, at progress 0 and
   * INACTIVE, and is found by `find` and by the default `list`.
   */
  lemma NewSimulationIsListed(f: Folder, config: string, creator: User)
    ensures var g := f.(nli := Some(InitialNli(config, creator)));
      && Matches(Flatten(g), Forwarded(None, false))
      && Matches(Flatten(g), ListQuery(false))
      && !g.nli.value.complete && !g.nli.value.archived
      && g.nli.value.progress == 0.0 && g.nli.value.status == Inactive
  {
    var g := f.(nli := Some(InitialNli(config, creator)));
    FilterSelectsSimulations(None, g);
    ListQuerySelects(false, g);
  }

  /** The folder with its `nli` record marked complete; a folder without one is left as it is. */
  function MarkedComplete(simulation: Folder): (r: Folder)
    ensures r.id == simulation.id && r.parentId == simulation.parentId && r.name == simulation.name
    ensures r.nli.Some? <==> simulation.nli.Some?
    ensures r.nli.Some? ==> r.nli.value == simulation.nli.value.(complete := true)
  {
    if simulation.nli.Some? then simulation.(nli := Some(simulation.nli.value.(complete := true)))
    else simulation
  }

  /** Marking complete only sets the flag: it is idempotent and keeps listing unchanged. */
  lemma MarkedCompleteListing(simulation: Folder, includeArchived: bool)
    ensures MarkedComplete(MarkedComplete(simulation)) == MarkedComplete(simulation)
    ensures Matches(Flatten(MarkedComplete(simulation)), ListQuery(includeArchived)) <==>
      Matches(Flatten(simulation), ListQuery(includeArchived))
    ensures Matches(Flatten(MarkedComplete(simulation)), Forwarded(None, false)) <==>
      Matches(Flatten(simulation), Forwarded(None, false))
  {
    ListQuerySelects(includeArchived, simulation);
    ListQuerySelects(includeArchived, MarkedComplete(simulation));
    FilterSelectsSimulations(None, simulation);
    FilterSelectsSimulations(None, MarkedComplete(simulation));
  }

  // ---------------------------------------------------------------------------
  // The model object
  // ---------------------------------------------------------------------------

  /** A query dict a caller passes in; `find` may add to it in place. */
  class Query {
    var constraints: QueryMap

    constructor (constraints: QueryMap)
      ensures this.constraints == constraints
    {
      this.constraints := constraints;
    }
  }

  class SimulationModel {
    /** `_skipNLIFilter`: while set, `find` and `findOne` forward queries unfiltered. */
    var skipNliFilter: bool
    /** The saved folders, by id. */
    var folders: map<Id, Folder>
    /** The value of the flag at each call of the folder base class's `createFolder`. */
    ghost var flagAtCreateFolder: seq<bool>

    /** `initialize`: the filter starts switched on. */
    constructor ()
      ensures !skipNliFilter && folders == map[] && flagAtCreateFolder == []
    {
      skipNliFilter := false;
      folders := map[];
      flagAtCreateFolder := [];
    }

    /**
     * The base class's `createFolder`, which is not part of this model: its
     * reply (the new folder, or the exception it raises) is a parameter; the
     * call is recorded with the flag as it stands.
     */
    method CreateFolder(reply: Result<Folder, string>) returns (r: Result<Folder, string>)
      modifies this
      ensures r == reply
      ensures flagAtCreateFolder == old(flagAtCreateFolder) + [old(skipNliFilter)]
      ensures skipNliFilter == old(skipNliFilter) && folders == old(folders)
    {
      flagAtCreateFolder := flagAtCreateFolder + [skipNliFilter];
      r := reply;
    }

    /**
     * `createSimulation`: the folder is created with the filter skipped, gets
     * its initial `nli` record and is saved; the filter is switched back on
     * whether creation returns or raises.
     */
    method CreateSimulation(config: string, creator: User, created: Result<Folder, string>)
      returns (r: Result<Folder, string>)
      modifies this
      ensures !skipNliFilter
      ensures flagAtCreateFolder == old(flagAtCreateFolder) + [true]
      ensures created.Err? ==> r == created && folders == old(folders)
      ensures created.Ok? ==>
        && r == Ok(created.value.(nli := Some(InitialNli(config, creator))))
        && folders == old(folders)[created.value.id := r.value]
    {
      skipNliFilter := true;
      var folder := CreateFolder(created);
      if folder.Ok? {
        folder := Ok(folder.value.(nli := Some(InitialNli(config, creator))));
      }
      skipNliFilter := false;
      if folder.Ok? {
        folders := folders[folder.value.id := folder.value];
      }
      r := folder;
    }

    /**
     * `setSimulationComplete`: saves the simulation with `nli.complete` set; a
     * folder without an `nli` record is saved as it is.
     */
    method SetSimulationComplete(simulation: Folder) returns (saved: Folder)
      modifies this
      ensures saved == MarkedComplete(simulation)
      ensures folders == old(folders)[simulation.id := saved]
      ensures skipNliFilter == old(skipNliFilter) && flagAtCreateFolder == old(flagAtCreateFolder)
    {
      saved := MarkedComplete(simulation);
      folders := folders[saved.id := saved];
    }

    /**
     * The filtering shared by `find` and `findOne`. A missing or empty query
     * is replaced by a fresh one; otherwise the caller's own query object
     * receives the added constraint.
     */
    method FilterQuery(query: Query?) returns (forwarded: QueryMap)
      modifies query
      ensures forwarded == Forwarded(if query == null then None else Some(old(query.constraints)), skipNliFilter)
      ensures query != null && old(query.constraints) != map[] && !skipNliFilter ==>
        query.constraints == forwarded
      ensures query != null && (old(query.constraints) == map[] || skipNliFilter) ==>
        query.constraints == old(query.constraints)
    {
      if query == null || query.constraints == map[] {
        forwarded := map[];
        if !skipNliFilter {
          forwarded := forwarded[NliComplete := Exists(true)];
        }
      } else {
        if !skipNliFilter {
          query.constraints := query.constraints[NliComplete := Exists(true)];
        }
        forwarded := query.constraints;
      }
    }

    /** `find`: the ids of the saved folders the filtered query selects. */
    method Find(query: Query?) returns (found: set<Id>, forwarded: QueryMap)
      modifies query
      ensures forwarded == Forwarded(if query == null then None else Some(old(query.constraints)), skipNliFilter)
      ensures query != null && old(query.constraints) != map[] && !skipNliFilter ==>
        query.constraints == forwarded
      ensures query != null && (old(query.constraints) == map[] || skipNliFilter) ==>
        query.constraints == old(query.constraints)
      ensures found == set id | id in folders && Matches(Flatten(folders[id]), forwarded)
    {
      forwarded := FilterQuery(query);
      found := set id | id in folders && Matches(Flatten(folders[id]), forwarded);
    }

    /** `findOne`: one saved folder the filtered query selects, if there is one. */
    method FindOne(query: Query?) returns (one: Option<Folder>, forwarded: QueryMap)
      modifies query
      ensures forwarded == Forwarded(if query == null then None else Some(old(query.constraints)), skipNliFilter)
      ensures query != null && old(query.constraints) != map[] && !skipNliFilter ==>
        query.constraints == forwarded
      ensures query != null && (old(query.constraints) == map[] || skipNliFilter) ==>
        query.constraints == old(query.constraints)
      ensures one.Some? ==> one.value in folders.Values && Matches(Flatten(one.value), forwarded)
      ensures one.None? ==> forall id :: id in folders ==> !Matches(Flatten(folders[id]), forwarded)
    {
      forwarded := FilterQuery(query);
      var found := set id | id in folders && Matches(Flatten(folders[id]), forwarded);
      if found == {} {
        assert forall id :: id in folders && Matches(Flatten(folders[id]), forwarded) ==> id in found;
        one := None;
      } else {
        var id :| id in found;
        one := Some(folders[id]);
      }
    }
  }
}
