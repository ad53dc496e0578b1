/**
 * The project record (github/models.py), the store that keeps the rows, and
 * `save`. A row is a value (`Record`); a loaded project is an object whose
 * fields the orchestration code updates in place before saving it back.
 */
module Projects {
  import opened Wrappers
  import opened Outcomes

  /** The validators on the `port` field. */
  const MIN_PORT: nat := 1000
  const MAX_PORT: nat := 9999

  predicate PortInRange(port: int) {
    MIN_PORT <= port <= MAX_PORT
  }

  /** The fields of a row that an administrator sets and the orchestration
      code only reads; nullable text as `Option`. */
  datatype Settings = Settings(
    name: string,
    url: string,
    description: Option<string>,
    useDeployKey: bool,
    port: nat,
    sshKey: Option<string>,
    sshKeyPassphrase: Option<string>,
    sshPubkey: Option<string>,
    gitUsername: Option<string>,
    gitPassword: Option<string>)

  /** One stored row: its settings and the two status fields the
      orchestration code writes (`last_commit`, `last_error`). */
  datatype Record = Record(settings: Settings, lastCommit: Option<string>, lastError: Option<string>)

  /** Two rows were written for the same project when only the status fields differ. */
  predicate SameProject(a: Record, b: Record) {
    a.settings == b.settings
  }

  /** Two rows share neither their port nor their url. */
  predicate Apart(a: Record, b: Record) {
    a.settings.port != b.settings.port && a.settings.url != b.settings.url
  }

  /** `url` and `port` are both `unique=True`: no two rows share either. */
  ghost predicate Unique(rows: map<nat, Record>) {
    forall a, b {:trigger Apart(rows[a], rows[b])} :: a in rows && b in rows && a != b ==> Apart(rows[a], rows[b])
  }

  /** Writing `rec` as row `id` would give it the port or the url of another row.
      Id 0 stands for a project that has no primary key yet. */
  predicate Clashes(rows: map<nat, Record>, id: nat, rec: Record) {
    exists other :: other in rows && other != id &&
      (rows[other].settings.port == rec.settings.port || rows[other].settings.url == rec.settings.url)
  }

  /** What the database does with a write: refuse it on a unique clash, else store it. */
  function WriteEffect(rows: map<nat, Record>, id: nat, rec: Record): (r: (Outcome, map<nat, Record>))
    ensures r.0.Done? <==> !Clashes(rows, id, rec)
    ensures r.0.Done? ==> r.1 == rows[id := rec]
    ensures r.0.Raised? ==> r.0 == Raised(IntegrityError("UNIQUE constraint failed")) && r.1 == rows
  {
    if Clashes(rows, id, rec) then (Raised(IntegrityError("UNIQUE constraint failed")), rows)
    else (Done, rows[id := rec])
  }

  lemma {:induction false} WriteKeepsUnique(rows: map<nat, Record>, id: nat, rec: Record)
    requires Unique(rows)
    ensures Unique(WriteEffect(rows, id, rec).1)
  {
    var after := WriteEffect(rows, id, rec).1;
    if !Clashes(rows, id, rec) {
      forall a, b | a in after && b in after && a != b
        ensures Apart(after[a], after[b])
      {
        if a == id {
          assert !(rows[b].settings.port == rec.settings.port || rows[b].settings.url == rec.settings.url);
        } else if b == id {
          assert !(rows[a].settings.port == rec.settings.port || rows[a].settings.url == rec.settings.url);
        } else {
          assert Apart(rows[a], rows[b]);
        }
      }
    }
  }

  /** The field constraints Django's model validation reports for a row. */
  datatype FieldError = PortBelowMinimum | PortAboveMaximum | PortTaken | UrlTaken

  function FieldErrors(rows: map<nat, Record>, id: nat, rec: Record): (errs: set<FieldError>)
    ensures errs == {} <==> PortInRange(rec.settings.port) && !Clashes(rows, id, rec)
    ensures PortTaken in errs <==> exists other :: other in rows && other != id && rows[other].settings.port == rec.settings.port
    ensures UrlTaken in errs <==> exists other :: other in rows && other != id && rows[other].settings.url == rec.settings.url
  {
    (if rec.settings.port < MIN_PORT then {PortBelowMinimum} else {})
    + (if rec.settings.port > MAX_PORT then {PortAboveMaximum} else {})
    + (if exists other :: other in rows && other != id && rows[other].settings.port == rec.settings.port then {PortTaken} else {})
    + (if exists other :: other in rows && other != id && rows[other].settings.url == rec.settings.url then {UrlTaken} else {})
  }

  /** A row that passes the field validation can be written without breaking uniqueness. */
  lemma {:induction false} ValidRowKeepsStoreUnique(rows: map<nat, Record>, id: nat, rec: Record)
    requires Unique(rows)
    requires FieldErrors(rows, id, rec) == {}
    ensures WriteEffect(rows, id, rec) == (Done, rows[id := rec])
    ensures Unique(rows[id := rec])
  {
    WriteKeepsUnique(rows, id, rec);
  }

  /** The project table. Ids start at 1; 0 is never a key. */
  class Store {
    var rows: map<nat, Record>
    var nextId: nat

    ghost predicate Valid()
      reads this
    {
      && 1 <= nextId
      && 0 !in rows
      && (forall id :: id in rows ==> id < nextId)
      && Unique(rows)
    }

    constructor ()
      ensures Valid() && rows == map[]
    {
      rows := map[];
      nextId := 1;
    }

    /** An UPDATE (or INSERT with an explicit id) of row `id`. */
    method Write(id: nat, rec: Record) returns (o: Outcome)
      requires Valid()
      requires id != 0
      modifies this
      ensures Valid()
      ensures (o, rows) == WriteEffect(old(rows), id, rec)
      ensures nextId >= old(nextId)
    {
      WriteKeepsUnique(rows, id, rec);
      var effect := WriteEffect(rows, id, rec);
      o, rows := effect.0, effect.1;
      if id >= nextId {
        nextId := id + 1;
      }
    }

    /** An INSERT that lets the database choose the next id. */
    method Insert(rec: Record) returns (o: Outcome, id: nat)
      requires Valid()
      modifies this
      ensures Valid()
      ensures id == old(nextId) && id != 0
      ensures (o, rows) == WriteEffect(old(rows), id, rec)
    {
      id := nextId;
      o := Write(id, rec);
    }
  }

  /** `after` agrees with `before` on every row other than `id`. */
  predicate RowsAgreeOutside(before: map<nat, Record>, after: map<nat, Record>, id: nat) {
    && (forall k :: k in after && k != id ==> k in before && after[k] == before[k])
    && (forall k :: k in before && k != id ==> k in after)
  }

  /** A loaded or new `AIGitHubProject` instance. */
  class Project {
    const store: Store
    /** The primary key; 0 stands for Django's `None` (not yet saved). */
    var pk: nat
    /** The settings fields. The orchestration code only reads them, so
        here they are fixed when the instance is built. */
    const name: string
    const url: string
    const description: Option<string>
    const useDeployKey: bool
    const port: nat
    const sshKey: Option<string>
    const sshKeyPassphrase: Option<string>
    const sshPubkey: Option<string>
    const gitUsername: Option<string>
    const gitPassword: Option<string>
    var lastCommit: Option<string>
    var lastError: Option<string>
    /** Whether `is_cleaned` has been assigned. The code only ever assigns
        True, and before that the instance has no such attribute. */
    var isCleaned: bool

    function Snapshot(): (r: Record)
      reads this`lastCommit, this`lastError
    {
      Record(Settings(name, url, description, useDeployKey, port, sshKey, sshKeyPassphrase,
                      sshPubkey, gitUsername, gitPassword),
             lastCommit, lastError)
    }

    /** An instance read from row `id` of the store. */
    constructor Loaded(store: Store, id: nat, rec: Record)
      ensures this.store == store && pk == id && Snapshot() == rec && !isCleaned
    {
      this.store := store;
      pk := id;
      var st := rec.settings;
      name, url, description, useDeployKey, port := st.name, st.url, st.description, st.useDeployKey, st.port;
      sshKey, sshKeyPassphrase, sshPubkey := st.sshKey, st.sshKeyPassphrase, st.sshPubkey;
      gitUsername, gitPassword := st.gitUsername, st.gitPassword;
      lastCommit, lastError := rec.lastCommit, rec.lastError;
      isCleaned := false;
    }

    /** A new, unsaved instance. */
    constructor Create(store: Store, rec: Record)
      ensures this.store == store && pk == 0 && Snapshot() == rec && !isCleaned
    {
      this.store := store;
      pk := 0;
      var st := rec.settings;
      name, url, description, useDeployKey, port := st.name, st.url, st.description, st.useDeployKey, st.port;
      sshKey, sshKeyPassphrase, sshPubkey := st.sshKey, st.sshKeyPassphrase, st.sshPubkey;
      gitUsername, gitPassword := st.gitUsername, st.gitPassword;
      lastCommit, lastError := rec.lastCommit, rec.lastError;
      isCleaned := false;
    }

    /** What `save()` does to an instance that already has a primary key. */
    ghost predicate UpdatedAfter(o: Outcome, before: map<nat, Record>)
      reads this, store
    {
      if !isCleaned then o == Raised(AttributeError("is_cleaned")) && store.rows == before
      else (o, store.rows) == WriteEffect(before, pk, Snapshot())
    }

    /** The store differs from `before` at most in this project's own row,
        which then holds the project's current fields. */
    ghost predicate WroteOwnRowAtMost(before: map<nat, Record>)
      reads this, store
    {
      store.rows == before || (pk != 0 && store.rows == before[pk := Snapshot()])
    }

    /**
     * `save`: it reads `is_cleaned` (full model validation would run when it
     * is False, which nothing ever assigns), then writes the row: an UPDATE
     * when the instance has a primary key, an INSERT that assigns one otherwise.
     */
    method Save() returns (o: Outcome)
      requires store.Valid()
      modifies this`pk, store
      ensures store.Valid()
      ensures !isCleaned ==> o == Raised(AttributeError("is_cleaned")) && unchanged(store) && pk == old(pk)
      ensures old(pk) != 0 ==> pk == old(pk) && UpdatedAfter(o, old(store.rows))
      ensures isCleaned && old(pk) == 0 ==>
        (o, store.rows) == WriteEffect(old(store.rows), old(store.nextId), Snapshot())
        && pk == (if o.Done? then old(store.nextId) else 0)
    {
      if !isCleaned {
        return Raised(AttributeError("is_cleaned"));
      }
      if pk != 0 {
        o := store.Write(pk, Snapshot());
      } else {
        var id;
        o, id := store.Insert(Snapshot());
        if o.Done? {
          pk := id;
        }
      }
    }
  }
}
