/**
 Creating, deleting, forking and transferring repositories: a record in the database and a
 directory on disk, changed one after the other, the first change undone when the second
 fails.

 Every call to the database or the file system may fail. A failed `git init` or `git clone`
 may or may not leave its directory behind. Repositories are identified by tenant,
 namespace and name, which also determine their directory.
 */
module RepositoryService {
  import opened Wrappers

  datatype Key = Key(tenant: string, namespace: string, name: string)

  type Id = string

  type Records = map<Id, Key>

  datatype State = State(records: Records, dirs: set<Key>)

  datatype Fault = Works | FailsClean | FailsDirty

  datatype Op =
    | Create(id: Id, key: Key, valid: bool, lookup: bool, insert: bool, init: Fault, undo: bool)
    | Delete(key: Key, lookup: bool, remove: bool, clean: bool)
    | Fork(id: Id, src: Key, dst: Key, valid: bool, lookup: bool, clone: Fault, insert: bool, undo: bool)
    | Transfer(key: Key, namespace: string, lookup: bool, move: bool, update: bool, undo: bool)

  datatype Outcome = Outcome(state: State, ok: bool)

  /** No two records share tenant, namespace and name. */
  predicate UniqueKeys(r: Records) {
    forall i, j :: i in r && j in r && r[i] == r[j] ==> i == j
  }

  /** Every record has its directory. */
  predicate HasDirs(s: State) {
    forall i :: i in s.records ==> s.records[i] in s.dirs
  }

  predicate Inv(s: State) {
    UniqueKeys(s.records) && HasDirs(s)
  }

  predicate InUse(r: Records, k: Key) { exists i :: i in r && r[i] == k }

  /** `get_repository_by_name` */
  ghost function IdOf(r: Records, k: Key): (i: Id)
    requires InUse(r, k)
    ensures i in r && r[i] == k
  {
    var i :| i in r && r[i] == k;
    i
  }

  // ---------------------------------------------------------------------------
  // The file system
  // ---------------------------------------------------------------------------

  /** `init_repo`: an existing directory is taken over as it is. */
  function Inited(dirs: set<Key>, k: Key, f: Fault): (set<Key>, bool) {
    if k in dirs then (dirs, true)
    else match f
         case Works => (dirs + {k}, true)
         case FailsClean => (dirs, false)
         case FailsDirty => (dirs + {k}, false)
  }

  /** `delete_repo` */
  function Removed(dirs: set<Key>, k: Key, works: bool): (set<Key>, bool) {
    if k in dirs && works then (dirs - {k}, true) else (dirs, false)
  }

  /** `fork_repo` */
  function Cloned(dirs: set<Key>, src: Key, dst: Key, f: Fault): (set<Key>, bool) {
    if src !in dirs || dst in dirs then (dirs, false)
    else match f
         case Works => (dirs + {dst}, true)
         case FailsClean => (dirs, false)
         case FailsDirty => (dirs + {dst}, false)
  }

  /** `transfer_repo`: a rename. */
  function Renamed(dirs: set<Key>, src: Key, dst: Key, works: bool): (set<Key>, bool) {
    if src !in dirs || dst in dirs || !works then (dirs, false) else (dirs - {src} + {dst}, true)
  }

  // ---------------------------------------------------------------------------
  // What each operation comes to
  // ---------------------------------------------------------------------------

  ghost function Created(s: State, op: Op): Outcome
    requires op.Create?
  {
    if !op.lookup || InUse(s.records, op.key) || !op.valid || !op.insert || op.id in s.records then Outcome(s, false)
    else
      var (dirs, ok) := Inited(s.dirs, op.key, op.init);
      if ok then Outcome(State(s.records[op.id := op.key], dirs), true)
      else Outcome(State(if op.undo then s.records else s.records[op.id := op.key], dirs), false)
  }

  ghost function Deleted(s: State, op: Op): Outcome
    requires op.Delete?
  {
    if !op.lookup || !InUse(s.records, op.key) || !op.remove then Outcome(s, false)
    else Outcome(State(s.records - {IdOf(s.records, op.key)}, Removed(s.dirs, op.key, op.clean).0), true)
  }

  ghost function Forked(s: State, op: Op): Outcome
    requires op.Fork?
  {
    if !op.lookup || !InUse(s.records, op.src) then Outcome(s, false)
    else
      var (dirs, ok) := Cloned(s.dirs, op.src, op.dst, op.clone);
      if !ok || !op.valid then Outcome(s.(dirs := dirs), false)
      else if op.insert && op.id !in s.records then Outcome(State(s.records[op.id := op.dst], dirs), true)
      else Outcome(s.(dirs := Removed(dirs, op.dst, op.undo).0), false)
  }

  function Target(op: Op): Key
    requires op.Transfer?
  {
    op.key.(namespace := op.namespace)
  }

  ghost function Transferred(s: State, op: Op): Outcome
    requires op.Transfer?
  {
    if !op.lookup || !InUse(s.records, op.key) || op.key.namespace == op.namespace then Outcome(s, false)
    else
      var (dirs, ok) := Renamed(s.dirs, op.key, Target(op), op.move);
      if !ok then Outcome(s, false)
      else if op.update then Outcome(State(s.records[IdOf(s.records, op.key) := Target(op)], dirs), true)
      else Outcome(s.(dirs := Renamed(dirs, Target(op), op.key, op.undo).0), false)
  }

  ghost function After(s: State, op: Op): Outcome {
    match op
    case Create(_, _, _, _, _, _, _) => Created(s, op)
    case Delete(_, _, _, _) => Deleted(s, op)
    case Fork(_, _, _, _, _, _, _, _) => Forked(s, op)
    case Transfer(_, _, _, _, _, _) => Transferred(s, op)
  }

  // ---------------------------------------------------------------------------
  // What every sequence of operations keeps
  // ---------------------------------------------------------------------------

  /**
   A compensation that was needed failed: the record of a repository that was never
   initialised stays, or the directory of one that was not transferred stays moved.
   */
  predicate Stranded(s: State, op: Op) {
    match op
    case Create(id, key, valid, lookup, insert, init, undo) =>
      && lookup && !InUse(s.records, key) && valid && insert && id !in s.records
      && key !in s.dirs && init.FailsClean? && !undo
    case Transfer(key, namespace, lookup, move, update, undo) =>
      && lookup && InUse(s.records, key) && key.namespace != namespace
      && Target(op) !in s.dirs && move && !update && !undo
    case _ => false
  }

  lemma CreateKeepsInvIff(s: State, op: Op)
    requires op.Create? && Inv(s)
    ensures Inv(Created(s, op).state) <==> !Stranded(s, op)
  {
    var t := Created(s, op).state;
    if Stranded(s, op) {
      assert op.id in t.records && t.records[op.id] !in t.dirs;
    }
  }

  lemma DeleteKeepsInv(s: State, op: Op)
    requires op.Delete? && Inv(s)
    ensures Inv(Deleted(s, op).state)
  {
  }

  /** A fork never looks for a record at its target; the missing directory tells it there is none. */
  lemma ForkKeepsInv(s: State, op: Op)
    requires op.Fork? && Inv(s)
    ensures Inv(Forked(s, op).state)
  {
    assert op.dst !in s.dirs ==> !InUse(s.records, op.dst);
  }

  lemma TransferKeepsInvIff(s: State, op: Op)
    requires op.Transfer? && Inv(s)
    ensures Inv(Transferred(s, op).state) <==> !Stranded(s, op)
  {
    var t := Transferred(s, op).state;
    assert Target(op) !in s.dirs ==> !InUse(s.records, Target(op));
    if InUse(s.records, op.key) {
      var i := IdOf(s.records, op.key);
      assert s.records[i] in s.dirs;
      assert Stranded(s, op) ==> i in t.records && t.records[i] !in t.dirs;
    }
  }

  /** One operation keeps both invariants exactly when it does not fail in mid-compensation. */
  lemma OperationKeepsInvIff(s: State, op: Op)
    requires Inv(s)
    ensures Inv(After(s, op).state) <==> !Stranded(s, op)
  {
    match op
    case Create(_, _, _, _, _, _, _) => CreateKeepsInvIff(s, op);
    case Delete(_, _, _, _) => DeleteKeepsInv(s, op);
    case Fork(_, _, _, _, _, _, _, _) => ForkKeepsInv(s, op);
    case Transfer(_, _, _, _, _, _) => TransferKeepsInvIff(s, op);
  }

  /** A create whose initialisation failed could not take its record back. */
  predicate RecordLeft(s: State, op: Op) {
    && op.Create? && op.lookup && !InUse(s.records, op.key) && op.valid && op.insert && op.id !in s.records
    && op.key !in s.dirs && !op.init.Works? && !op.undo
  }

  /** An operation that reports an error leaves the records as they were, exactly unless its undo failed. */
  lemma ErrorKeepsRecordsIff(s: State, op: Op)
    requires Inv(s) && !After(s, op).ok
    ensures After(s, op).state.records == s.records <==> !RecordLeft(s, op)
  {
    if RecordLeft(s, op) {
      assert op.id in After(s, op).state.records;
    }
  }

  /** Successful operations change exactly one record, and as asked. */
  lemma SuccessChangesOneRecord(s: State, op: Op)
    requires Inv(s) && After(s, op).ok
    ensures var r := After(s, op).state.records;
            match op
            case Create(id, key, _, _, _, _, _) => id !in s.records && !InUse(s.records, key) && r == s.records[id := key]
            case Delete(key, _, _, _) =>
              !InUse(r, key) && exists i :: i in s.records && s.records[i] == key && r == s.records - {i}
            case Fork(id, src, dst, _, _, _, _, _) =>
              InUse(r, src) && id !in s.records && !InUse(s.records, dst) && r == s.records[id := dst]
            case Transfer(key, _, _, _, _, _) =>
              && !InUse(r, key) && !InUse(s.records, Target(op))
              && exists i :: i in s.records && s.records[i] == key && r == s.records[i := Target(op)]
  {
    if op.Fork? {
      var i := IdOf(s.records, op.src);
      assert After(s, op).state.records[i] == op.src;
    } else if op.Delete? || op.Transfer? {
      var i := IdOf(s.records, op.key);
      assert forall j :: j in s.records && s.records[j] == op.key ==> j == i;
    }
  }

  /** How a failed operation can leave a directory without a record behind. */
  lemma ErrorLeavesDirectoryIff(s: State, op: Op)
    requires Inv(s) && op.Fork? && !After(s, op).ok
    ensures After(s, op).state.dirs != s.dirs <==>
            && op.lookup && InUse(s.records, op.src) && op.dst !in s.dirs
            && (op.clone.FailsDirty? || (op.clone.Works? && (!op.valid || !op.undo)))
  {
    if InUse(s.records, op.src) {
      assert op.src in s.dirs;
    }
    assert op.dst !in s.dirs ==> s.dirs + {op.dst} - {op.dst} == s.dirs;
  }

  /** Without the directory invariant a fork can give two records one key; with it, never. */
  lemma ForkKeepsKeysUniqueIff(s: State, op: Op)
    requires op.Fork? && UniqueKeys(s.records) && Forked(s, op).ok
    ensures UniqueKeys(Forked(s, op).state.records) <==> !InUse(s.records, op.dst)
  {
    var t := Forked(s, op).state;
    if InUse(s.records, op.dst) {
      var i := IdOf(s.records, op.dst);
      assert t.records[i] == t.records[op.id];
    }
  }

  ghost function AfterAll(s: State, ops: seq<Op>): State
    decreases |ops|
  {
    if ops == [] then s else AfterAll(After(s, ops[0]).state, ops[1..])
  }

  /** Every compensation that is needed along the way succeeds. */
  ghost predicate NeverStranded(s: State, ops: seq<Op>)
    decreases |ops|
  {
    ops == [] || (!Stranded(s, ops[0]) && NeverStranded(After(s, ops[0]).state, ops[1..]))
  }

  /**
   Every sequence of operations, with any call failing and compensations succeeding, keeps
   both invariants.
   */
  lemma {:induction false} EverySequenceKeepsInv(s: State, ops: seq<Op>)
    requires Inv(s) && NeverStranded(s, ops)
    ensures Inv(AfterAll(s, ops))
    decreases |ops|
  {
    if ops != [] {
      OperationKeepsInvIff(s, ops[0]);
      EverySequenceKeepsInv(After(s, ops[0]).state, ops[1..]);
    }
  }

  // ---------------------------------------------------------------------------
  // The service
  // ---------------------------------------------------------------------------

  class FilesystemStorage {
    var dirs: set<Key>

    constructor ()
      ensures dirs == {}
    {
      dirs := {};
    }

    method InitRepo(k: Key, f: Fault) returns (ok: bool)
      modifies this
      ensures (dirs, ok) == Inited(old(dirs), k, f)
    {
      if k in dirs {
        return true;
      }
      if f.FailsClean? {
        return false;
      }
      dirs := dirs + {k};
      return f.Works?;
    }

    method DeleteRepo(k: Key, works: bool) returns (ok: bool)
      modifies this
      ensures (dirs, ok) == Removed(old(dirs), k, works)
    {
      if k !in dirs || !works {
        return false;
      }
      dirs := dirs - {k};
      return true;
    }

    method ForkRepo(src: Key, dst: Key, f: Fault) returns (ok: bool)
      modifies this
      ensures (dirs, ok) == Cloned(old(dirs), src, dst, f)
    {
      if src !in dirs {
        return false;
      }
      if dst in dirs {
        return false;
      }
      if f.FailsClean? {
        return false;
      }
      dirs := dirs + {dst};
      return f.Works?;
    }

    method TransferRepo(src: Key, dst: Key, works: bool) returns (ok: bool)
      modifies this
      ensures (dirs, ok) == Renamed(old(dirs), src, dst, works)
    {
      if src !in dirs {
        return false;
      }
      if dst in dirs {
        return false;
      }
      if !works {
        return false;
      }
      dirs := dirs - {src} + {dst};
      return true;
    }
  }

  class Service {
    const storage: FilesystemStorage
    var records: Records

    function View(): State
      reads this, storage
    {
      State(records, storage.dirs)
    }

    constructor ()
      ensures fresh(storage) && View() == State(map[], {}) && Inv(View())
    {
      storage := new FilesystemStorage();
      records := map[];
    }

    method GetByName(k: Key) returns (r: Option<Id>)
      requires UniqueKeys(records)
      ensures r == if InUse(records, k) then Some(IdOf(records, k)) else None
    {
      var todo := records.Keys;
      while todo != {}
        invariant todo <= records.Keys
        invariant forall i :: i in records && i !in todo ==> records[i] != k
        decreases |todo|
      {
        var i :| i in todo;
        if records[i] == k {
          return Some(i);
        }
        todo := todo - {i};
      }
      return None;
    }

    method Create(op: Op) returns (ok: bool)
      requires op.Create? && UniqueKeys(records)
      modifies this, storage
      ensures Outcome(View(), ok) == Created(old(View()), op)
    {
      if !op.lookup {
        return false;
      }
      var found := GetByName(op.key);
      if found.Some? || !op.valid || !op.insert || op.id in records {
        return false;
      }
      ghost var before := records;
      records := records[op.id := op.key];
      ok := storage.InitRepo(op.key, op.init);
      if !ok && op.undo {
        records := records - {op.id};
        assert records == before;
      }
    }

    method Delete(op: Op) returns (ok: bool)
      requires op.Delete? && UniqueKeys(records)
      modifies this, storage
      ensures Outcome(View(), ok) == Deleted(old(View()), op)
    {
      if !op.lookup {
        return false;
      }
      var found := GetByName(op.key);
      if found.None? || !op.remove {
        return false;
      }
      records := records - {found.value};
      var _ := storage.DeleteRepo(op.key, op.clean);
      return true;
    }

    method Fork(op: Op) returns (ok: bool)
      requires op.Fork? && UniqueKeys(records)
      modifies this, storage
      ensures Outcome(View(), ok) == Forked(old(View()), op)
    {
      if !op.lookup {
        return false;
      }
      var found := GetByName(op.src);
      if found.None? {
        return false;
      }
      ok := storage.ForkRepo(op.src, op.dst, op.clone);
      if !ok || !op.valid {
        return false;
      }
      if !op.insert || op.id in records {
        var _ := storage.DeleteRepo(op.dst, op.undo);
        return false;
      }
      records := records[op.id := op.dst];
    }

    method Transfer(op: Op) returns (ok: bool)
      requires op.Transfer? && UniqueKeys(records)
      modifies this, storage
      ensures Outcome(View(), ok) == Transferred(old(View()), op)
    {
      if !op.lookup {
        return false;
      }
      var found := GetByName(op.key);
      if found.None? || records[found.value].namespace == op.namespace {
        return false;
      }
      ok := storage.TransferRepo(op.key, Target(op), op.move);
      if !ok {
        return false;
      }
      if !op.update {
        var _ := storage.TransferRepo(Target(op), op.key, op.undo);
        return false;
      }
      records := records[found.value := Target(op)];
    }

    /** Any operation keeps both invariants unless a needed compensation fails, and an error keeps the records likewise. */
    method Perform(op: Op) returns (ok: bool)
      requires Inv(View())
      modifies this, storage
      ensures Outcome(View(), ok) == After(old(View()), op)
      ensures Inv(View()) <==> !Stranded(old(View()), op)
      ensures !ok ==> (records == old(records) <==> !RecordLeft(old(View()), op))
    {
      ghost var before := View();
      OperationKeepsInvIff(before, op);
      match op
      case Create(_, _, _, _, _, _, _) => ok := Create(op);
      case Delete(_, _, _, _) => ok := Delete(op);
      case Fork(_, _, _, _, _, _, _, _) => ok := Fork(op);
      case Transfer(_, _, _, _, _, _) => ok := Transfer(op);
      if !ok {
        ErrorKeepsRecordsIff(before, op);
      }
    }
  }
}
