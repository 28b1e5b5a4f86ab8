/**
 Operations on repositories that run at the same time.

 The service holds no lock: between a create's duplicate check and its insert, or between a
 delete's removal of the record and that of the directory, any other call may come. Each
 call of the store or of the file system is one `Step` here, any of them may fail, and a list
 of steps is one interleaving of any number of creates, deletes, forks and transfers.

 The stores differ. SQLite and MongoDB keep tenant, namespace and name unique and refuse a
 record that would repeat them; the memory store does not look. `unique` says which it is.
 All of them refuse an id that is there already.
 */
module RepositoryRaces {
  import opened RepositoryService

  type CallerId = nat

  /**
   Where an operation is; each phase is named after what it has done last. `key` is the
   repository it creates, deletes or moves away, or the target of a fork.
   */
  datatype Phase =
    | Checked(id: Id, key: Key)
    | Stored(id: Id, key: Key)
    | Unmade(id: Id, key: Key)
    | Found(id: Id, key: Key)
    | Unlinked(key: Key)
    | Sourced(id: Id, src: Key, key: Key)
    | Copied(id: Id, key: Key)
    | Uncopied(key: Key)
    | Located(id: Id, key: Key, to: Key)
    | Moved(id: Id, key: Key, to: Key)
    | Unmoved(id: Id, key: Key, to: Key)

  datatype Shared = Shared(records: Records, dirs: set<Key>, callers: map<CallerId, Phase>)

  datatype Step =
    // create
    | LookUp(c: CallerId, id: Id, key: Key)
    | Insert(c: CallerId, id: Id, key: Key, works: bool)
    | Init(c: CallerId, fault: Fault)
    | TakeBack(c: CallerId, works: bool)
    // delete
    | Find(c: CallerId, id: Id, key: Key)
    | Unlink(c: CallerId, works: bool)
    | Clean(c: CallerId, works: bool)
    // fork
    | Source(c: CallerId, id: Id, src: Key, key: Key)
    | Clone(c: CallerId, fault: Fault)
    | Reject(c: CallerId)
    | InsertCopy(c: CallerId, id: Id, key: Key, works: bool)
    | RemoveCopy(c: CallerId, works: bool)
    // transfer
    | Locate(c: CallerId, id: Id, key: Key, namespace: string)
    | Rename(c: CallerId, works: bool)
    | Update(c: CallerId, id: Id, namespace: string, works: bool)
    | RenameBack(c: CallerId, works: bool)

  predicate At(s: Shared, c: CallerId) { c in s.callers }

  function Rekeyed(k: Key, namespace: string): Key { k.(namespace := namespace) }

  predicate Enabled(s: Shared, step: Step) {
    match step
    case LookUp(c, _, _) => c !in s.callers
    case Insert(c, id, key, _) => At(s, c) && s.callers[c] == Checked(id, key)
    case Init(c, _) => At(s, c) && s.callers[c].Stored?
    case TakeBack(c, _) => At(s, c) && s.callers[c].Unmade?
    case Find(c, id, key) => c !in s.callers && id in s.records && s.records[id] == key
    case Unlink(c, _) => At(s, c) && s.callers[c].Found?
    case Clean(c, _) => At(s, c) && s.callers[c].Unlinked?
    case Source(c, _, src, _) => c !in s.callers && InUse(s.records, src)
    case Clone(c, _) => At(s, c) && s.callers[c].Sourced?
    case Reject(c) => At(s, c) && s.callers[c].Copied?
    case InsertCopy(c, id, key, _) => At(s, c) && s.callers[c] == Copied(id, key)
    case RemoveCopy(c, _) => At(s, c) && s.callers[c].Uncopied?
    case Locate(c, id, key, namespace) =>
      c !in s.callers && id in s.records && s.records[id] == key && key.namespace != namespace
    case Rename(c, _) => At(s, c) && s.callers[c].Located?
    case Update(c, id, namespace, _) =>
      At(s, c) && s.callers[c].Moved? && s.callers[c].id == id && s.callers[c].to.namespace == namespace
    case RenameBack(c, _) => At(s, c) && s.callers[c].Unmoved?
  }

  /** The store takes a new record. */
  predicate Admits(unique: bool, r: Records, id: Id, key: Key) {
    id !in r && (unique ==> !InUse(r, key))
  }

  /** Another record than `id` has the key. */
  predicate Taken(r: Records, id: Id, key: Key) {
    exists j :: j in r && j != id && r[j] == key
  }

  /** The store moves a record to another namespace. */
  predicate AdmitsMove(unique: bool, r: Records, id: Id, namespace: string) {
    id in r && (unique ==> !Taken(r, id, Rekeyed(r[id], namespace)))
  }

  function Move(s: Shared, c: CallerId, p: Phase): Shared {
    s.(callers := s.callers[c := p])
  }

  function Leave(s: Shared, c: CallerId): Shared {
    s.(callers := s.callers - {c})
  }

  ghost function LookUpAt(s: Shared, c: CallerId, id: Id, key: Key): Shared {
    if InUse(s.records, key) then s else Move(s, c, Checked(id, key))
  }

  ghost function InsertAt(unique: bool, s: Shared, c: CallerId, id: Id, key: Key, works: bool): Shared {
    if works && Admits(unique, s.records, id, key) then Move(s, c, Stored(id, key)).(records := s.records[id := key])
    else Leave(s, c)
  }

  function InitAt(s: Shared, c: CallerId, fault: Fault): Shared
    requires At(s, c) && s.callers[c].Stored?
  {
    var (dirs, ok) := Inited(s.dirs, s.callers[c].key, fault);
    (if ok then Leave(s, c) else Move(s, c, Unmade(s.callers[c].id, s.callers[c].key))).(dirs := dirs)
  }

  function UnlinkAt(s: Shared, c: CallerId, works: bool): Shared
    requires At(s, c) && s.callers[c].Found?
  {
    var p := s.callers[c];
    if works && p.id in s.records then Move(s, c, Unlinked(p.key)).(records := s.records - {p.id}) else Leave(s, c)
  }

  /** A directory is removed: the end of a delete, and of a fork that could not store its record. */
  function RemoveAt(s: Shared, c: CallerId, works: bool): Shared
    requires At(s, c)
  {
    Leave(s, c).(dirs := Removed(s.dirs, s.callers[c].key, works).0)
  }

  function CloneAt(s: Shared, c: CallerId, fault: Fault): Shared
    requires At(s, c) && s.callers[c].Sourced?
  {
    var p := s.callers[c];
    var (dirs, ok) := Cloned(s.dirs, p.src, p.key, fault);
    (if ok then Move(s, c, Copied(p.id, p.key)) else Leave(s, c)).(dirs := dirs)
  }

  ghost function InsertCopyAt(unique: bool, s: Shared, c: CallerId, id: Id, key: Key, works: bool): Shared {
    if works && Admits(unique, s.records, id, key) then Leave(s, c).(records := s.records[id := key])
    else Move(s, c, Uncopied(key))
  }

  function RenameAt(s: Shared, c: CallerId, works: bool): Shared
    requires At(s, c) && s.callers[c].Located?
  {
    var p := s.callers[c];
    var (dirs, ok) := Renamed(s.dirs, p.key, p.to, works);
    (if ok then Move(s, c, Moved(p.id, p.key, p.to)) else Leave(s, c)).(dirs := dirs)
  }

  ghost function UpdateAt(unique: bool, s: Shared, c: CallerId, id: Id, namespace: string, works: bool): Shared
    requires At(s, c) && s.callers[c].Moved?
  {
    var p := s.callers[c];
    if works && AdmitsMove(unique, s.records, id, namespace) then
      Leave(s, c).(records := s.records[id := Rekeyed(s.records[id], namespace)])
    else
      Move(s, c, Unmoved(p.id, p.key, p.to))
  }

  function RenameBackAt(s: Shared, c: CallerId, works: bool): Shared
    requires At(s, c) && s.callers[c].Unmoved?
  {
    Leave(s, c).(dirs := Renamed(s.dirs, s.callers[c].to, s.callers[c].key, works).0)
  }

  ghost function Apply(unique: bool, s: Shared, step: Step): Shared
    requires Enabled(s, step)
  {
    match step
    case LookUp(c, id, key) => LookUpAt(s, c, id, key)
    case Insert(c, id, key, works) => InsertAt(unique, s, c, id, key, works)
    case Init(c, fault) => InitAt(s, c, fault)
    case TakeBack(c, works) => Leave(s, c).(records := if works then s.records - {s.callers[c].id} else s.records)
    case Find(c, id, key) => Move(s, c, Found(id, key))
    case Unlink(c, works) => UnlinkAt(s, c, works)
    case Clean(c, works) => RemoveAt(s, c, works)
    case Source(c, id, src, key) => Move(s, c, Sourced(id, src, key))
    case Clone(c, fault) => CloneAt(s, c, fault)
    case Reject(c) => Leave(s, c)
    case InsertCopy(c, id, key, works) => InsertCopyAt(unique, s, c, id, key, works)
    case RemoveCopy(c, works) => RemoveAt(s, c, works)
    case Locate(c, id, key, namespace) => Move(s, c, Located(id, key, Rekeyed(key, namespace)))
    case Rename(c, works) => RenameAt(s, c, works)
    case Update(c, id, namespace, works) => UpdateAt(unique, s, c, id, namespace, works)
    case RenameBack(c, works) => RenameBackAt(s, c, works)
  }

  ghost predicate Runs(unique: bool, s: Shared, steps: seq<Step>, t: Shared)
    decreases |steps|
  {
    if steps == [] then t == s else
      Enabled(s, steps[0]) && Runs(unique, Apply(unique, s, steps[0]), steps[1..], t)
  }

  // ---------------------------------------------------------------------------
  // What is right while operations are in flight
  // ---------------------------------------------------------------------------

  /** The operation has a record without a directory in hand: created and not made yet, or moved half-way. */
  predicate Excuses(p: Phase, i: Id, k: Key) {
    (p.Stored? || p.Unmade? || p.Moved? || p.Unmoved?) && p.id == i && p.key == k
  }

  predicate Excused(s: Shared, i: Id)
    requires i in s.records
  {
    exists c :: c in s.callers && Excuses(s.callers[c], i, s.records[i])
  }

  /** Some other operation than `c` has the record in hand, if its key is `k`. */
  predicate ExcusedBesides(s: Shared, c: CallerId, i: Id, k: Key) {
    exists d :: d in s.callers && d != c && Excuses(s.callers[d], i, k)
  }

  /** Every record has its directory, or an operation in flight that will see to it. */
  predicate Housed(s: Shared) {
    forall i :: i in s.records ==> s.records[i] in s.dirs || Excused(s, i)
  }

  predicate Good(s: Shared) {
    UniqueKeys(s.records) && Housed(s)
  }

  /** A record that depends on the directory of its key. */
  predicate Needed(s: Shared, k: Key) {
    exists i :: i in s.records && s.records[i] == k && !Excused(s, i)
  }

  /** The record `c` has in hand has no directory, and no other operation has it in hand. */
  predicate Forsaken(s: Shared, c: CallerId, i: Id, k: Key) {
    i in s.records && s.records[i] == k && k !in s.dirs && !ExcusedBesides(s, c, i, k)
  }

  /** The steps that go wrong, by what the store and the disk hold when they come. */
  ghost predicate Clash(unique: bool, s: Shared, step: Step)
    requires Enabled(s, step)
  {
    match step
    case Insert(_, id, key, works) => works && Admits(unique, s.records, id, key) && InUse(s.records, key)
    case TakeBack(c, works) => !works && Forsaken(s, c, s.callers[c].id, s.callers[c].key)
    case Clean(c, works) => works && s.callers[c].key in s.dirs && Needed(s, s.callers[c].key)
    case InsertCopy(c, id, key, works) =>
      && works && Admits(unique, s.records, id, key)
      && (InUse(s.records, key) || (key !in s.dirs && !ExcusedBesides(s, c, id, key)))
    case RemoveCopy(c, works) => works && s.callers[c].key in s.dirs && Needed(s, s.callers[c].key)
    case Rename(c, works) =>
      var p := s.callers[c];
      && Renamed(s.dirs, p.key, p.to, works).1
      && exists i :: i in s.records && i != p.id && s.records[i] == p.key && !Excused(s, i)
    case Update(c, id, namespace, works) =>
      && works && AdmitsMove(unique, s.records, id, namespace)
      && var key := Rekeyed(s.records[id], namespace);
         Taken(s.records, id, key) || (key !in s.dirs && !ExcusedBesides(s, c, id, key))
    case RenameBack(c, works) =>
      var p := s.callers[c];
      if Renamed(s.dirs, p.to, p.key, works).1 then Needed(s, p.to) else Forsaken(s, c, p.id, p.key)
    case _ => false
  }

  lemma StaysExcused(s: Shared, t: Shared, c: CallerId, i: Id)
    requires i in s.records && i in t.records && s.records[i] == t.records[i] && Excused(s, i)
    requires s.callers - {c} == t.callers - {c}
    requires c in s.callers && Excuses(s.callers[c], i, s.records[i]) ==>
               c in t.callers && Excuses(t.callers[c], i, s.records[i])
    ensures Excused(t, i)
  {
    var d :| d in s.callers && Excuses(s.callers[d], i, s.records[i]);
    if d != c {
      assert d in (s.callers - {c}) && d in (t.callers - {c});
      assert (s.callers - {c})[d] == (t.callers - {c})[d];
    }
    assert d in t.callers;
  }

  /** Who excuses a record after `c` has moved on, if not `c`. */
  lemma ExcusedAfter(s: Shared, t: Shared, c: CallerId, i: Id)
    requires i in t.records && s.callers - {c} == t.callers - {c}
    requires c in t.callers ==> !Excuses(t.callers[c], i, t.records[i])
    ensures Excused(t, i) <==> ExcusedBesides(s, c, i, t.records[i])
  {
    assert forall d :: d != c ==> (d in s.callers <==> d in (s.callers - {c})) && (d in t.callers <==> d in (t.callers - {c}));
    assert forall d :: d != c && d in t.callers ==> t.callers[d] == (t.callers - {c})[d] == s.callers[d];
  }

  /** A step that changes neither records nor directories, and takes no record out of hand. */
  lemma QuietStepGood(s: Shared, t: Shared, c: CallerId)
    requires Good(s) && s.records == t.records && s.dirs <= t.dirs && s.callers - {c} == t.callers - {c}
    requires c in s.callers ==> forall i :: i in s.records && Excuses(s.callers[c], i, s.records[i]) ==>
                                              s.records[i] in t.dirs || (c in t.callers && Excuses(t.callers[c], i, s.records[i]))
    ensures Good(t)
  {
    forall i | i in t.records && t.records[i] !in t.dirs ensures Excused(t, i) {
      StaysExcused(s, t, c, i);
    }
  }

  lemma LookingGood(unique: bool, s: Shared, step: Step)
    requires Good(s) && Enabled(s, step)
    requires step.LookUp? || step.Find? || step.Source? || step.Locate? || step.Clone? || step.Reject?
    ensures Good(Apply(unique, s, step))
  {
    QuietStepGood(s, Apply(unique, s, step), step.c);
  }

  lemma InitGood(unique: bool, s: Shared, step: Step)
    requires Good(s) && Enabled(s, step) && step.Init?
    ensures Good(Apply(unique, s, step))
  {
    QuietStepGood(s, Apply(unique, s, step), step.c);
  }

  lemma InsertGoodIff(unique: bool, s: Shared, step: Step)
    requires Good(s) && Enabled(s, step) && step.Insert?
    ensures Good(Apply(unique, s, step)) <==> !Clash(unique, s, step)
  {
    var t := Apply(unique, s, step);
    if step.works && Admits(unique, s.records, step.id, step.key) {
      forall i | i in s.records && s.records[i] !in s.dirs ensures Excused(t, i) {
        StaysExcused(s, t, step.c, i);
      }
      assert t.callers[step.c] == Stored(step.id, step.key);
      assert Excused(t, step.id);
      if InUse(s.records, step.key) {
        var i :| i in s.records && s.records[i] == step.key;
        assert t.records[i] == t.records[step.id];
      }
    } else {
      QuietStepGood(s, t, step.c);
    }
  }

  lemma TakeBackGoodIff(unique: bool, s: Shared, step: Step)
    requires Good(s) && Enabled(s, step) && step.TakeBack?
    ensures Good(Apply(unique, s, step)) <==> !Clash(unique, s, step)
  {
    var t, p := Apply(unique, s, step), s.callers[step.c];
    forall i | i in t.records && (i != p.id || s.records[i] != p.key) && t.records[i] !in t.dirs ensures Excused(t, i) {
      StaysExcused(s, t, step.c, i);
    }
    if p.id in t.records {
      ExcusedAfter(s, t, step.c, p.id);
    }
  }

  lemma UnlinkGood(unique: bool, s: Shared, step: Step)
    requires Good(s) && Enabled(s, step) && step.Unlink?
    ensures Good(Apply(unique, s, step))
  {
    var t := Apply(unique, s, step);
    forall i | i in t.records && t.records[i] !in t.dirs ensures Excused(t, i) {
      StaysExcused(s, t, step.c, i);
    }
  }

  lemma RemoveGoodIff(unique: bool, s: Shared, step: Step)
    requires Good(s) && Enabled(s, step) && (step.Clean? || step.RemoveCopy?)
    ensures Good(Apply(unique, s, step)) <==> !Clash(unique, s, step)
  {
    var t, k := Apply(unique, s, step), s.callers[step.c].key;
    forall i | i in t.records ensures Excused(t, i) <==> Excused(s, i) {
      if Excused(s, i) {
        StaysExcused(s, t, step.c, i);
      }
      if Excused(t, i) {
        StaysExcused(t, s, step.c, i);
      }
    }
    if Clash(unique, s, step) {
      var i :| i in s.records && s.records[i] == k && !Excused(s, i);
      assert t.records[i] !in t.dirs;
    }
  }

  lemma InsertCopyGoodIff(unique: bool, s: Shared, step: Step)
    requires Good(s) && Enabled(s, step) && step.InsertCopy?
    ensures Good(Apply(unique, s, step)) <==> !Clash(unique, s, step)
  {
    var t := Apply(unique, s, step);
    if step.works && Admits(unique, s.records, step.id, step.key) {
      forall i | i in s.records && s.records[i] !in s.dirs ensures Excused(t, i) {
        StaysExcused(s, t, step.c, i);
      }
      ExcusedAfter(s, t, step.c, step.id);
      if InUse(s.records, step.key) {
        var i :| i in s.records && s.records[i] == step.key;
        assert t.records[i] == t.records[step.id];
      }
    } else {
      QuietStepGood(s, t, step.c);
    }
  }

  lemma RenameGoodIff(unique: bool, s: Shared, step: Step)
    requires Good(s) && Enabled(s, step) && step.Rename?
    ensures Good(Apply(unique, s, step)) <==> !Clash(unique, s, step)
  {
    var t, p := Apply(unique, s, step), s.callers[step.c];
    if Renamed(s.dirs, p.key, p.to, step.works).1 {
      forall i | i in t.records && (i != p.id || t.records[i] != p.key) ensures Excused(t, i) <==> Excused(s, i) {
        if Excused(s, i) {
          StaysExcused(s, t, step.c, i);
        }
        if Excused(t, i) {
          StaysExcused(t, s, step.c, i);
        }
      }
      assert t.callers[step.c] == Moved(p.id, p.key, p.to);
      if Clash(unique, s, step) {
        var i :| i in s.records && i != p.id && s.records[i] == p.key && !Excused(s, i);
        assert t.records[i] !in t.dirs;
      }
    } else {
      QuietStepGood(s, t, step.c);
    }
  }

  lemma UpdateGoodIff(unique: bool, s: Shared, step: Step)
    requires Good(s) && Enabled(s, step) && step.Update?
    ensures Good(Apply(unique, s, step)) <==> !Clash(unique, s, step)
  {
    var t := Apply(unique, s, step);
    if step.works && AdmitsMove(unique, s.records, step.id, step.namespace) {
      forall i | i in s.records && i != step.id && s.records[i] !in s.dirs ensures Excused(t, i) {
        StaysExcused(s, t, step.c, i);
      }
      ExcusedAfter(s, t, step.c, step.id);
      if Taken(s.records, step.id, t.records[step.id]) {
        var i :| i in s.records && i != step.id && s.records[i] == t.records[step.id];
        assert t.records[i] == t.records[step.id];
      }
    } else {
      QuietStepGood(s, t, step.c);
    }
  }

  lemma RenameBackGoodIff(unique: bool, s: Shared, step: Step)
    requires Good(s) && Enabled(s, step) && step.RenameBack?
    ensures Good(Apply(unique, s, step)) <==> !Clash(unique, s, step)
  {
    var t, p := Apply(unique, s, step), s.callers[step.c];
    forall i | i in t.records && (i != p.id || t.records[i] != p.key) ensures Excused(t, i) <==> Excused(s, i) {
      if Excused(s, i) {
        StaysExcused(s, t, step.c, i);
      }
      if Excused(t, i) {
        StaysExcused(t, s, step.c, i);
      }
    }
    if p.id in t.records && t.records[p.id] == p.key {
      ExcusedAfter(s, t, step.c, p.id);
    }
    if Renamed(s.dirs, p.to, p.key, step.works).1 && Needed(s, p.to) {
      var i :| i in s.records && s.records[i] == p.to && !Excused(s, i);
      assert t.records[i] !in t.dirs;
    }
  }

  /** A step leaves records unique and housed if and only if it is not a clash. */
  lemma StepGoodIff(unique: bool, s: Shared, step: Step)
    requires Good(s) && Enabled(s, step)
    ensures Good(Apply(unique, s, step)) <==> !Clash(unique, s, step)
  {
    match step
    case LookUp(_, _, _) => LookingGood(unique, s, step);
    case Insert(_, _, _, _) => InsertGoodIff(unique, s, step);
    case Init(_, _) => InitGood(unique, s, step);
    case TakeBack(_, _) => TakeBackGoodIff(unique, s, step);
    case Find(_, _, _) => LookingGood(unique, s, step);
    case Unlink(_, _) => UnlinkGood(unique, s, step);
    case Clean(_, _) => RemoveGoodIff(unique, s, step);
    case Source(_, _, _, _) => LookingGood(unique, s, step);
    case Clone(_, _) => LookingGood(unique, s, step);
    case Reject(_) => LookingGood(unique, s, step);
    case InsertCopy(_, _, _, _) => InsertCopyGoodIff(unique, s, step);
    case RemoveCopy(_, _) => RemoveGoodIff(unique, s, step);
    case Locate(_, _, _, _) => LookingGood(unique, s, step);
    case Rename(_, _) => RenameGoodIff(unique, s, step);
    case Update(_, _, _, _) => UpdateGoodIff(unique, s, step);
    case RenameBack(_, _) => RenameBackGoodIff(unique, s, step);
  }

  ghost predicate GoodThroughout(unique: bool, s: Shared, steps: seq<Step>)
    decreases |steps|
  {
    Good(s) && (steps != [] && Enabled(s, steps[0]) ==> GoodThroughout(unique, Apply(unique, s, steps[0]), steps[1..]))
  }

  ghost predicate NoClash(unique: bool, s: Shared, steps: seq<Step>)
    decreases |steps|
  {
    steps != [] && Enabled(s, steps[0]) ==>
      !Clash(unique, s, steps[0]) && NoClash(unique, Apply(unique, s, steps[0]), steps[1..])
  }

  /** In every interleaving: all is well all the time if and only if no step clashes. */
  lemma {:induction false} GoodThroughoutIff(unique: bool, s: Shared, steps: seq<Step>)
    requires Good(s)
    ensures GoodThroughout(unique, s, steps) <==> NoClash(unique, s, steps)
    decreases |steps|
  {
    if steps != [] && Enabled(s, steps[0]) {
      StepGoodIff(unique, s, steps[0]);
      if !Clash(unique, s, steps[0]) {
        GoodThroughoutIff(unique, Apply(unique, s, steps[0]), steps[1..]);
      }
    }
  }

  function Idle(s: State): Shared { Shared(s.records, s.dirs, map[]) }

  /** Once no operation is in flight, good means what every sequence of operations keeps. */
  lemma QuietIsInv(s: State)
    ensures Good(Idle(s)) <==> Inv(s)
  {
  }

  // ---------------------------------------------------------------------------
  // A store that keeps the keys unique
  // ---------------------------------------------------------------------------

  lemma UniqueStep(s: Shared, step: Step)
    requires UniqueKeys(s.records) && Enabled(s, step)
    ensures UniqueKeys(Apply(true, s, step).records)
  {
  }

  /** Without any lock, in every interleaving, no two records come to share a key. */
  lemma {:induction false} UniqueStoreKeepsKeys(s: Shared, steps: seq<Step>, t: Shared)
    requires UniqueKeys(s.records) && Runs(true, s, steps, t)
    ensures UniqueKeys(t.records)
    decreases |steps|
  {
    if steps != [] {
      UniqueStep(s, steps[0]);
      UniqueStoreKeepsKeys(Apply(true, s, steps[0]), steps[1..], t);
    }
  }

  ghost predicate HousedThroughout(unique: bool, s: Shared, steps: seq<Step>)
    decreases |steps|
  {
    Housed(s) && (steps != [] && Enabled(s, steps[0]) ==> HousedThroughout(unique, Apply(unique, s, steps[0]), steps[1..]))
  }

  /** The clashes that such a store does not rule out: the directory a record needs is gone, or goes. */
  ghost predicate Misplaces(s: Shared, step: Step)
    requires Enabled(s, step)
  {
    match step
    case InsertCopy(c, id, key, works) =>
      works && Admits(true, s.records, id, key) && key !in s.dirs && !ExcusedBesides(s, c, id, key)
    case Update(c, id, namespace, works) =>
      && works && AdmitsMove(true, s.records, id, namespace)
      && var key := Rekeyed(s.records[id], namespace); key !in s.dirs && !ExcusedBesides(s, c, id, key)
    case _ => !step.Insert? && Clash(true, s, step)
  }

  ghost predicate NoneMisplaced(s: Shared, steps: seq<Step>)
    decreases |steps|
  {
    steps != [] && Enabled(s, steps[0]) ==>
      !Misplaces(s, steps[0]) && NoneMisplaced(Apply(true, s, steps[0]), steps[1..])
  }

  /** So every record is housed all the time if and only if no step misplaces a directory; inserts of creates never do. */
  lemma {:induction false} UniqueStoreHousedIff(s: Shared, steps: seq<Step>)
    requires Good(s)
    ensures HousedThroughout(true, s, steps) <==> NoneMisplaced(s, steps)
    decreases |steps|
  {
    if steps != [] && Enabled(s, steps[0]) {
      StepGoodIff(true, s, steps[0]);
      UniqueStep(s, steps[0]);
      assert Clash(true, s, steps[0]) <==> Misplaces(s, steps[0]);
      if !Clash(true, s, steps[0]) {
        UniqueStoreHousedIff(Apply(true, s, steps[0]), steps[1..]);
      }
    }
  }

  // ---------------------------------------------------------------------------
  // One operation per repository at a time
  // ---------------------------------------------------------------------------

  /** The repositories an operation changes. */
  function Keys(p: Phase): set<Key> {
    if p.Located? || p.Moved? || p.Unmoved? then {p.key, p.to} else {p.key}
  }

  predicate Starts(step: Step) { step.LookUp? || step.Find? || step.Source? || step.Locate? }

  function StartKeys(step: Step): set<Key>
    requires Starts(step)
  {
    if step.Locate? then {step.key, Rekeyed(step.key, step.namespace)} else {step.key}
  }

  predicate Free(s: Shared, keys: set<Key>) {
    forall c :: c in s.callers ==> Keys(s.callers[c]) !! keys
  }

  /** As under a lock for each key: no operation starts on a repository that another one is changing. */
  ghost predicate Locked(unique: bool, s: Shared, steps: seq<Step>)
    decreases |steps|
  {
    steps != [] && Enabled(s, steps[0]) ==>
      && (Starts(steps[0]) ==> Free(s, StartKeys(steps[0])))
      && Locked(unique, Apply(unique, s, steps[0]), steps[1..])
  }

  predicate Holds(s: Shared, i: Id, k: Key) { i in s.records && s.records[i] == k }

  /** What an operation may rely on while nobody else touches its repositories. */
  predicate Fits(s: Shared, p: Phase) {
    match p
    case Checked(_, k) => !InUse(s.records, k)
    case Stored(i, k) => Holds(s, i, k)
    case Unmade(i, k) => Holds(s, i, k)
    case Found(i, k) => Holds(s, i, k)
    case Unlinked(k) => !InUse(s.records, k)
    case Sourced(_, _, _) => true
    case Copied(_, k) => k in s.dirs && !InUse(s.records, k)
    case Uncopied(k) => !InUse(s.records, k)
    case Located(i, k, to) => Holds(s, i, k) && to == Rekeyed(k, to.namespace) != k
    case Moved(i, k, to) => Holds(s, i, k) && to == Rekeyed(k, to.namespace) != k && to in s.dirs && !InUse(s.records, to)
    case Unmoved(i, k, to) => Holds(s, i, k) && to == Rekeyed(k, to.namespace) != k && to in s.dirs && !InUse(s.records, to)
  }

  predicate Apart(s: Shared) {
    forall c, d :: c in s.callers && d in s.callers && c != d ==> Keys(s.callers[c]) !! Keys(s.callers[d])
  }

  predicate Exclusive(s: Shared) {
    Apart(s) && forall c :: c in s.callers ==> Fits(s, s.callers[c])
  }

  /** Records and directories of the keys are the same. */
  predicate SameAt(s: Shared, t: Shared, keys: set<Key>) {
    && (forall i :: i in s.records && s.records[i] in keys ==> i in t.records && t.records[i] == s.records[i])
    && (forall i :: i in t.records && t.records[i] in keys ==> i in s.records && s.records[i] == t.records[i])
    && (forall k :: k in keys ==> (k in s.dirs <==> k in t.dirs))
  }

  lemma FitsStill(s: Shared, t: Shared, p: Phase)
    requires SameAt(s, t, Keys(p)) && Fits(s, p)
    ensures Fits(t, p)
  {
    assert p.key in Keys(p);
    if p.Moved? || p.Unmoved? {
      assert p.to in Keys(p);
    }
  }

  /** A step changes nothing but at the keys of its operation. */
  lemma OthersUntouched(unique: bool, s: Shared, step: Step, keys: set<Key>)
    requires Enabled(s, step) && At(s, step.c) && Fits(s, s.callers[step.c]) && Keys(s.callers[step.c]) !! keys
    ensures SameAt(s, Apply(unique, s, step), keys)
  {
    var p := s.callers[step.c];
    assert p.key in Keys(p) && p.key !in keys;
    if p.Located? || p.Moved? || p.Unmoved? {
      assert p.to in Keys(p) && p.to !in keys;
    }
  }

  /** A directory that is not there has no record either, if nobody else is busy with it. */
  lemma NoDirNoRecord(s: Shared, c: CallerId, k: Key)
    requires Good(s) && Apart(s) && At(s, c) && k in Keys(s.callers[c]) && k !in s.dirs
    requires s.callers[c].Sourced? || s.callers[c].Located?
    ensures !InUse(s.records, k)
  {
  }

  /** The operation can rely on what it should, and is busy with no more repositories than before. */
  predicate OwnStays(s: Shared, t: Shared, c: CallerId)
    requires At(s, c)
  {
    c in t.callers ==> Fits(t, t.callers[c]) && Keys(t.callers[c]) <= Keys(s.callers[c])
  }

  lemma CreateFits(unique: bool, s: Shared, step: Step)
    requires Good(s) && Exclusive(s) && Enabled(s, step) && (step.Insert? || step.Init? || step.TakeBack?)
    ensures OwnStays(s, Apply(unique, s, step), step.c)
  {
    assert Fits(s, s.callers[step.c]);
  }

  lemma DeleteFits(unique: bool, s: Shared, step: Step)
    requires Good(s) && Exclusive(s) && Enabled(s, step) && (step.Unlink? || step.Clean?)
    ensures OwnStays(s, Apply(unique, s, step), step.c)
  {
    assert Fits(s, s.callers[step.c]);
  }

  lemma ForkFits(unique: bool, s: Shared, step: Step)
    requires Good(s) && Exclusive(s) && Enabled(s, step) && (step.Clone? || step.Reject? || step.InsertCopy? || step.RemoveCopy?)
    ensures OwnStays(s, Apply(unique, s, step), step.c)
  {
    assert Fits(s, s.callers[step.c]);
    if step.Clone? && s.callers[step.c].key !in s.dirs {
      NoDirNoRecord(s, step.c, s.callers[step.c].key);
    }
  }

  lemma RenameFits(unique: bool, s: Shared, step: Step)
    requires Good(s) && Exclusive(s) && Enabled(s, step) && step.Rename?
    ensures OwnStays(s, Apply(unique, s, step), step.c)
  {
    assert Fits(s, s.callers[step.c]);
    if s.callers[step.c].to !in s.dirs {
      NoDirNoRecord(s, step.c, s.callers[step.c].to);
    }
  }

  lemma UpdateFits(unique: bool, s: Shared, step: Step)
    requires Good(s) && Exclusive(s) && Enabled(s, step) && (step.Update? || step.RenameBack?)
    ensures OwnStays(s, Apply(unique, s, step), step.c)
  {
    assert Fits(s, s.callers[step.c]);
  }

  lemma OwnFits(unique: bool, s: Shared, step: Step)
    requires Good(s) && Exclusive(s) && Enabled(s, step) && At(s, step.c)
    ensures OwnStays(s, Apply(unique, s, step), step.c)
  {
    if step.Insert? || step.Init? || step.TakeBack? {
      CreateFits(unique, s, step);
    } else if step.Unlink? || step.Clean? {
      DeleteFits(unique, s, step);
    } else if step.Rename? {
      RenameFits(unique, s, step);
    } else if step.Update? || step.RenameBack? {
      UpdateFits(unique, s, step);
    } else {
      ForkFits(unique, s, step);
    }
  }

  lemma OneCallerMoves(unique: bool, s: Shared, step: Step)
    requires Enabled(s, step)
    ensures s.callers - {step.c} == Apply(unique, s, step).callers - {step.c}
  {
  }

  lemma StaysApart(s: Shared, t: Shared, c: CallerId)
    requires Apart(s) && At(s, c) && OwnStays(s, t, c) && s.callers - {c} == t.callers - {c}
    ensures Apart(t)
    ensures forall d :: d in t.callers && d != c ==> d in s.callers && t.callers[d] == s.callers[d]
  {
    forall d | d in t.callers && d != c ensures d in s.callers && t.callers[d] == s.callers[d] {
      assert d in t.callers - {c} && d in s.callers - {c};
      assert (t.callers - {c})[d] == (s.callers - {c})[d];
    }
  }

  lemma StartKeepsExclusive(unique: bool, s: Shared, step: Step)
    requires Exclusive(s) && Enabled(s, step) && Starts(step) && Free(s, StartKeys(step))
    ensures Exclusive(Apply(unique, s, step))
  {
    var t := Apply(unique, s, step);
    forall c | c in t.callers ensures Fits(t, t.callers[c]) {
      if c != step.c {
        assert Fits(s, s.callers[c]);
        FitsStill(s, t, s.callers[c]);
      }
    }
    assert step.c in t.callers ==> Keys(t.callers[step.c]) == StartKeys(step);
  }

  lemma OtherFits(unique: bool, s: Shared, step: Step, p: Phase)
    requires Enabled(s, step) && At(s, step.c) && Fits(s, s.callers[step.c])
    requires Keys(s.callers[step.c]) !! Keys(p) && Fits(s, p)
    ensures Fits(Apply(unique, s, step), p)
  {
    OthersUntouched(unique, s, step, Keys(p));
    FitsStill(s, Apply(unique, s, step), p);
  }

  lemma StepKeepsExclusive(unique: bool, s: Shared, step: Step)
    requires Good(s) && Exclusive(s) && Enabled(s, step) && At(s, step.c)
    ensures Exclusive(Apply(unique, s, step))
  {
    var t := Apply(unique, s, step);
    OwnFits(unique, s, step);
    OneCallerMoves(unique, s, step);
    StaysApart(s, t, step.c);
    forall c | c in t.callers ensures Fits(t, t.callers[c]) {
      if c != step.c {
        OtherFits(unique, s, step, s.callers[c]);
      }
    }
  }

  lemma ExclusiveClash(unique: bool, s: Shared, step: Step)
    requires Good(s) && Exclusive(s) && Enabled(s, step) && Clash(unique, s, step)
    ensures step.TakeBack? || step.RenameBack?
  {
    assert Fits(s, s.callers[step.c]);
  }

  /** Every compensation that is needed succeeds. */
  ghost predicate AllUndone(unique: bool, s: Shared, steps: seq<Step>)
    decreases |steps|
  {
    steps != [] && Enabled(s, steps[0]) ==>
      && (steps[0].TakeBack? || steps[0].RenameBack? ==> !Clash(unique, s, steps[0]))
      && AllUndone(unique, Apply(unique, s, steps[0]), steps[1..])
  }

  /** With one operation per key at a time, every interleaving is good all the time. */
  lemma {:induction false} LockedRunIsGood(unique: bool, s: Shared, steps: seq<Step>, t: Shared)
    requires Good(s) && Exclusive(s)
    requires Runs(unique, s, steps, t) && Locked(unique, s, steps) && AllUndone(unique, s, steps)
    ensures NoClash(unique, s, steps) && Good(t)
    decreases |steps|
  {
    if steps != [] {
      if Clash(unique, s, steps[0]) {
        ExclusiveClash(unique, s, steps[0]);
      }
      StepGoodIff(unique, s, steps[0]);
      if Starts(steps[0]) {
        StartKeepsExclusive(unique, s, steps[0]);
      } else {
        StepKeepsExclusive(unique, s, steps[0]);
      }
      LockedRunIsGood(unique, Apply(unique, s, steps[0]), steps[1..], t);
    }
  }

  /** So concurrent operations under such a lock keep what sequences of operations keep. */
  lemma LockedRunsKeepInv(unique: bool, s: State, steps: seq<Step>, t: State)
    requires Inv(s) && Runs(unique, Idle(s), steps, Idle(t))
    requires Locked(unique, Idle(s), steps) && AllUndone(unique, Idle(s), steps)
    ensures Inv(t)
  {
    QuietIsInv(s);
    LockedRunIsGood(unique, Idle(s), steps, Idle(t));
    QuietIsInv(t);
  }

  // ---------------------------------------------------------------------------
  // When a create is overtaken
  // ---------------------------------------------------------------------------

  /** The step gives the record `i` the key `k`, unless the store refuses. */
  predicate Brings(step: Step, i: Id, k: Key) {
    || ((step.Insert? || step.InsertCopy?) && step.works && step.id == i && step.key == k)
    || (step.Update? && step.works && step.id == i && step.namespace == k.namespace)
  }

  /** A record under the key that some step brought. */
  ghost predicate Overtaken(steps: seq<Step>, t: Shared, k: Key) {
    exists j, i :: 0 <= j < |steps| && Brings(steps[j], i, k) && Holds(t, i, k)
  }

  lemma {:induction false} NewRecordWasBrought(unique: bool, s: Shared, steps: seq<Step>, t: Shared, i: Id)
    requires Runs(unique, s, steps, t) && i in t.records && (i in s.records ==> s.records[i] != t.records[i])
    ensures exists j :: 0 <= j < |steps| && Brings(steps[j], i, t.records[i])
    decreases |steps|
  {
    if steps != [] {
      var m := Apply(unique, s, steps[0]);
      if i in m.records && m.records[i] == t.records[i] {
        assert Brings(steps[0], i, t.records[i]);
      } else {
        NewRecordWasBrought(unique, m, steps[1..], t, i);
        var j :| 0 <= j < |steps[1..]| && Brings(steps[1..][j], i, t.records[i]);
        assert Brings(steps[j + 1], i, t.records[i]);
      }
    }
  }

  /**
   What a create meets at its insert. Since its duplicate check found nothing, there is a
   record of its key if and only if another operation brought one after that check and it is
   still there. A store with unique keys then refuses the insert, and only then; the other one
   lets both records in, and only then is that a clash.
   */
  lemma CreatesCollideIff(unique: bool, s: Shared, d: CallerId, id: Id, key: Key, between: seq<Step>, t: Shared)
    requires Enabled(s, LookUp(d, id, key)) && !InUse(s.records, key)
    requires Runs(unique, Apply(unique, s, LookUp(d, id, key)), between, t)
    requires Enabled(t, Insert(d, id, key, true)) && id !in t.records
    ensures InUse(t.records, key) <==> Overtaken(between, t, key)
    ensures unique ==> (Apply(true, t, Insert(d, id, key, true)) == Leave(t, d) <==> Overtaken(between, t, key))
    ensures !unique ==> (Clash(false, t, Insert(d, id, key, true)) <==> Overtaken(between, t, key))
  {
    if InUse(t.records, key) {
      var i :| i in t.records && t.records[i] == key;
      NewRecordWasBrought(unique, Apply(unique, s, LookUp(d, id, key)), between, t, i);
      assert Holds(t, i, key);
    }
    assert Apply(true, t, Insert(d, id, key, true)) == Leave(t, d) ==> InUse(t.records, key) by {
      assert t.records[id := key] != t.records;
    }
  }

  // ---------------------------------------------------------------------------
  // Runs that go wrong
  // ---------------------------------------------------------------------------

  lemma {:induction false} RunsAppend(unique: bool, s: Shared, a: seq<Step>, m: Shared, b: seq<Step>, t: Shared)
    requires Runs(unique, s, a, m) && Runs(unique, m, b, t)
    ensures Runs(unique, s, a + b, t)
    decreases |a|
  {
    if a == [] {
      assert a + b == b;
    } else {
      RunsAppend(unique, Apply(unique, s, a[0]), a[1..], m, b, t);
      assert (a + b)[1..] == a[1..] + b;
    }
  }

  lemma RunsOne(unique: bool, s: Shared, step: Step, t: Shared)
    requires Enabled(s, step) && Apply(unique, s, step) == t
    ensures Runs(unique, s, [step], t)
  {
    assert [step][1..] == [];
  }

  lemma RunsTwo(unique: bool, s: Shared, a: Step, m: Shared, b: Step, t: Shared)
    requires Enabled(s, a) && Apply(unique, s, a) == m && Enabled(m, b) && Apply(unique, m, b) == t
    ensures Runs(unique, s, [a, b], t)
  {
    RunsOne(unique, m, b, t);
    assert [a, b][1..] == [b];
  }

  lemma RunsThree(unique: bool, s: Shared, a: Step, m: Shared, b: Step, n: Shared, c: Step, t: Shared)
    requires Enabled(s, a) && Apply(unique, s, a) == m && Enabled(m, b) && Apply(unique, m, b) == n
    requires Enabled(n, c) && Apply(unique, n, c) == t
    ensures Runs(unique, s, [a, b, c], t)
  {
    RunsTwo(unique, m, b, n, c, t);
    assert [a, b, c][1..] == [b, c];
  }

  lemma BothCheck(s: State, key: Key, i: Id, j: Id)
    requires !InUse(s.records, key)
    ensures Runs(false, Idle(s), [LookUp(0, i, key), LookUp(1, j, key)],
                 Idle(s).(callers := map[0 := Checked(i, key), 1 := Checked(j, key)]))
  {
    RunsTwo(false, Idle(s), LookUp(0, i, key), Idle(s).(callers := map[0 := Checked(i, key)]), LookUp(1, j, key),
            Idle(s).(callers := map[0 := Checked(i, key), 1 := Checked(j, key)]));
  }

  lemma BothInsert(s: Shared, key: Key, i: Id, j: Id)
    requires s.callers == map[0 := Checked(i, key), 1 := Checked(j, key)] && i != j && i !in s.records && j !in s.records
    ensures Runs(false, s, [Insert(0, i, key, true), Insert(1, j, key, true)],
                 Shared(s.records[i := key][j := key], s.dirs, map[0 := Stored(i, key), 1 := Stored(j, key)]))
  {
    var m := Shared(s.records[i := key], s.dirs, map[0 := Stored(i, key), 1 := Checked(j, key)]);
    var t := Shared(s.records[i := key][j := key], s.dirs, map[0 := Stored(i, key), 1 := Stored(j, key)]);
    assert s.callers[0 := Stored(i, key)] == m.callers && m.callers[1 := Stored(j, key)] == t.callers;
    RunsTwo(false, s, Insert(0, i, key, true), m, Insert(1, j, key, true), t);
  }

  lemma BothInit(s: Shared, key: Key, i: Id, j: Id)
    requires s.callers == map[0 := Stored(i, key), 1 := Stored(j, key)]
    ensures Runs(false, s, [Init(0, Works), Init(1, Works)], Shared(s.records, s.dirs + {key}, map[]))
  {
    var m := Shared(s.records, s.dirs + {key}, map[1 := Stored(j, key)]);
    assert s.callers - {0} == m.callers && m.callers - {1} == map[];
    assert key in s.dirs ==> s.dirs + {key} == s.dirs;
    RunsTwo(false, s, Init(0, Works), m, Init(1, Works), m.(callers := map[]));
  }

  /** The memory store: two creates of one key that both check before either inserts both succeed. */
  lemma TwoCreatesCollide(s: State, key: Key, i: Id, j: Id)
    requires i != j && i !in s.records && j !in s.records && !InUse(s.records, key)
    ensures var t := State(s.records[i := key][j := key], s.dirs + {key});
            && Runs(false, Idle(s),
                    [LookUp(0, i, key), LookUp(1, j, key)] + [Insert(0, i, key, true), Insert(1, j, key, true)]
                    + [Init(0, Works), Init(1, Works)],
                    Idle(t))
            && !UniqueKeys(t.records)
  {
    var checked := Idle(s).(callers := map[0 := Checked(i, key), 1 := Checked(j, key)]);
    var r := s.records[i := key][j := key];
    var stored := Shared(r, s.dirs, map[0 := Stored(i, key), 1 := Stored(j, key)]);
    var checks, inserts := [LookUp(0, i, key), LookUp(1, j, key)], [Insert(0, i, key, true), Insert(1, j, key, true)];
    BothCheck(s, key, i, j);
    BothInsert(checked, key, i, j);
    BothInit(stored, key, i, j);
    RunsAppend(false, Idle(s), checks, checked, inserts, stored);
    RunsAppend(false, Idle(s), checks + inserts, stored, [Init(0, Works), Init(1, Works)], Shared(r, s.dirs + {key}, map[]));
    assert r[i] == r[j];
  }

  /** A create that comes while another operation stands still, and finds the directory there. */
  lemma CreateMeanwhile(unique: bool, s: Shared, p: Phase, key: Key, j: Id)
    requires s.callers == map[0 := p] && !InUse(s.records, key) && j !in s.records && key in s.dirs
    ensures Runs(unique, s, CreateSteps(j, key), s.(records := s.records[j := key]))
  {
    var m := s.(callers := map[0 := p, 1 := Checked(j, key)]);
    var n := Shared(s.records[j := key], s.dirs, map[0 := p, 1 := Stored(j, key)]);
    var t := s.(records := s.records[j := key]);
    assert s.callers[1 := Checked(j, key)] == m.callers;
    assert m.callers[1 := Stored(j, key)] == n.callers && n.callers - {1} == s.callers;
    RunsThree(unique, s, LookUp(1, j, key), m, Insert(1, j, key, true), n, Init(1, Works), t);
  }

  function CreateSteps(j: Id, key: Key): seq<Step> {
    [LookUp(1, j, key), Insert(1, j, key, true), Init(1, Works)]
  }

  lemma DeleteHalfway(unique: bool, s: State, key: Key, i: Id)
    requires i in s.records && s.records[i] == key
    ensures Runs(unique, Idle(s), [Find(0, i, key), Unlink(0, true)],
                 Shared(s.records - {i}, s.dirs, map[0 := Unlinked(key)]))
  {
    RunsTwo(unique, Idle(s), Find(0, i, key), Idle(s).(callers := map[0 := Found(i, key)]), Unlink(0, true),
            Shared(s.records - {i}, s.dirs, map[0 := Unlinked(key)]));
  }

  /**
   Any store: a create that comes between a delete's two removals takes the old directory over
   and succeeds; the delete then removes it, and the new record has none.
   */
  lemma CreateInsideDelete(unique: bool, s: State, key: Key, i: Id, j: Id)
    requires Inv(s) && i in s.records && s.records[i] == key && j !in s.records
    ensures var t := State((s.records - {i})[j := key], s.dirs - {key});
            && Runs(unique, Idle(s), [Find(0, i, key), Unlink(0, true)] + CreateSteps(j, key) + [Clean(0, true)], Idle(t))
            && !HasDirs(t)
  {
    var half := Shared(s.records - {i}, s.dirs, map[0 := Unlinked(key)]);
    var made := half.(records := half.records[j := key]);
    DeleteHalfway(unique, s, key, i);
    CreateMeanwhile(unique, half, Unlinked(key), key, j);
    RunsAppend(unique, Idle(s), [Find(0, i, key), Unlink(0, true)], half, CreateSteps(j, key), made);
    assert made.callers - {0} == map[];
    RunsOne(unique, made, Clean(0, true), Shared(made.records, s.dirs - {key}, map[]));
    RunsAppend(unique, Idle(s), [Find(0, i, key), Unlink(0, true)] + CreateSteps(j, key), made, [Clean(0, true)],
               Shared(made.records, s.dirs - {key}, map[]));
    assert made.records[j] == key;
  }

  lemma ForkHalfway(s: State, src: Key, key: Key, i: Id)
    requires InUse(s.records, src) && src in s.dirs && key !in s.dirs
    ensures Runs(true, Idle(s), [Source(0, i, src, key), Clone(0, Works)],
                 Shared(s.records, s.dirs + {key}, map[0 := Copied(i, key)]))
  {
    RunsTwo(true, Idle(s), Source(0, i, src, key), Idle(s).(callers := map[0 := Sourced(i, src, key)]), Clone(0, Works),
            Shared(s.records, s.dirs + {key}, map[0 := Copied(i, key)]));
  }

  lemma ForkGivesUp(s: Shared, key: Key, i: Id)
    requires s.callers == map[0 := Copied(i, key)] && InUse(s.records, key) && key in s.dirs
    ensures Runs(true, s, [InsertCopy(0, i, key, true), RemoveCopy(0, true)], Shared(s.records, s.dirs - {key}, map[]))
  {
    var m := s.(callers := map[0 := Uncopied(key)]);
    assert s.callers[0 := Uncopied(key)] == m.callers && m.callers - {0} == map[];
    RunsTwo(true, s, InsertCopy(0, i, key, true), m, RemoveCopy(0, true), Shared(s.records, s.dirs - {key}, map[]));
  }

  /**
   A store with unique keys: a create of a fork's target, after the clone and before the fork's
   insert, succeeds with the clone's directory. The fork's insert is refused, and its roll-back
   removes the directory.
   */
  lemma CreateInsideFork(s: State, src: Key, key: Key, i: Id, j: Id)
    requires Inv(s) && InUse(s.records, src) && key !in s.dirs && j !in s.records
    ensures var t := State(s.records[j := key], s.dirs);
            && Runs(true, Idle(s), [Source(0, i, src, key), Clone(0, Works)] + CreateSteps(j, key)
                                   + [InsertCopy(0, i, key, true), RemoveCopy(0, true)], Idle(t))
            && !HasDirs(t)
  {
    var half := Shared(s.records, s.dirs + {key}, map[0 := Copied(i, key)]);
    var made := half.(records := s.records[j := key]);
    assert src in s.dirs && !InUse(s.records, key);
    ForkHalfway(s, src, key, i);
    CreateMeanwhile(true, half, Copied(i, key), key, j);
    RunsAppend(true, Idle(s), [Source(0, i, src, key), Clone(0, Works)], half, CreateSteps(j, key), made);
    assert made.records[j] == key && s.dirs + {key} - {key} == s.dirs;
    ForkGivesUp(made, key, i);
    RunsAppend(true, Idle(s), [Source(0, i, src, key), Clone(0, Works)] + CreateSteps(j, key), made,
               [InsertCopy(0, i, key, true), RemoveCopy(0, true)], Shared(made.records, s.dirs, map[]));
  }

  lemma TransferHalfway(s: State, key: Key, namespace: string, i: Id)
    requires i in s.records && s.records[i] == key && key.namespace != namespace
    requires key in s.dirs && Rekeyed(key, namespace) !in s.dirs
    ensures var to := Rekeyed(key, namespace);
            Runs(true, Idle(s), [Locate(0, i, key, namespace), Rename(0, true)],
                 Shared(s.records, s.dirs - {key} + {to}, map[0 := Moved(i, key, to)]))
  {
    var to := Rekeyed(key, namespace);
    RunsTwo(true, Idle(s), Locate(0, i, key, namespace), Idle(s).(callers := map[0 := Located(i, key, to)]), Rename(0, true),
            Shared(s.records, s.dirs - {key} + {to}, map[0 := Moved(i, key, to)]));
  }

  lemma TransferGivesUp(s: Shared, key: Key, namespace: string, i: Id, j: Id)
    requires s.callers == map[0 := Moved(i, key, Rekeyed(key, namespace))] && key !in s.dirs && Rekeyed(key, namespace) in s.dirs
    requires i != j && Holds(s, i, key) && Holds(s, j, Rekeyed(key, namespace))
    ensures Runs(true, s, [Update(0, i, namespace, true), RenameBack(0, true)],
                 Shared(s.records, s.dirs - {Rekeyed(key, namespace)} + {key}, map[]))
  {
    var to := Rekeyed(key, namespace);
    var m := s.(callers := map[0 := Unmoved(i, key, to)]);
    assert s.callers[0 := Unmoved(i, key, to)] == m.callers && m.callers - {0} == map[];
    assert Taken(s.records, i, to);
    RunsTwo(true, s, Update(0, i, namespace, true), m, RenameBack(0, true), Shared(s.records, s.dirs - {to} + {key}, map[]));
  }

  /**
   The same with a transfer: a create of its target succeeds with the moved directory, the
   update is refused, and the roll-back moves the directory away again.
   */
  lemma CreateInsideTransfer(s: State, key: Key, namespace: string, i: Id, j: Id)
    requires Inv(s) && i in s.records && s.records[i] == key && key.namespace != namespace
    requires Rekeyed(key, namespace) !in s.dirs && j !in s.records
    ensures var t := State(s.records[j := Rekeyed(key, namespace)], s.dirs);
            && Runs(true, Idle(s), [Locate(0, i, key, namespace), Rename(0, true)] + CreateSteps(j, Rekeyed(key, namespace))
                                   + [Update(0, i, namespace, true), RenameBack(0, true)], Idle(t))
            && !HasDirs(t)
  {
    var to := Rekeyed(key, namespace);
    var half := Shared(s.records, s.dirs - {key} + {to}, map[0 := Moved(i, key, to)]);
    var made := half.(records := s.records[j := to]);
    assert key in s.dirs && !InUse(s.records, to);
    TransferHalfway(s, key, namespace, i);
    CreateMeanwhile(true, half, Moved(i, key, to), to, j);
    RunsAppend(true, Idle(s), [Locate(0, i, key, namespace), Rename(0, true)], half, CreateSteps(j, to), made);
    assert made.records[j] == to && half.dirs - {to} + {key} == s.dirs;
    TransferGivesUp(made, key, namespace, i, j);
    RunsAppend(true, Idle(s), [Locate(0, i, key, namespace), Rename(0, true)] + CreateSteps(j, to), made,
               [Update(0, i, namespace, true), RenameBack(0, true)], Shared(made.records, s.dirs, map[]));
  }
}
