/**
 Editing files in git trees by path.

 A tree maps names to leaves (files and submodule links) and to sub-trees. Inserting a blob
 rebuilds the trees along its path; removing one rebuilds them and prunes those that became
 empty. Both refine the obvious edit of a flat map from paths to leaves. A path is the list
 of its segments; `accepts` is the tree builder's own check of entry names.
 */
module GitTree {
  import opened Wrappers

  type Name = string
  type Path = seq<Name>
  type Oid = nat

  datatype Kind = Blob | Link

  datatype Node = Leaf(kind: Kind, oid: Oid) | Dir(entries: Tree)

  type Tree = map<Name, Node>

  datatype Error = EmptyPath | BadName(name: Name) | NotFound(name: Name) | NotATree(name: Name)

  datatype Result<+T> = Ok(value: T) | Err(error: Error)

  /** The sub-tree to descend into; anything else under the name counts as absent. */
  function SubTree(t: Tree, name: Name): Tree {
    if name in t && t[name].Dir? then t[name].entries else map[]
  }

  /** `builder.insert` */
  function Bind(accepts: Name -> bool, t: Tree, name: Name, n: Node): Result<Tree> {
    if accepts(name) then Ok(t[name := n]) else Err(BadName(name))
  }

  /** `insert_blob_in_tree` */
  function Insert(accepts: Name -> bool, t: Tree, path: Path, oid: Oid): Result<Tree>
    decreases |path|
  {
    if path == [] then Err(EmptyPath)
    else if |path| == 1 then Bind(accepts, t, path[0], Leaf(Blob, oid))
    else match Insert(accepts, SubTree(t, path[0]), path[1..], oid)
         case Err(e) => Err(e)
         case Ok(sub) => Bind(accepts, t, path[0], Dir(sub))
  }

  /** `remove_blob_from_tree` */
  function Remove(accepts: Name -> bool, t: Tree, path: Path): Result<Tree>
    decreases |path|
  {
    if path == [] then Err(EmptyPath)
    else if path[0] !in t then Err(NotFound(path[0]))
    else if |path| == 1 then Ok(t - {path[0]})
    else if !t[path[0]].Dir? then Err(NotATree(path[0]))
    else match Remove(accepts, t[path[0]].entries, path[1..])
         case Err(e) => Err(e)
         case Ok(sub) => if sub == map[] then Ok(t - {path[0]}) else Bind(accepts, t, path[0], Dir(sub))
  }

  /** What is found at a path, a sub-tree included. */
  function NodeAt(t: Tree, path: Path): Option<Node>
    decreases |path|
  {
    if path == [] || path[0] !in t then None
    else if |path| == 1 then Some(t[path[0]])
    else if t[path[0]].Dir? then NodeAt(t[path[0]].entries, path[1..])
    else None
  }

  function LeafAt(t: Tree, path: Path): Option<Node> {
    var n := NodeAt(t, path);
    if n.Some? && n.value.Leaf? then n else None
  }

  // ---------------------------------------------------------------------------
  // The flat view
  // ---------------------------------------------------------------------------

  type Flat = imap<Path, Node>

  ghost function Flatten(t: Tree): Flat {
    imap p: Path | LeafAt(t, p).Some? :: LeafAt(t, p).value
  }

  /** One path lies on the way to the other. */
  predicate Related(p: Path, q: Path) { p <= q || q <= p }

  /** Set the leaf at `p`; leaves above and below it give way. */
  ghost function FlatInsert(m: Flat, p: Path, n: Node): Flat {
    imap q: Path | q == p || (q in m && !Related(p, q)) :: if q == p then n else m[q]
  }

  /** Drop the leaf at `p`, or all leaves below it. */
  ghost function FlatRemove(m: Flat, p: Path): Flat {
    imap q: Path | q in m && !(p <= q) :: m[q]
  }

  lemma PrefixStep(p: Path, q: Path)
    requires p != [] && q != []
    ensures p <= q <==> p[0] == q[0] && p[1..] <= q[1..]
  {
    if p[0] == q[0] && p[1..] <= q[1..] {
      assert p == [p[0]] + p[1..] && q == [q[0]] + q[1..];
    }
  }

  lemma {:induction false} InsertAt(accepts: Name -> bool, t: Tree, path: Path, oid: Oid, q: Path)
    requires Insert(accepts, t, path, oid).Ok?
    ensures LeafAt(Insert(accepts, t, path, oid).value, q) ==
            if q == path then Some(Leaf(Blob, oid)) else if Related(path, q) then None else LeafAt(t, q)
    decreases |path|
  {
    if q != [] {
      PrefixStep(path, q);
      PrefixStep(q, path);
      if q[0] == path[0] && |path| > 1 && |q| > 1 {
        InsertAt(accepts, SubTree(t, path[0]), path[1..], oid, q[1..]);
        assert q == path <==> q[1..] == path[1..] by {
          assert path == [path[0]] + path[1..] && q == [q[0]] + q[1..];
        }
      }
    }
  }

  lemma {:induction false} RemoveAt(accepts: Name -> bool, t: Tree, path: Path, q: Path)
    requires Remove(accepts, t, path).Ok?
    ensures LeafAt(Remove(accepts, t, path).value, q) == if path <= q then None else LeafAt(t, q)
    decreases |path|
  {
    if q != [] {
      PrefixStep(path, q);
      if q[0] == path[0] && |path| > 1 && |q| > 1 {
        RemoveAt(accepts, t[path[0]].entries, path[1..], q[1..]);
      }
    }
  }

  lemma {:induction false} InsertSucceedsIff(accepts: Name -> bool, t: Tree, path: Path, oid: Oid)
    ensures Insert(accepts, t, path, oid).Ok? <==> path != [] && forall i :: 0 <= i < |path| ==> accepts(path[i])
    decreases |path|
  {
    if |path| > 1 {
      InsertSucceedsIff(accepts, SubTree(t, path[0]), path[1..], oid);
      if forall i :: 0 <= i < |path| ==> accepts(path[i]) {
        assert forall i :: 0 <= i < |path[1..]| ==> path[1..][i] == path[i + 1];
      }
      if forall i :: 0 <= i < |path[1..]| ==> accepts(path[1..][i]) {
        assert forall i :: 1 <= i < |path| ==> path[i] == path[1..][i - 1];
      }
    }
  }

  /** Inserting a blob is the edit of the flat map: conflicting leaves go, all others stay. */
  lemma InsertRefines(accepts: Name -> bool, t: Tree, path: Path, oid: Oid)
    ensures Insert(accepts, t, path, oid).Ok? <==> path != [] && forall i :: 0 <= i < |path| ==> accepts(path[i])
    ensures var r := Insert(accepts, t, path, oid);
            r.Ok? ==> Flatten(r.value) == FlatInsert(Flatten(t), path, Leaf(Blob, oid))
  {
    InsertSucceedsIff(accepts, t, path, oid);
    var r := Insert(accepts, t, path, oid);
    if r.Ok? {
      forall q
        ensures q in Flatten(r.value) <==> q in FlatInsert(Flatten(t), path, Leaf(Blob, oid))
        ensures q in Flatten(r.value) ==> Flatten(r.value)[q] == FlatInsert(Flatten(t), path, Leaf(Blob, oid))[q]
      {
        InsertAt(accepts, t, path, oid, q);
      }
    }
  }

  // ---------------------------------------------------------------------------
  // Trees without empty sub-trees
  // ---------------------------------------------------------------------------

  ghost predicate NormalNode(n: Node) {
    n.Dir? ==> n.entries != map[] && forall k :: k in n.entries ==> NormalNode(n.entries[k])
  }

  /** No sub-tree is empty, at any depth. */
  ghost predicate Normal(t: Tree) {
    forall k :: k in t ==> NormalNode(t[k])
  }

  ghost predicate AcceptedNode(accepts: Name -> bool, n: Node) {
    n.Dir? ==> forall k :: k in n.entries ==> accepts(k) && AcceptedNode(accepts, n.entries[k])
  }

  /** Every entry name was let through by the tree builder. */
  ghost predicate Accepted(accepts: Name -> bool, t: Tree) {
    forall k :: k in t ==> accepts(k) && AcceptedNode(accepts, t[k])
  }

  /** What both edits keep. */
  ghost predicate WellFormed(accepts: Name -> bool, t: Tree) {
    Normal(t) && Accepted(accepts, t)
  }

  lemma {:induction false} InsertKeepsWellFormed(accepts: Name -> bool, t: Tree, path: Path, oid: Oid)
    requires WellFormed(accepts, t) && Insert(accepts, t, path, oid).Ok?
    ensures WellFormed(accepts, Insert(accepts, t, path, oid).value)
    ensures Insert(accepts, t, path, oid).value != map[]
    decreases |path|
  {
    if |path| > 1 {
      InsertKeepsWellFormed(accepts, SubTree(t, path[0]), path[1..], oid);
    }
  }

  lemma {:induction false} RemoveKeepsWellFormed(accepts: Name -> bool, t: Tree, path: Path)
    requires WellFormed(accepts, t) && Remove(accepts, t, path).Ok?
    ensures WellFormed(accepts, Remove(accepts, t, path).value)
    decreases |path|
  {
    if |path| > 1 {
      RemoveKeepsWellFormed(accepts, t[path[0]].entries, path[1..]);
    }
  }

  lemma {:induction false} RemoveSucceedsIff(accepts: Name -> bool, t: Tree, path: Path)
    requires Accepted(accepts, t)
    ensures Remove(accepts, t, path).Ok? <==> NodeAt(t, path).Some?
    decreases |path|
  {
    if |path| > 1 && path[0] in t && t[path[0]].Dir? {
      RemoveSucceedsIff(accepts, t[path[0]].entries, path[1..]);
    }
  }

  /** Some leaf lies at or below every entry of a tree without empty sub-trees. */
  lemma {:induction false} LeafBelow(n: Node) returns (p: Path)
    requires NormalNode(n) && n.Dir?
    ensures p != [] && LeafAt(n.entries, p).Some?
    decreases n
  {
    assert n.entries.Keys != {};
    var k :| k in n.entries.Keys;
    if n.entries[k].Leaf? {
      p := [k];
    } else {
      var rest := LeafBelow(n.entries[k]);
      p := [k] + rest;
      assert p[1..] == rest;
    }
  }

  lemma {:induction false} LeafBelowPath(t: Tree, path: Path) returns (q: Path)
    requires Normal(t) && NodeAt(t, path).Some?
    ensures path <= q && q in Flatten(t)
    decreases |path|
  {
    if |path| > 1 {
      var rest := LeafBelowPath(t[path[0]].entries, path[1..]);
      q := [path[0]] + rest;
      assert q[1..] == rest;
      PrefixStep(path, q);
    } else if t[path[0]].Leaf? {
      q := path;
    } else {
      var rest := LeafBelow(t[path[0]]);
      q := path + rest;
      assert q[1..] == rest;
    }
  }

  lemma {:induction false} LeafImpliesNodeAbove(t: Tree, path: Path, q: Path)
    requires path != [] && path <= q && NodeAt(t, q).Some?
    ensures NodeAt(t, path).Some?
    decreases |path|
  {
    PrefixStep(path, q);
    if |path| > 1 {
      LeafImpliesNodeAbove(t[path[0]].entries, path[1..], q[1..]);
    }
  }

  /** Removal succeeds exactly when some leaf lies at or below the path, and drops just those. */
  lemma RemoveRefines(accepts: Name -> bool, t: Tree, path: Path)
    requires WellFormed(accepts, t)
    ensures Remove(accepts, t, path).Ok? <==> path != [] && exists q :: q in Flatten(t) && path <= q
    ensures var r := Remove(accepts, t, path);
            r.Ok? ==> Flatten(r.value) == FlatRemove(Flatten(t), path)
  {
    RemoveSucceedsIff(accepts, t, path);
    if NodeAt(t, path).Some? {
      var q := LeafBelowPath(t, path);
    }
    if path != [] && exists q :: q in Flatten(t) && path <= q {
      var q :| q in Flatten(t) && path <= q;
      LeafImpliesNodeAbove(t, path, q);
    }
    var r := Remove(accepts, t, path);
    if r.Ok? {
      forall q
        ensures q in Flatten(r.value) <==> q in FlatRemove(Flatten(t), path)
        ensures q in Flatten(r.value) ==> Flatten(r.value)[q] == FlatRemove(Flatten(t), path)[q]
      {
        RemoveAt(accepts, t, path, q);
      }
    }
  }

  /** Descending one level in the flat view. */
  lemma FlattenBelow(t: Tree, k: Name, p: Path)
    requires p != []
    ensures LeafAt(t, [k] + p) == LeafAt(SubTree(t, k), p)
  {
    assert ([k] + p)[1..] == p;
  }

  /** A tree without empty sub-trees is determined by its leaves. */
  lemma {:induction false} NormalFormIsUnique(a: Tree, b: Tree)
    requires Normal(a) && Normal(b)
    requires forall p :: LeafAt(a, p) == LeafAt(b, p)
    ensures a == b
    decreases Dir(a)
  {
    forall k
      ensures k in a <==> k in b
      ensures k in a ==> a[k] == b[k]
    {
      if k in a {
        EntriesAgree(a, b, k);
      }
      if k in b {
        EntriesAgree(b, a, k);
      }
      if k in a && a[k].Dir? {
        forall p
          ensures LeafAt(a[k].entries, p) == LeafAt(b[k].entries, p)
        {
          if p != [] {
            FlattenBelow(a, k, p);
            FlattenBelow(b, k, p);
          }
        }
        NormalFormIsUnique(a[k].entries, b[k].entries);
      }
    }
  }

  lemma EntriesAgree(a: Tree, b: Tree, k: Name)
    requires Normal(a) && k in a
    requires forall p :: LeafAt(a, p) == LeafAt(b, p)
    ensures k in b
    ensures a[k].Dir? <==> b[k].Dir?
    ensures a[k].Leaf? ==> a[k] == b[k]
  {
    assert LeafAt(a, [k]) == LeafAt(b, [k]);
    if a[k].Dir? {
      var p := LeafBelow(a[k]);
      FlattenBelow(a, k, p);
      FlattenBelow(b, k, p);
      assert LeafAt(a, [k] + p) == LeafAt(b, [k] + p);
    }
  }

  /** No leaf lies on the way to `p`, at it, or below it. */
  ghost predicate Free(t: Tree, p: Path) {
    forall q :: q in Flatten(t) ==> !Related(p, q)
  }

  /**
   Inserting a blob and removing it again gives the original tree back exactly when the
   path was free.
   */
  lemma InsertThenRemove(accepts: Name -> bool, t: Tree, path: Path, oid: Oid)
    requires WellFormed(accepts, t) && Insert(accepts, t, path, oid).Ok?
    ensures Remove(accepts, Insert(accepts, t, path, oid).value, path) == Ok(t) <==> Free(t, path)
  {
    var t1 := Insert(accepts, t, path, oid).value;
    InsertKeepsWellFormed(accepts, t, path, oid);
    InsertAt(accepts, t, path, oid, path);
    assert path in Flatten(t1) && path <= path;
    RemoveRefines(accepts, t1, path);
    var t2 := Remove(accepts, t1, path).value;
    RemoveKeepsWellFormed(accepts, t1, path);
    forall q
      ensures LeafAt(t2, q) == if Related(path, q) then None else LeafAt(t, q)
    {
      InsertAt(accepts, t, path, oid, q);
      RemoveAt(accepts, t1, path, q);
    }
    if Free(t, path) {
      forall q
        ensures LeafAt(t2, q) == LeafAt(t, q)
      {
        assert q in Flatten(t) ==> !Related(path, q);
      }
      NormalFormIsUnique(t2, t);
    } else {
      var q :| q in Flatten(t) && Related(path, q);
      assert LeafAt(t2, q) != LeafAt(t, q);
    }
  }

  // ---------------------------------------------------------------------------
  // Batches
  // ---------------------------------------------------------------------------

  datatype File = File(path: Path, oid: Oid)

  predicate Insertable(accepts: Name -> bool, path: Path) {
    path != [] && forall i :: 0 <= i < |path| ==> accepts(path[i])
  }

  ghost predicate Present(m: Flat, p: Path) {
    p != [] && exists q :: q in m && p <= q
  }

  ghost function FlatDeletes(m: Flat, deletes: seq<Path>): Flat {
    if deletes == [] then m
    else FlatRemove(FlatDeletes(m, deletes[..|deletes| - 1]), deletes[|deletes| - 1])
  }

  ghost function FlatInserts(m: Flat, files: seq<File>): Flat {
    if files == [] then m
    else var f := files[|files| - 1]; FlatInsert(FlatInserts(m, files[..|files| - 1]), f.path, Leaf(Blob, f.oid))
  }

  function DeleteAll(accepts: Name -> bool, t: Tree, deletes: seq<Path>): Result<Tree> {
    if deletes == [] then Ok(t)
    else match DeleteAll(accepts, t, deletes[..|deletes| - 1])
         case Err(e) => Err(e)
         case Ok(u) => Remove(accepts, u, deletes[|deletes| - 1])
  }

  function InsertAll(accepts: Name -> bool, t: Tree, files: seq<File>): Result<Tree> {
    if files == [] then Ok(t)
    else match InsertAll(accepts, t, files[..|files| - 1])
         case Err(e) => Err(e)
         case Ok(u) => Insert(accepts, u, files[|files| - 1].path, files[|files| - 1].oid)
  }

  /** `t` is a well-formed tree for the flat map `m`. */
  ghost predicate Represents(accepts: Name -> bool, t: Tree, m: Flat) {
    WellFormed(accepts, t) && Flatten(t) == m
  }

  lemma DeleteRefines(accepts: Name -> bool, t: Tree, m: Flat, path: Path)
    requires Represents(accepts, t, m)
    ensures Remove(accepts, t, path).Ok? <==> Present(m, path)
    ensures Remove(accepts, t, path).Ok? ==> Represents(accepts, Remove(accepts, t, path).value, FlatRemove(m, path))
  {
    RemoveRefines(accepts, t, path);
    if Remove(accepts, t, path).Ok? {
      RemoveKeepsWellFormed(accepts, t, path);
    }
  }

  lemma PutRefines(accepts: Name -> bool, t: Tree, m: Flat, f: File)
    requires Represents(accepts, t, m)
    ensures Insert(accepts, t, f.path, f.oid).Ok? <==> Insertable(accepts, f.path)
    ensures Insert(accepts, t, f.path, f.oid).Ok? ==>
              Represents(accepts, Insert(accepts, t, f.path, f.oid).value, FlatInsert(m, f.path, Leaf(Blob, f.oid)))
  {
    InsertRefines(accepts, t, f.path, f.oid);
    if Insert(accepts, t, f.path, f.oid).Ok? {
      InsertKeepsWellFormed(accepts, t, f.path, f.oid);
    }
  }

  /** Every delete finds something once the deletes before it are done. */
  ghost predicate Deletable(m: Flat, deletes: seq<Path>) {
    forall i :: 0 <= i < |deletes| ==> Present(FlatDeletes(m, deletes[..i]), deletes[i])
  }

  lemma DeletableSnoc(m: Flat, deletes: seq<Path>)
    requires deletes != []
    ensures var n := |deletes| - 1;
            Deletable(m, deletes) <==> Deletable(m, deletes[..n]) && Present(FlatDeletes(m, deletes[..n]), deletes[n])
  {
    var n := |deletes| - 1;
    assert forall i :: 0 <= i < n ==> deletes[..n][..i] == deletes[..i];
    if Deletable(m, deletes[..n]) && Present(FlatDeletes(m, deletes[..n]), deletes[n]) {
      forall i | 0 <= i < |deletes|
        ensures Present(FlatDeletes(m, deletes[..i]), deletes[i])
      {
        if i < n {
          assert deletes[..n][i] == deletes[i];
        }
      }
    }
    if Deletable(m, deletes) {
      forall i | 0 <= i < n
        ensures Present(FlatDeletes(m, deletes[..n][..i]), deletes[..n][i])
      {
        assert Present(FlatDeletes(m, deletes[..i]), deletes[i]);
      }
    }
  }

  lemma {:induction false} DeleteAllRefines(accepts: Name -> bool, t: Tree, m: Flat, deletes: seq<Path>)
    requires Represents(accepts, t, m)
    ensures DeleteAll(accepts, t, deletes).Ok? <==> Deletable(m, deletes)
    ensures DeleteAll(accepts, t, deletes).Ok? ==>
              Represents(accepts, DeleteAll(accepts, t, deletes).value, FlatDeletes(m, deletes))
    decreases |deletes|
  {
    if deletes != [] {
      var n := |deletes| - 1;
      DeleteAllRefines(accepts, t, m, deletes[..n]);
      DeletableSnoc(m, deletes);
      if DeleteAll(accepts, t, deletes[..n]).Ok? {
        DeleteRefines(accepts, DeleteAll(accepts, t, deletes[..n]).value, FlatDeletes(m, deletes[..n]), deletes[n]);
      }
    }
  }

  predicate AllInsertable(accepts: Name -> bool, files: seq<File>) {
    forall i :: 0 <= i < |files| ==> Insertable(accepts, files[i].path)
  }

  lemma {:induction false} InsertAllRefines(accepts: Name -> bool, t: Tree, m: Flat, files: seq<File>)
    requires Represents(accepts, t, m)
    ensures InsertAll(accepts, t, files).Ok? <==> AllInsertable(accepts, files)
    ensures InsertAll(accepts, t, files).Ok? ==>
              Represents(accepts, InsertAll(accepts, t, files).value, FlatInserts(m, files))
    decreases |files|
  {
    if files != [] {
      var n := |files| - 1;
      InsertAllRefines(accepts, t, m, files[..n]);
      assert AllInsertable(accepts, files) <==> AllInsertable(accepts, files[..n]) && Insertable(accepts, files[n].path);
      if InsertAll(accepts, t, files[..n]).Ok? {
        PutRefines(accepts, InsertAll(accepts, t, files[..n]).value, FlatInserts(m, files[..n]), files[n]);
      }
    }
  }

  lemma {:induction false} DeleteAllFailsEarly(accepts: Name -> bool, t: Tree, deletes: seq<Path>, i: nat)
    requires i <= |deletes| && DeleteAll(accepts, t, deletes[..i]).Err?
    ensures DeleteAll(accepts, t, deletes) == DeleteAll(accepts, t, deletes[..i])
    decreases |deletes| - i
  {
    if i < |deletes| {
      assert deletes[..i + 1][..i] == deletes[..i];
      DeleteAllFailsEarly(accepts, t, deletes, i + 1);
    } else {
      assert deletes[..i] == deletes;
    }
  }

  lemma {:induction false} InsertAllFailsEarly(accepts: Name -> bool, t: Tree, files: seq<File>, i: nat)
    requires i <= |files| && InsertAll(accepts, t, files[..i]).Err?
    ensures InsertAll(accepts, t, files) == InsertAll(accepts, t, files[..i])
    decreases |files| - i
  {
    if i < |files| {
      assert files[..i + 1][..i] == files[..i];
      InsertAllFailsEarly(accepts, t, files, i + 1);
    } else {
      assert files[..i] == files;
    }
  }

  method ApplyDeletes(accepts: Name -> bool, base: Tree, deletes: seq<Path>) returns (r: Result<Tree>)
    ensures r == DeleteAll(accepts, base, deletes)
  {
    r := Ok(base);
    for i := 0 to |deletes|
      invariant r == DeleteAll(accepts, base, deletes[..i]) && r.Ok?
    {
      assert deletes[..i + 1][..i] == deletes[..i];
      r := Remove(accepts, r.value, deletes[i]);
      if r.Err? {
        DeleteAllFailsEarly(accepts, base, deletes, i + 1);
        return;
      }
    }
    assert deletes[..|deletes|] == deletes;
  }

  method ApplyInserts(accepts: Name -> bool, base: Tree, files: seq<File>) returns (r: Result<Tree>)
    ensures r == InsertAll(accepts, base, files)
  {
    r := Ok(base);
    for i := 0 to |files|
      invariant r == InsertAll(accepts, base, files[..i]) && r.Ok?
    {
      assert files[..i + 1][..i] == files[..i];
      r := Insert(accepts, r.value, files[i].path, files[i].oid);
      if r.Err? {
        InsertAllFailsEarly(accepts, base, files, i + 1);
        return;
      }
    }
    assert files[..|files|] == files;
  }

  /**
   `create_files_batch`: all deletes, then all inserts, the first error ending it. It
   succeeds exactly when the same edits of the flat map make sense, and then yields the tree
   of the edited map, with no empty sub-tree in it.
   */
  method CreateFilesBatch(accepts: Name -> bool, base: Tree, deletes: seq<Path>, files: seq<File>)
    returns (r: Result<Tree>)
    requires WellFormed(accepts, base)
    ensures r.Ok? <==> Deletable(Flatten(base), deletes) && AllInsertable(accepts, files)
    ensures r.Ok? ==> Represents(accepts, r.value, FlatInserts(FlatDeletes(Flatten(base), deletes), files))
  {
    r := ApplyDeletes(accepts, base, deletes);
    DeleteAllRefines(accepts, base, Flatten(base), deletes);
    if r.Ok? {
      InsertAllRefines(accepts, r.value, FlatDeletes(Flatten(base), deletes), files);
      r := ApplyInserts(accepts, r.value, files);
    }
  }

  // ---------------------------------------------------------------------------
  // Listing
  // ---------------------------------------------------------------------------

  datatype Entry = Entry(path: Path, isDir: bool)

  /** The listing shows files and directories; submodule links are passed over. */
  predicate Shown(n: Node, isDir: bool) {
    if isDir then n.Dir? else n.Leaf? && n.kind.Blob?
  }

  ghost predicate Lists(t: Tree, prefix: Path, names: set<Name>, out: seq<Entry>) {
    && (forall i, j :: 0 <= i < j < |out| ==> out[i].path != out[j].path)
    && (forall i :: 0 <= i < |out| ==> Listed(t, prefix, names, out[i]))
    && (forall p: Path, isDir :: p != [] && p[0] in names && NodeAt(t, p).Some? && Shown(NodeAt(t, p).value, isDir)
                                 ==> Entry(prefix + p, isDir) in out)
  }

  ghost predicate Listed(t: Tree, prefix: Path, names: set<Name>, e: Entry) {
    && |prefix| < |e.path| && prefix <= e.path && e.path[|prefix|] in names
    && NodeAt(t, e.path[|prefix|..]).Some? && Shown(NodeAt(t, e.path[|prefix|..]).value, e.isDir)
  }

  /**
   `list_tree_entries_recursive`, visiting the names in any order: the listing names each
   file and directory exactly once, precisely those that lookup finds.
   */
  method ListRecursive(t: Tree, prefix: Path) returns (out: seq<Entry>)
    ensures Lists(t, prefix, t.Keys, out)
    decreases Dir(t)
  {
    out := [];
    var todo := t.Keys;
    while todo != {}
      invariant todo <= t.Keys
      invariant Lists(t, prefix, t.Keys - todo, out)
      decreases |todo|
    {
      var name :| name in todo;
      todo := todo - {name};
      var part: seq<Entry> := [];
      if t[name].Dir? {
        var below := ListRecursive(t[name].entries, prefix + [name]);
        part := [Entry(prefix + [name], true)] + below;
        ListsDirectory(t, prefix, name, below);
      } else if t[name].kind.Blob? {
        part := [Entry(prefix + [name], false)];
        ListsFile(t, prefix, name);
      }
      ListsJoin(t, prefix, t.Keys - todo - {name}, name, out, part);
      assert t.Keys - todo == (t.Keys - todo - {name}) + {name};
      out := out + part;
    }
    assert t.Keys - todo == t.Keys;
  }

  lemma ListsFile(t: Tree, prefix: Path, name: Name)
    requires name in t && t[name].Leaf? && t[name].kind.Blob?
    ensures Lists(t, prefix, {name}, [Entry(prefix + [name], false)])
  {
    assert (prefix + [name])[|prefix|..] == [name];
    forall p: Path, isDir | p != [] && p[0] in {name} && NodeAt(t, p).Some? && Shown(NodeAt(t, p).value, isDir)
      ensures Entry(prefix + p, isDir) in [Entry(prefix + [name], false)]
    {
      assert p == [name];
    }
  }

  lemma ListedBelow(t: Tree, prefix: Path, name: Name, e: Entry)
    requires name in t && t[name].Dir? && Listed(t[name].entries, prefix + [name], t[name].entries.Keys, e)
    ensures Listed(t, prefix, {name}, e) && e.path != prefix + [name]
  {
    assert e.path[|prefix|] == (prefix + [name])[|prefix|] == name;
    assert e.path[|prefix|..][1..] == e.path[|prefix + [name]|..];
  }

  lemma ListsDirectory(t: Tree, prefix: Path, name: Name, below: seq<Entry>)
    requires name in t && t[name].Dir?
    requires Lists(t[name].entries, prefix + [name], t[name].entries.Keys, below)
    ensures Lists(t, prefix, {name}, [Entry(prefix + [name], true)] + below)
  {
    var part := [Entry(prefix + [name], true)] + below;
    assert (prefix + [name])[|prefix|..] == [name];
    forall i | 0 <= i < |below|
      ensures Listed(t, prefix, {name}, below[i]) && below[i].path != prefix + [name]
    {
      ListedBelow(t, prefix, name, below[i]);
    }
    forall p: Path, isDir | p != [] && p[0] in {name} && NodeAt(t, p).Some? && Shown(NodeAt(t, p).value, isDir)
      ensures Entry(prefix + p, isDir) in part
    {
      if |p| == 1 {
        assert p == [name];
        assert part[0] == Entry(prefix + p, isDir);
      } else {
        var rest := p[1..];
        assert prefix + [name] + rest == prefix + p;
        assert NodeAt(t[name].entries, rest) == NodeAt(t, p) && rest[0] in t[name].entries.Keys;
        assert Entry(prefix + [name] + rest, isDir) in below;
      }
    }
  }

  lemma ListsJoin(t: Tree, prefix: Path, names: set<Name>, name: Name, out: seq<Entry>, part: seq<Entry>)
    requires name in t && name !in names
    requires Lists(t, prefix, names, out)
    requires Lists(t, prefix, {name}, part) || (part == [] && t[name].Leaf? && t[name].kind.Link?)
    ensures Lists(t, prefix, names + {name}, out + part)
  {
    forall p: Path, isDir | p != [] && p[0] in names + {name} && NodeAt(t, p).Some? && Shown(NodeAt(t, p).value, isDir)
      ensures Entry(prefix + p, isDir) in out + part
    {
      if p[0] in names {
        assert Entry(prefix + p, isDir) in out;
      } else {
        assert part == [] ==> |p| == 1;
        assert Entry(prefix + p, isDir) in part;
      }
    }
    forall i, j | 0 <= i < j < |out + part|
      ensures (out + part)[i].path != (out + part)[j].path
    {
      if i < |out| <= j {
        assert Listed(t, prefix, names, out[i]) && Listed(t, prefix, {name}, part[j - |out|]);
      }
    }
  }

  /** At the root: a file path is listed once, exactly when lookup finds a blob there. */
  lemma ListingAgreesWithLookup(t: Tree, out: seq<Entry>, p: Path)
    requires Lists(t, [], t.Keys, out)
    ensures Entry(p, false) in out <==> LeafAt(t, p).Some? && LeafAt(t, p).value.kind.Blob?
    ensures forall i, j :: 0 <= i < |out| && 0 <= j < |out| && out[i].path == p && out[j].path == p ==> i == j
  {
    if Entry(p, false) in out {
      var i :| 0 <= i < |out| && out[i] == Entry(p, false);
      assert Listed(t, [], t.Keys, out[i]);
      assert p[0..] == p;
    }
    if LeafAt(t, p).Some? && LeafAt(t, p).value.kind.Blob? {
      assert [] + p == p;
      assert Entry([] + p, false) in out;
    }
  }
}
