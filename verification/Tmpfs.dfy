/** The in-memory file system: a slab of inodes whose link counts are kept by
    counted directory entries, and whose slots are freed when an inode has
    neither entries nor live nodes.

    `heap` holds the inode objects by identity (what an `Arc<Inode>` points to),
    `slab` the occupied slots, and `nodes` the live `MemoryNode`s, one element
    per node, each naming the object it holds.  The hash maps of all directories
    are kept together in `names`, keyed by directory and name. */
module Tmpfs {
  type Id = int
  type Ino = int

  datatype FileName = FileName(text: string)
  datatype Slot = Slot(dir: Id, name: FileName)
  datatype Inode = Inode(ino: Ino, nlink: int, isDir: bool)
  datatype Fs = Fs(heap: map<Id, Inode>, names: map<Slot, Ino>, slab: map<Ino, Id>, nodes: multiset<Id>)

  datatype Error = ENOTDIR | EEXIST | ENOENT | ENOTEMPTY
  datatype Outcome = Done | Node(id: Id) | Err(error: Error)

  /** What the VFS does with the destination node that `rename` looks up: it was
      cached already, it stays cached, or it is dropped when the lookup ends. */
  datatype Hold = Hit | Kept | Temporary

  const DOT := FileName(".")
  const DOTDOT := FileName("..")

  /** The entries of one directory. */
  function Listing(names: map<Slot, Ino>, d: Id): set<Slot> {
    set p | p in names && p.dir == d
  }

  /** The directory entries, in any directory, that carry inode number `i`. */
  function Refs(names: map<Slot, Ino>, i: Ino): set<Slot> {
    set p | p in names && names[p] == i
  }

  // ---------------------------------------------------------------- primitives

  /** `Arc::strong_count`: the slab's clone, one per node, and the caller's temporaries. */
  function StrongCount(fs: Fs, x: Id, temps: nat): nat
    requires x in fs.heap
  {
    (if fs.heap[x].ino in fs.slab && fs.slab[fs.heap[x].ino] == x then 1 else 0) + fs.nodes[x] + temps
  }

  /** `release_inode`.  At a strong count of two only the slab and the releasing
      caller hold the inode, so vacating the slot also frees the object. */
  function Release(fs: Fs, x: Id, k: nat, temps: nat): Fs
    requires x in fs.heap
  {
    var n := fs.heap[x].nlink - k;
    if n == 0 && StrongCount(fs, x, temps) == 2
    then fs.(heap := fs.heap - {x}, slab := fs.slab - {fs.heap[x].ino})
    else fs.(heap := fs.heap[x := fs.heap[x].(nlink := n)])
  }

  /** `InodeRef::new`: one more counted reference to the inode in slot `i`. */
  function RefNew(fs: Fs, i: Ino): Fs
    requires i in fs.slab && fs.slab[i] in fs.heap
  {
    var x := fs.slab[i];
    fs.(heap := fs.heap[x := fs.heap[x].(nlink := fs.heap[x].nlink + 1)])
  }

  /** `Drop for InodeRef`. */
  function RefDrop(fs: Fs, i: Ino): Fs
    requires i in fs.slab && fs.slab[i] in fs.heap
  {
    Release(fs, fs.slab[i], 1, 1)
  }

  function Put(fs: Fs, p: Slot, i: Ino): Fs {
    fs.(names := fs.names[p := i])
  }

  function Take(fs: Fs, p: Slot): Fs {
    fs.(names := fs.names - {p})
  }

  function AddNode(fs: Fs, x: Id): Fs {
    fs.(nodes := fs.nodes + multiset{x})
  }

  // ----------------------------------------------------------------- invariant

  /** Slots and inode objects correspond one to one, and nodes hold stored inodes. */
  ghost predicate SlabOk(fs: Fs) {
    && (forall i {:trigger fs.slab[i]} :: i in fs.slab ==> fs.slab[i] in fs.heap && fs.heap[fs.slab[i]].ino == i)
    && (forall x {:trigger fs.heap[x]} :: x in fs.heap ==> fs.heap[x].ino in fs.slab && fs.slab[fs.heap[x].ino] == x)
    && (forall x :: x in fs.nodes ==> x in fs.heap)
  }

  /** Entries sit in directories that some node keeps alive, and name occupied slots. */
  ghost predicate NamesOk(fs: Fs) {
    forall p :: p in fs.names ==>
      fs.names[p] in fs.slab && p.dir in fs.nodes && p.dir in fs.heap && fs.heap[p.dir].isDir
  }

  /** Link counts are exact, and only counted or held inodes are stored. */
  ghost predicate CountOk(fs: Fs, fly: multiset<Ino>) {
    && (forall i :: i in fly ==> i in fs.slab)
    && (forall x :: x in fs.heap ==> fs.heap[x].nlink == |Refs(fs.names, fs.heap[x].ino)| + fly[fs.heap[x].ino])
    && (forall x :: x in fs.heap ==> fs.heap[x].nlink > 0 || x in fs.nodes)
  }

  /** `fly` counts the `InodeRef` values that are in no directory at the moment. */
  ghost predicate Inv(fs: Fs, fly: multiset<Ino>) {
    SlabOk(fs) && NamesOk(fs) && CountOk(fs, fly)
  }

  ghost predicate Valid(fs: Fs) {
    Inv(fs, multiset{})
  }

  lemma PutRefs(names: map<Slot, Ino>, p: Slot, i: Ino, j: Ino)
    requires p !in names
    ensures |Refs(names[p := i], j)| == |Refs(names, j)| + if i == j then 1 else 0
  {
    assert Refs(names[p := i], j) == Refs(names, j) + if i == j then {p} else {};
  }

  lemma PutCount(fs: Fs, fly: multiset<Ino>, p: Slot, i: Ino)
    requires CountOk(fs, fly) && i in fly && p !in fs.names
    ensures CountOk(Put(fs, p, i), fly - multiset{i})
  {
    forall x | x in fs.heap {
      PutRefs(fs.names, p, i, fs.heap[x].ino);
    }
  }

  lemma PutInv(fs: Fs, fly: multiset<Ino>, p: Slot, i: Ino)
    requires Inv(fs, fly) && i in fly && p.dir in fs.nodes && fs.heap[p.dir].isDir && p !in fs.names
    ensures Inv(Put(fs, p, i), fly - multiset{i})
  {
    PutCount(fs, fly, p, i);
  }

  lemma TakeCount(fs: Fs, fly: multiset<Ino>, p: Slot)
    requires CountOk(fs, fly) && p in fs.names && fs.names[p] in fs.slab
    ensures CountOk(Take(fs, p), fly + multiset{fs.names[p]})
  {
    var names' := fs.names - {p};
    assert names'[p := fs.names[p]] == fs.names;
    forall x | x in fs.heap {
      PutRefs(names', p, fs.names[p], fs.heap[x].ino);
    }
  }

  lemma TakeInv(fs: Fs, fly: multiset<Ino>, p: Slot)
    requires Inv(fs, fly) && p in fs.names
    ensures Inv(Take(fs, p), fly + multiset{fs.names[p]})
  {
    TakeCount(fs, fly, p);
  }

  lemma RefNewInv(fs: Fs, fly: multiset<Ino>, i: Ino)
    requires Inv(fs, fly) && i in fs.slab
    ensures Inv(RefNew(fs, i), fly + multiset{i})
  {
  }

  /** Vacating a slot that nothing refers to keeps slab and entries consistent. */
  lemma ReleaseShape(fs: Fs, x: Id, k: nat, temps: nat)
    requires SlabOk(fs) && NamesOk(fs) && x in fs.heap
    requires x !in Release(fs, x, k, temps).heap ==> Refs(fs.names, fs.heap[x].ino) == {} && Listing(fs.names, x) == {}
    requires x !in Release(fs, x, k, temps).heap ==> x !in fs.nodes
    ensures SlabOk(Release(fs, x, k, temps)) && NamesOk(Release(fs, x, k, temps))
  {
    var fs' := Release(fs, x, k, temps);
    if x !in fs'.heap {
      forall p | p in fs.names
        ensures fs.names[p] != fs.heap[x].ino && p.dir != x
      {
        assert p !in Refs(fs.names, fs.heap[x].ino) && p !in Listing(fs.names, x);
      }
    }
  }

  lemma RefDropInv(fs: Fs, fly: multiset<Ino>, i: Ino)
    requires Inv(fs, fly) && i in fly
    ensures Inv(RefDrop(fs, i), fly - multiset{i})
  {
    ReleaseShape(fs, fs.slab[i], 1, 1);
  }

  function Alloc(fs: Fs, isDir: bool, ino: Ino, id: Id): Fs {
    Fs(fs.heap[id := Inode(ino, 0, isDir)], fs.names, fs.slab[ino := id], fs.nodes + multiset{id})
  }

  lemma AllocCount(fs: Fs, isDir: bool, ino: Ino, id: Id)
    requires SlabOk(fs) && NamesOk(fs) && CountOk(fs, multiset{}) && ino !in fs.slab && id !in fs.heap
    ensures CountOk(Alloc(fs, isDir, ino, id), multiset{})
  {
    assert Refs(fs.names, ino) == {};
  }

  lemma AllocInv(fs: Fs, isDir: bool, ino: Ino, id: Id)
    requires Valid(fs) && ino !in fs.slab && id !in fs.heap
    ensures Valid(Alloc(fs, isDir, ino, id))
  {
    hide CountOk;
    hide SlabOk;
    hide NamesOk;
    AllocCount(fs, isDir, ino, id);
    AllocSlab(fs, isDir, ino, id);
    AllocNames(fs, isDir, ino, id);
  }

  lemma AllocSlab(fs: Fs, isDir: bool, ino: Ino, id: Id)
    requires SlabOk(fs) && ino !in fs.slab && id !in fs.heap
    ensures SlabOk(Alloc(fs, isDir, ino, id))
  {
    var fs' := Alloc(fs, isDir, ino, id);
    forall i | i in fs'.slab ensures fs'.slab[i] in fs'.heap && fs'.heap[fs'.slab[i]].ino == i {
      if i != ino { assert fs.slab[i] in fs.heap; }
    }
    forall x | x in fs'.heap ensures fs'.heap[x].ino in fs'.slab && fs'.slab[fs'.heap[x].ino] == x {
      if x != id { assert fs.heap[x].ino in fs.slab; }
    }
  }

  lemma AllocNames(fs: Fs, isDir: bool, ino: Ino, id: Id)
    requires NamesOk(fs) && id !in fs.heap
    ensures NamesOk(Alloc(fs, isDir, ino, id))
  {
  }

  // ------------------------------------------------------------------ recounting

  /** The reference: given the entries, count the links afresh and keep exactly
      the inodes that an entry or a node still holds. */
  function Recount(fs: Fs, names: map<Slot, Ino>): Fs {
    var kept := set x | x in fs.heap && (x in fs.nodes || Refs(names, fs.heap[x].ino) != {});
    Fs(map x | x in kept :: fs.heap[x].(nlink := |Refs(names, fs.heap[x].ino)|),
       names,
       map i | i in fs.slab && fs.slab[i] in kept :: fs.slab[i],
       fs.nodes)
  }

  lemma RecountValid(fs: Fs, names: map<Slot, Ino>)
    requires SlabOk(fs) && NamesOk(fs.(names := names))
    ensures Valid(Recount(fs, names)) && Shrunk(fs, Recount(fs, names))
  {
    forall p | p in names ensures p in Refs(names, names[p]) { }
  }

  /** Nothing is added, and what stays keeps its number and kind. */
  ghost predicate Shrunk(fs: Fs, fs': Fs) {
    forall x :: x in fs'.heap ==>
      x in fs.heap && fs'.heap[x].ino == fs.heap[x].ino && fs'.heap[x].isDir == fs.heap[x].isDir
  }

  lemma Survives(fs: Fs, a: Fs, b: Fs, x: Id)
    requires SlabOk(fs) && Valid(a) && Valid(b) && Shrunk(fs, a) && Shrunk(fs, b)
    requires a.names == b.names && a.nodes == b.nodes && x in a.heap
    ensures x in b.heap && a.heap[x] == b.heap[x]
  {
    if x !in a.nodes {
      assert Refs(a.names, a.heap[x].ino) != {};
      var p :| p in Refs(a.names, a.heap[x].ino);
      assert b.slab[b.names[p]] == x;
    }
  }

  lemma SlabWithin(a: Fs, b: Fs)
    requires SlabOk(a) && SlabOk(b) && a.heap == b.heap
    ensures a.slab.Keys <= b.slab.Keys
    ensures forall i :: i in a.slab ==> i in b.slab && b.slab[i] == a.slab[i]
  {
    forall i | i in a.slab ensures i in b.slab && b.slab[i] == a.slab[i] {
      var x := a.slab[i];
      assert b.heap[x].ino in b.slab;
    }
  }

  lemma SameSlab(a: Fs, b: Fs)
    requires SlabOk(a) && SlabOk(b) && a.heap == b.heap
    ensures a.slab == b.slab
  {
    SlabWithin(a, b);
    SlabWithin(b, a);
    assert a.slab.Keys == b.slab.Keys;
    assert forall i :: i in a.slab ==> b.slab[i] == a.slab[i];
  }

  /** Link counts and slot occupancy are determined by the entries and the live
      nodes: two consistent states that agree on those are the same state. */
  lemma Determined(fs: Fs, a: Fs, b: Fs)
    requires SlabOk(fs) && Valid(a) && Valid(b) && Shrunk(fs, a) && Shrunk(fs, b)
    requires a.names == b.names && a.nodes == b.nodes
    ensures a == b
  {
    forall x | x in a.heap ensures x in b.heap && a.heap[x] == b.heap[x] { Survives(fs, a, b, x); }
    forall x | x in b.heap ensures x in a.heap { Survives(fs, b, a, x); }
    assert a.heap == b.heap;
    SameSlab(a, b);
  }

  // ------------------------------------------------- operations, by their names

  predicate IsDir(fs: Fs, x: Id) {
    x in fs.heap && fs.heap[x].isDir
  }

  /** The inode an entry resolves to (-1 stands for the vacant slot, which no entry
      of a consistent state names). */
  function At(fs: Fs, p: Slot): Id {
    if p in fs.names && fs.names[p] in fs.slab then fs.slab[fs.names[p]] else -1
  }

  function Lookup(fs: Fs, x: Id, name: FileName): (Fs, Outcome) {
    if !IsDir(fs, x) then (fs, Err(ENOTDIR))
    else if Slot(x, name) !in fs.names then (fs, Err(ENOENT))
    else (AddNode(fs, At(fs, Slot(x, name))), Node(At(fs, Slot(x, name))))
  }

  /** The entries a new inode brings along: none, or "." and "..". */
  function NewNames(fs: Fs, parent: Ino, isDir: bool, ino: Ino, id: Id): map<Slot, Ino> {
    if isDir then fs.names[Slot(id, DOT) := ino][Slot(id, DOTDOT) := parent] else fs.names
  }

  /** `MemoryFs::new`: a file system holding only its root, its own parent. */
  function New(ino: Ino, id: Id): Fs {
    var fs := Alloc(Fs(map[], map[], map[], multiset{}), true, ino, id);
    Recount(fs, NewNames(fs, ino, true, ino, id))
  }

  function Create(fs: Fs, x: Id, name: FileName, isDir: bool, ino: Ino, id: Id): (Fs, Outcome) {
    if !IsDir(fs, x) then (fs, Err(ENOTDIR))
    else if Slot(x, name) in fs.names then (fs, Err(EEXIST))
    else
      var fs' := Alloc(fs, isDir, ino, id);
      (Recount(fs', NewNames(fs, fs.heap[x].ino, isDir, ino, id)[Slot(x, name) := ino]), Node(id))
  }

  function Link(fs: Fs, x: Id, name: FileName, y: Id): (Fs, Outcome)
    requires y in fs.heap
  {
    if !IsDir(fs, x) then (fs, Err(ENOTDIR))
    else if Slot(x, name) in fs.names then (fs, Err(EEXIST))
    else (Recount(AddNode(fs, y), fs.names[Slot(x, name) := fs.heap[y].ino]), Node(y))
  }

  function Unlink(fs: Fs, x: Id, name: FileName): (Fs, Outcome) {
    var p := Slot(x, name);
    if !IsDir(fs, x) then (fs, Err(ENOTDIR))
    else if p !in fs.names then (fs, Err(ENOENT))
    else if IsDir(fs, At(fs, p)) && |Listing(fs.names, At(fs, p))| > 2 then (fs, Err(ENOTEMPTY))
    else (Recount(fs, fs.names - {p}), Done)
  }

  /** Dropping a node of a directory empties that directory. */
  function DropNode(fs: Fs, x: Id): Fs {
    Recount(fs.(nodes := fs.nodes - multiset{x}), fs.names - Listing(fs.names, x))
  }

  /** The second half of `rename`: move the entry, whatever it displaces. */
  function Move(fs: Fs, x: Id, src: FileName, y: Id, dst: FileName): (Fs, Outcome) {
    var p := Slot(x, src);
    if !IsDir(fs, x) then (fs, Err(ENOTDIR))
    else if p !in fs.names then (fs, Err(ENOENT))
    else if !IsDir(fs, y) then (Recount(fs, fs.names - {p}), Err(ENOTDIR))
    else (Recount(fs, (fs.names - {p})[Slot(y, dst) := fs.names[p]]), Done)
  }

  /** The destination node that `rename` looks up, and what becomes of it. */
  function HoldDst(fs: Fs, b: Id, hold: Hold): Fs {
    if hold.Hit? then fs else AddNode(fs, b)
  }

  function SettleDst(fs: Fs, b: Id, hold: Hold): Fs {
    if hold.Temporary? then DropNode(fs, b) else fs
  }

  /** The nodes that `rename` builds and drops when the destination `b` exists. */
  function Probe(fs: Fs, a: Id, b: Id, hold: Hold): Fs {
    SettleDst(DropNode(AddNode(HoldDst(fs, b, hold), a), a), b, hold)
  }

  /** When the destination exists, it and the source are probed before anything
      moves; a destination with the source's inode is then left alone. */
  function Rename(fs: Fs, x: Id, src: FileName, y: Id, dst: FileName, hold: Hold): (Fs, Outcome) {
    var p, q := Slot(x, src), Slot(y, dst);
    if q !in fs.names then Move(fs, x, src, y, dst)
    else if !IsDir(fs, x) then (SettleDst(HoldDst(fs, At(fs, q), hold), At(fs, q), hold), Err(ENOTDIR))
    else if p !in fs.names then (SettleDst(HoldDst(fs, At(fs, q), hold), At(fs, q), hold), Err(ENOENT))
    else
      var probed := Probe(fs, At(fs, p), At(fs, q), hold);
      if fs.names[p] == fs.names[q] then (probed, Done) else Move(probed, x, src, y, dst)
  }

  // ------------------------------------------------------------------------ runs

  datatype Op =
    | OpLookup(x: Id, name: FileName)
    | OpCreate(x: Id, name: FileName, isDir: bool, ino: Ino, id: Id)
    | OpLink(x: Id, name: FileName, y: Id)
    | OpUnlink(x: Id, name: FileName)
    | OpRename(x: Id, name: FileName, y: Id, dst: FileName, hold: Hold)
    | OpDrop(x: Id)

  /** Operations go through live nodes; the slab hands out a vacant slot. */
  ghost predicate Step(fs: Fs, op: Op, fs': Fs) {
    && op.x in fs.nodes
    && match op
       case OpLookup(x, name) => fs' == Lookup(fs, x, name).0
       case OpCreate(x, name, isDir, ino, id) =>
         ino !in fs.slab && id !in fs.heap && fs' == Create(fs, x, name, isDir, ino, id).0
       case OpLink(x, name, y) => y in fs.nodes && y in fs.heap && fs' == Link(fs, x, name, y).0
       case OpUnlink(x, name) => fs' == Unlink(fs, x, name).0
       case OpRename(x, name, y, dst, hold) => y in fs.nodes && fs' == Rename(fs, x, name, y, dst, hold).0
       case OpDrop(x) => fs' == DropNode(fs, x)
  }

  lemma AtValid(fs: Fs, p: Slot)
    requires Valid(fs) && p in fs.names
    ensures At(fs, p) in fs.heap && fs.names[p] in fs.slab && fs.heap[At(fs, p)].ino == fs.names[p]
  {
    var i := fs.names[p];
    var x := fs.slab[i];
    assert fs.heap[x].ino == i;
  }

  lemma CreateValid(fs: Fs, x: Id, name: FileName, isDir: bool, ino: Ino, id: Id)
    requires Valid(fs) && x in fs.nodes && ino !in fs.slab && id !in fs.heap
    ensures Valid(Create(fs, x, name, isDir, ino, id).0)
  {
    if IsDir(fs, x) && Slot(x, name) !in fs.names {
      AllocInv(fs, isDir, ino, id);
      RecountValid(Alloc(fs, isDir, ino, id), NewNames(fs, fs.heap[x].ino, isDir, ino, id)[Slot(x, name) := ino]);
    }
  }

  lemma LinkValid(fs: Fs, x: Id, name: FileName, y: Id)
    requires Valid(fs) && x in fs.nodes && y in fs.nodes
    ensures Valid(Link(fs, x, name, y).0)
  {
    if IsDir(fs, x) && Slot(x, name) !in fs.names {
      RecountValid(AddNode(fs, y), fs.names[Slot(x, name) := fs.heap[y].ino]);
    }
  }

  lemma DropNodeValid(fs: Fs, x: Id)
    requires Valid(fs) && x in fs.nodes
    ensures Valid(DropNode(fs, x)) && Shrunk(fs, DropNode(fs, x))
  {
    RecountValid(fs.(nodes := fs.nodes - multiset{x}), fs.names - Listing(fs.names, x));
  }

  lemma MoveValid(fs: Fs, x: Id, src: FileName, y: Id, dst: FileName)
    requires Valid(fs) && x in fs.nodes && y in fs.nodes
    ensures Valid(Move(fs, x, src, y, dst).0)
  {
    var p := Slot(x, src);
    if IsDir(fs, x) && p in fs.names {
      if IsDir(fs, y) { RecountValid(fs, (fs.names - {p})[Slot(y, dst) := fs.names[p]]); }
      else { RecountValid(fs, fs.names - {p}); }
    }
  }

  lemma AddNodeValid(fs: Fs, x: Id)
    requires Valid(fs) && x in fs.heap
    ensures Valid(AddNode(fs, x))
  {
  }

  lemma VisitValid(fs: Fs, x: Id)
    requires Valid(fs) && x in fs.heap
    ensures Valid(DropNode(AddNode(fs, x), x)) && DropNode(AddNode(fs, x), x).nodes == fs.nodes
  {
    AddNodeValid(fs, x);
    DropNodeValid(AddNode(fs, x), x);
    assert AddNode(fs, x).nodes - multiset{x} == fs.nodes;
  }

  lemma DropNodeEffect(fs: Fs, x: Id)
    ensures DropNode(fs, x).names == fs.names - Listing(fs.names, x)
    ensures DropNode(fs, x).nodes == fs.nodes - multiset{x}
  {
  }

  lemma ProbeValid(fs: Fs, a: Id, b: Id, hold: Hold)
    requires Valid(fs) && a in fs.heap && b in fs.heap
    ensures Valid(Probe(fs, a, b, hold)) && fs.nodes <= Probe(fs, a, b, hold).nodes
  {
    hide Inv;
    hide DropNode;
    if hold.Hit? {
      VisitValid(fs, a);
    } else {
      AddNodeValid(fs, b);
      VisitValid(AddNode(fs, b), a);
      var fs' := DropNode(AddNode(AddNode(fs, b), a), a);
      if hold.Temporary? {
        DropNodeValid(fs', b);
        DropNodeEffect(fs', b);
      }
    }
  }

  lemma RenameValid(fs: Fs, x: Id, src: FileName, y: Id, dst: FileName, hold: Hold)
    requires Valid(fs) && x in fs.nodes && y in fs.nodes
    ensures Valid(Rename(fs, x, src, y, dst, hold).0)
  {
    hide Inv;
    hide DropNode;
    hide Probe;
    hide Move;
    var p, q := Slot(x, src), Slot(y, dst);
    if q !in fs.names {
      MoveValid(fs, x, src, y, dst);
    } else {
      var b := At(fs, q);
      AtValid(fs, q);
      if IsDir(fs, x) && p in fs.names {
        AtValid(fs, p);
        ProbeValid(fs, At(fs, p), b, hold);
        MoveValid(Probe(fs, At(fs, p), b, hold), x, src, y, dst);
      } else {
        AddNodeValid(fs, b);
        if hold.Temporary? { DropNodeValid(AddNode(fs, b), b); }
      }
    }
  }

  lemma LookupValid(fs: Fs, x: Id, name: FileName)
    requires Valid(fs)
    ensures Valid(Lookup(fs, x, name).0)
  {
    hide Inv;
    if IsDir(fs, x) && Slot(x, name) in fs.names {
      AtValid(fs, Slot(x, name));
      AddNodeValid(fs, At(fs, Slot(x, name)));
    }
  }

  lemma UnlinkValid(fs: Fs, x: Id, name: FileName)
    requires Valid(fs)
    ensures Valid(Unlink(fs, x, name).0) && Shrunk(fs, Unlink(fs, x, name).0)
  {
    RecountValid(fs, fs.names - {Slot(x, name)});
  }

  /** Every operation keeps the counting invariants. */
  lemma StepValid(fs: Fs, op: Op, fs': Fs)
    requires Valid(fs) && Step(fs, op, fs')
    ensures Valid(fs')
  {
    hide Inv;
    match op
    case OpLookup(x, name) => LookupValid(fs, x, name);
    case OpCreate(x, name, isDir, ino, id) => CreateValid(fs, x, name, isDir, ino, id);
    case OpLink(x, name, y) => LinkValid(fs, x, name, y);
    case OpUnlink(x, name) => UnlinkValid(fs, x, name);
    case OpRename(x, name, y, dst, hold) => RenameValid(fs, x, name, y, dst, hold);
    case OpDrop(x) => DropNodeValid(fs, x);
  }

  ghost predicate Run(states: seq<Fs>, ops: seq<Op>) {
    && |states| == |ops| + 1
    && (exists ino, id :: states[0] == New(ino, id))
    && forall k :: 0 <= k < |ops| ==> Step(states[k], ops[k], states[k + 1])
  }

  /** What the counting invariants say, in the file system's own terms. */
  ghost predicate Consistent(fs: Fs) {
    // every stored inode's link count is the number of entries that name it
    && (forall i :: i in fs.slab ==> fs.slab[i] in fs.heap && fs.heap[fs.slab[i]].nlink == |Refs(fs.names, i)|)
    // every entry and every node resolves to an occupied slot holding that very inode
    && (forall p :: p in fs.names ==> fs.names[p] in fs.slab && fs.slab[fs.names[p]] in fs.heap)
    && (forall x :: x in fs.nodes ==> x in fs.heap && fs.heap[x].ino in fs.slab && fs.slab[fs.heap[x].ino] == x)
    // an inode is stored exactly while an entry or a node holds it
    && (forall i :: i in fs.slab ==> Refs(fs.names, i) != {} || fs.slab[i] in fs.nodes)
    // a directory has entries only while it is stored
    && (forall p :: p in fs.names ==> p.dir in fs.heap && fs.heap[p.dir].ino in fs.slab)
  }

  lemma ValidConsistent(fs: Fs)
    requires Valid(fs)
    ensures Consistent(fs)
  {
    forall i | i in fs.slab
      ensures fs.slab[i] in fs.heap && fs.heap[fs.slab[i]].nlink == |Refs(fs.names, i)|
      ensures Refs(fs.names, i) != {} || fs.slab[i] in fs.nodes
    {
      var x := fs.slab[i];
      assert fs.heap[x].ino == i;
    }
    forall p | p in fs.names ensures fs.names[p] in fs.slab && fs.slab[fs.names[p]] in fs.heap {
      AtValid(fs, p);
    }
  }

  lemma NewValid(ino: Ino, id: Id)
    ensures Valid(New(ino, id))
  {
    var fs := Alloc(Fs(map[], map[], map[], multiset{}), true, ino, id);
    RecountValid(fs, NewNames(fs, ino, true, ino, id));
  }

  lemma {:induction false} RunConsistent(states: seq<Fs>, ops: seq<Op>, k: nat)
    requires Run(states, ops) && k < |states|
    ensures Valid(states[k]) && Consistent(states[k])
  {
    hide Inv;
    hide Step;
    hide New;
    hide Consistent;
    if k > 0 {
      RunConsistent(states, ops, k - 1);
      StepValid(states[k - 1], ops[k - 1], states[k]);
    } else {
      var ino, id :| states[0] == New(ino, id);
      NewValid(ino, id);
    }
    ValidConsistent(states[k]);
  }

  // ---------------------------------------------------------------------- rename

  /** The entries that probing `a` and `b` loses. */
  function Lost(names: map<Slot, Ino>, a: Id, b: Id, hold: Hold): set<Slot> {
    set p | p in names && (p.dir == a || (hold.Temporary? && p.dir == b))
  }

  lemma LostNames(names: map<Slot, Ino>, a: Id, b: Id, hold: Hold)
    ensures var names1 := names - Listing(names, a);
            (if hold.Temporary? then names1 - Listing(names1, b) else names1) == names - Lost(names, a, b, hold)
  {
  }

  lemma ProbeNames(fs: Fs, a: Id, b: Id, hold: Hold)
    ensures Probe(fs, a, b, hold).names == fs.names - Lost(fs.names, a, b, hold)
  {
    hide DropNode;
    hide Lost;
    hide Listing;
    var fs0 := AddNode(HoldDst(fs, b, hold), a);
    DropNodeEffect(fs0, a);
    DropNodeEffect(DropNode(fs0, a), b);
    LostNames(fs.names, a, b, hold);
  }

  /** What a successful rename leaves: after the probes' losses, the entry at `p`
      has moved to `q`, unless both already named one inode. */
  function Renamed(names: map<Slot, Ino>, lost: set<Slot>, p: Slot, q: Slot): map<Slot, Ino>
    requires p in names
  {
    if q !in names then (names - {p})[q := names[p]]
    else if names[p] == names[q] then names - lost
    else (names - lost - {p})[q := names[p]]
  }

  lemma MoveDone(fs: Fs, x: Id, src: FileName, y: Id, dst: FileName)
    requires Move(fs, x, src, y, dst).1.Done?
    ensures Slot(x, src) in fs.names
    ensures Move(fs, x, src, y, dst).0.names == (fs.names - {Slot(x, src)})[Slot(y, dst) := fs.names[Slot(x, src)]]
  {
  }

  lemma RenameDone(fs: Fs, x: Id, src: FileName, y: Id, dst: FileName, hold: Hold)
    requires Rename(fs, x, src, y, dst, hold).1.Done?
    ensures Slot(x, src) in fs.names
    ensures var p, q := Slot(x, src), Slot(y, dst);
            var lost := if q in fs.names then Lost(fs.names, At(fs, p), At(fs, q), hold) else {};
            && Rename(fs, x, src, y, dst, hold).0.names == Renamed(fs.names, lost, p, q)
            && (q in fs.names && fs.names[q] != fs.names[p] ==> p !in lost)
  {
    hide Move;
    hide Probe;
    hide Lost;
    var p, q := Slot(x, src), Slot(y, dst);
    if q !in fs.names {
      MoveDone(fs, x, src, y, dst);
    } else if p in fs.names {
      var probed := Probe(fs, At(fs, p), At(fs, q), hold);
      ProbeNames(fs, At(fs, p), At(fs, q), hold);
      if fs.names[p] != fs.names[q] { MoveDone(probed, x, src, y, dst); }
    }
  }

  /** Every name but `p` and `q` is the same in both. */
  ghost predicate OthersKept(names: map<Slot, Ino>, names': map<Slot, Ino>, p: Slot, q: Slot) {
    names - {p, q} == names' - {p, q}
  }

  /** No name but `p` and `q` would be lost by emptying `x`. */
  ghost predicate Bare(names: map<Slot, Ino>, x: Id, p: Slot, q: Slot) {
    Listing(names, x) <= {p, q}
  }

  lemma RenamedOthers(names: map<Slot, Ino>, lost: set<Slot>, p: Slot, q: Slot)
    requires p in names && lost <= names.Keys && (q !in names ==> lost == {})
    ensures OthersKept(names, Renamed(names, lost, p, q), p, q) <==> lost <= {p, q}
  {
    var names' := Renamed(names, lost, p, q);
    if lost <= {p, q} {
      assert names' - {p, q} == names - {p, q};
    } else {
      var r :| r in lost && r !in {p, q};
      assert r in names - {p, q} && r !in names' - {p, q};
    }
  }

  /** A successful rename makes the destination name the source's inode and removes
      the source name; if both already named one inode, no name changes beyond what the
      probes lose.  It leaves every other name alone exactly when the directories it
      probes are bare. */
  lemma RenameNames(fs: Fs, x: Id, src: FileName, y: Id, dst: FileName, hold: Hold)
    requires Rename(fs, x, src, y, dst, hold).1.Done?
    ensures var names, names' := fs.names, Rename(fs, x, src, y, dst, hold).0.names;
            var p, q := Slot(x, src), Slot(y, dst);
            && p in names
            && (q !in names || names[q] != names[p] ==>
                  q in names' && names'[q] == names[p] && (p != q ==> p !in names'))
            && (q in names && names[q] == names[p] ==> names' == names - Lost(names, At(fs, p), At(fs, q), hold))
            && (OthersKept(names, names', p, q) <==>
                  (q in names ==>
                     && Bare(names, At(fs, p), p, q)
                     && (hold.Temporary? ==> Bare(names, At(fs, q), p, q))))
  {
    hide Rename;
    var p, q := Slot(x, src), Slot(y, dst);
    RenameDone(fs, x, src, y, dst, hold);
    RenamedOthers(fs.names, if q in fs.names then Lost(fs.names, At(fs, p), At(fs, q), hold) else {}, p, q);
  }

  /** The link count seen through slot `i`. */
  function Links(fs: Fs, i: Ino): int {
    if i in fs.slab && fs.slab[i] in fs.heap then fs.heap[fs.slab[i]].nlink else 0
  }

  lemma LinksAreRefs(fs: Fs, i: Ino)
    requires Valid(fs)
    ensures Links(fs, i) == |Refs(fs.names, i)|
  {
    if i in fs.slab {
      var x := fs.slab[i];
      assert fs.heap[x].ino == i;
    } else {
      assert Refs(fs.names, i) == {};
    }
  }

  /** The entries that a rename takes away: what its probes lose, and the entry it
      displaces. */
  function Gone(names: map<Slot, Ino>, lost: set<Slot>, p: Slot, q: Slot): set<Slot>
    requires p in names
  {
    lost + if q in names && names[q] != names[p] then {q} else {}
  }

  lemma RenamedRefs(names: map<Slot, Ino>, lost: set<Slot>, p: Slot, q: Slot, i: Ino)
    requires p in names && lost <= names.Keys && (q !in names ==> lost == {})
    requires q in names && names[q] != names[p] ==> p !in lost
    ensures |Refs(Renamed(names, lost, p, q), i)| == |Refs(names, i)| - |Refs(names, i) * Gone(names, lost, p, q)|
  {
    var names', gone := Renamed(names, lost, p, q), Gone(names, lost, p, q);
    assert Refs(names - gone, i) == Refs(names, i) - gone;
    if q !in names || names[q] != names[p] {
      var kept := names - (gone + {p});
      RenamedIsMove(names, lost, p, q);
      hide Refs;
      hide Renamed;
      PutRefs(kept, q, names[p], i);
      PutRefs(kept, p, names[p], i);
    }
  }

  lemma RenamedIsMove(names: map<Slot, Ino>, lost: set<Slot>, p: Slot, q: Slot)
    requires p in names && lost <= names.Keys && (q !in names ==> lost == {})
    requires q !in names || (names[q] != names[p] && p !in lost)
    ensures var gone := Gone(names, lost, p, q);
            var kept := names - (gone + {p});
            Renamed(names, lost, p, q) == kept[q := names[p]] && names - gone == kept[p := names[p]]
  {
  }

  /** Renaming lowers every inode's link count by exactly the number of its entries that
      the probes lose or the move displaces; the moved inode keeps its count otherwise. */
  lemma RenameCounts(fs: Fs, x: Id, src: FileName, y: Id, dst: FileName, hold: Hold, i: Ino)
    requires Valid(fs) && x in fs.nodes && y in fs.nodes
    requires Rename(fs, x, src, y, dst, hold).1.Done?
    ensures var p, q := Slot(x, src), Slot(y, dst);
            var lost := if q in fs.names then Lost(fs.names, At(fs, p), At(fs, q), hold) else {};
            && p in fs.names
            && Links(Rename(fs, x, src, y, dst, hold).0, i) ==
               Links(fs, i) - |Refs(fs.names, i) * Gone(fs.names, lost, p, q)|
  {
    var fs', p, q := Rename(fs, x, src, y, dst, hold).0, Slot(x, src), Slot(y, dst);
    RenameValid(fs, x, src, y, dst, hold);
    RenameDone(fs, x, src, y, dst, hold);
    hide Rename;
    hide Inv;
    hide At;
    var lost := if q in fs.names then Lost(fs.names, At(fs, p), At(fs, q), hold) else {};
    RenamedRefs(fs.names, lost, p, q, i);
    LinksAreRefs(fs, i);
    LinksAreRefs(fs', i);
  }

  // ----------------------------------------------------- operations undo each other

  /** What a new inode adds to the entries, seen from the names alone. */
  lemma NewListing(fs: Fs, x: Id, name: FileName, isDir: bool, ino: Ino, id: Id, parent: Ino)
    requires Valid(fs) && x in fs.nodes && id !in fs.heap && Slot(x, name) !in fs.names
    ensures var names := NewNames(fs, parent, isDir, ino, id)[Slot(x, name) := ino];
            && Listing(names, id) <= {Slot(id, DOT), Slot(id, DOTDOT)}
            && names - {Slot(x, name)} - Listing(names - {Slot(x, name)}, id) == fs.names
  {
    assert x != id;
    assert forall p :: p in fs.names ==> p.dir != id;
  }

  lemma SmallListing(listing: set<Slot>, id: Id)
    requires listing <= {Slot(id, DOT), Slot(id, DOTDOT)}
    ensures |listing| <= 2
  {
    var rest := {Slot(id, DOT), Slot(id, DOTDOT)} - listing;
    assert {Slot(id, DOT), Slot(id, DOTDOT)} == listing + rest;
  }

  lemma CreatedAt(fs: Fs, x: Id, name: FileName, isDir: bool, ino: Ino, id: Id)
    requires Valid(fs) && x in fs.nodes && ino !in fs.slab && id !in fs.heap
    requires Create(fs, x, name, isDir, ino, id).1.Node?
    ensures var fs1 := Create(fs, x, name, isDir, ino, id).0;
            && Valid(fs1) && IsDir(fs1, x) && Slot(x, name) in fs1.names && At(fs1, Slot(x, name)) == id
            && fs1.nodes == fs.nodes + multiset{id} && Shrunk(Alloc(fs, isDir, ino, id), fs1)
            && fs1.names == NewNames(fs, fs.heap[x].ino, isDir, ino, id)[Slot(x, name) := ino]
  {
    CreateValid(fs, x, name, isDir, ino, id);
    var fs1 := Create(fs, x, name, isDir, ino, id).0;
    var alloc := Alloc(fs, isDir, ino, id);
    AllocInv(fs, isDir, ino, id);
    RecountValid(alloc, fs1.names);
    AtValid(fs1, Slot(x, name));
    assert x in fs1.heap;
    assert alloc.heap[id].ino == ino;
  }

  /** A new name resolves to the new inode. */
  lemma CreateThenLookup(fs: Fs, x: Id, name: FileName, isDir: bool, ino: Ino, id: Id)
    requires Valid(fs) && x in fs.nodes && ino !in fs.slab && id !in fs.heap
    requires Create(fs, x, name, isDir, ino, id).1.Node?
    ensures Lookup(Create(fs, x, name, isDir, ino, id).0, x, name).1 == Node(id)
  {
    CreatedAt(fs, x, name, isDir, ino, id);
  }

  lemma ShrunkTrans(a: Fs, b: Fs, c: Fs)
    requires Shrunk(a, b) && Shrunk(b, c)
    ensures Shrunk(a, c)
  {
  }

  /** Creating a file or directory, unlinking it and dropping its node leaves the file
      system exactly as it was: entries, link counts, slots and nodes. */
  lemma CreateUnlinkDrop(fs: Fs, x: Id, name: FileName, isDir: bool, ino: Ino, id: Id)
    requires Valid(fs) && x in fs.nodes && ino !in fs.slab && id !in fs.heap
    requires Create(fs, x, name, isDir, ino, id).1.Node?
    ensures var (fs2, r) := Unlink(Create(fs, x, name, isDir, ino, id).0, x, name);
            r.Done? && DropNode(fs2, id) == fs
  {
    var alloc, fs1 := Alloc(fs, isDir, ino, id), Create(fs, x, name, isDir, ino, id).0;
    CreatedAt(fs, x, name, isDir, ino, id);
    NewListing(fs, x, name, isDir, ino, id, fs.heap[x].ino);
    SmallListing(Listing(fs1.names, id), id);
    UnlinkValid(fs1, x, name);
    var fs2 := Unlink(fs1, x, name).0;
    assert Unlink(fs1, x, name).1.Done?;
    ShrunkTrans(alloc, fs1, fs2);
    DropBack(fs, fs2, isDir, ino, id);
  }

  lemma DropBack(fs: Fs, fs2: Fs, isDir: bool, ino: Ino, id: Id)
    requires Valid(fs) && ino !in fs.slab && id !in fs.heap
    requires Valid(fs2) && Shrunk(Alloc(fs, isDir, ino, id), fs2)
    requires fs2.nodes == fs.nodes + multiset{id} && fs2.names - Listing(fs2.names, id) == fs.names
    ensures DropNode(fs2, id) == fs
  {
    hide SlabOk;
    hide NamesOk;
    hide CountOk;
    hide DropNode;
    hide Shrunk;
    hide Alloc;
    var alloc := Alloc(fs, isDir, ino, id);
    AllocInv(fs, isDir, ino, id);
    AllocShrunk(fs, isDir, ino, id);
    DropNodeValid(fs2, id);
    DropNodeEffect(fs2, id);
    ShrunkTrans(alloc, fs2, DropNode(fs2, id));
    assert fs2.nodes - multiset{id} == fs.nodes;
    Determined(alloc, DropNode(fs2, id), fs);
  }

  lemma AllocShrunk(fs: Fs, isDir: bool, ino: Ino, id: Id)
    requires id !in fs.heap
    ensures Shrunk(Alloc(fs, isDir, ino, id), fs)
  {
  }

  /** Unlinking lowers the link count of the inode it unnames by one, and no other. */
  lemma UnlinkCounts(fs: Fs, x: Id, name: FileName, i: Ino)
    requires Valid(fs) && Unlink(fs, x, name).1.Done?
    ensures Slot(x, name) in fs.names
    ensures Links(Unlink(fs, x, name).0, i) == Links(fs, i) - if fs.names[Slot(x, name)] == i then 1 else 0
  {
    var p := Slot(x, name);
    var rest := fs.names - {p};
    assert rest[p := fs.names[p]] == fs.names;
    PutRefs(rest, p, fs.names[p], i);
    UnlinkValid(fs, x, name);
    LinksAreRefs(fs, i);
    LinksAreRefs(Unlink(fs, x, name).0, i);
  }

  /** Linking raises the link count of the inode it names by one, and no other. */
  lemma LinkCounts(fs: Fs, x: Id, name: FileName, y: Id, i: Ino)
    requires Valid(fs) && x in fs.nodes && y in fs.nodes && Link(fs, x, name, y).1.Node?
    ensures Links(Link(fs, x, name, y).0, i) == Links(fs, i) + if fs.heap[y].ino == i then 1 else 0
  {
    PutRefs(fs.names, Slot(x, name), fs.heap[y].ino, i);
    LinkValid(fs, x, name, y);
    LinksAreRefs(fs, i);
    LinksAreRefs(Link(fs, x, name, y).0, i);
  }

  // ---------------------------------------------------------------------- unlink

  function Dots(d: Id): set<Slot> {
    {Slot(d, DOT), Slot(d, DOTDOT)}
  }

  /** The entries of `d` other than "." and "..". */
  function Others(names: map<Slot, Ino>, d: Id): set<Slot> {
    Listing(names, d) - Dots(d)
  }

  /** Those of "." and ".." that `d` has lost, be it to an unlink or to the drop of a node. */
  function Missing(names: map<Slot, Ino>, d: Id): set<Slot> {
    Dots(d) - names.Keys
  }

  lemma ListingSize(names: map<Slot, Ino>, d: Id)
    ensures |Listing(names, d)| == |Others(names, d)| + 2 - |Missing(names, d)|
  {
    var present := Dots(d) * names.Keys;
    assert Listing(names, d) == Others(names, d) + present;
    DotsSplit(names, d);
  }

  lemma DotsSplit(names: map<Slot, Ino>, d: Id)
    ensures |Dots(d) * names.Keys| == 2 - |Missing(names, d)|
  {
    assert Dots(d) == Dots(d) * names.Keys + Missing(names, d);
  }

  /** Unlinking fails with ENOENT exactly for a name that is not there and removes a file
      always.  It removes a directory exactly if no more other entries are in it than dot
      entries are missing from it.  Only that name goes, and a failure changes nothing. */
  lemma UnlinkIff(fs: Fs, x: Id, name: FileName)
    requires Valid(fs)
    ensures var (fs', r) := Unlink(fs, x, name);
            var p := Slot(x, name);
            var y := At(fs, p);
            && (r == Err(ENOTDIR) <==> !IsDir(fs, x))
            && (r == Err(ENOENT) <==> IsDir(fs, x) && p !in fs.names)
            && (p in fs.names && !IsDir(fs, y) ==> r == Done)
            && (p in fs.names && IsDir(fs, y) ==>
                  r == if |Others(fs.names, y)| <= |Missing(fs.names, y)| then Done else Err(ENOTEMPTY))
            && (r != Done ==> fs' == fs)
            && (r == Done ==> fs'.names == fs.names - {p} && fs'.nodes == fs.nodes)
  {
    ListingSize(fs.names, At(fs, Slot(x, name)));
    if Slot(x, name) in fs.names { NamedIsDir(fs, Slot(x, name)); }
  }

  ghost predicate HasDots(names: map<Slot, Ino>, d: Id) {
    Slot(d, DOT) in names && Slot(d, DOTDOT) in names
  }

  /** Nothing but "." and ".." is in `d`. */
  ghost predicate Empty(names: map<Slot, Ino>, d: Id) {
    forall q :: q in names && q.dir == d ==> q.name == DOT || q.name == DOTDOT
  }

  lemma EmptyIff(names: map<Slot, Ino>, d: Id)
    ensures Empty(names, d) <==> Others(names, d) == {}
  {
    if Others(names, d) == {} {
      forall q | q in names && q.dir == d ensures q in Dots(d) { assert q !in Others(names, d); }
    }
  }

  /** A directory that has "." and ".." can be unlinked exactly if nothing else is in it;
      otherwise the answer is ENOTEMPTY and nothing changes. */
  lemma UnlinkEmptyIff(fs: Fs, x: Id, name: FileName)
    requires Valid(fs) && IsDir(fs, x) && Slot(x, name) in fs.names
    requires IsDir(fs, At(fs, Slot(x, name))) && HasDots(fs.names, At(fs, Slot(x, name)))
    ensures Unlink(fs, x, name).1 == Done <==> Empty(fs.names, At(fs, Slot(x, name)))
    ensures Unlink(fs, x, name).1 != Done ==> Unlink(fs, x, name) == (fs, Err(ENOTEMPTY))
  {
    var y := At(fs, Slot(x, name));
    UnlinkIff(fs, x, name);
    EmptyIff(fs.names, y);
    assert Missing(fs.names, y) == {};
  }

  /** A directory goes although something is in it exactly if that is one entry or two,
      and no more than the dot entries it has lost. */
  lemma UnlinkLosesIff(fs: Fs, x: Id, name: FileName)
    requires Valid(fs) && IsDir(fs, x) && Slot(x, name) in fs.names && IsDir(fs, At(fs, Slot(x, name)))
    ensures var y := At(fs, Slot(x, name));
            Unlink(fs, x, name).1 == Done && !Empty(fs.names, y) <==>
            1 <= |Others(fs.names, y)| <= |Missing(fs.names, y)|
  {
    UnlinkIff(fs, x, name);
    EmptyIff(fs.names, At(fs, Slot(x, name)));
  }

  /** Every stored directory has its "." and "..". */
  ghost predicate AllDots(fs: Fs) {
    forall d :: IsDir(fs, d) ==> HasDots(fs.names, d)
  }

  /** A step that takes no dot entry from a directory that stays: no "." or ".." is unlinked
      or renamed, no rename goes to a name in use, and a directory's node is dropped only
      when nothing else holds the directory. */
  ghost predicate Careful(fs: Fs, op: Op) {
    match op
    case OpLookup(_, _) => true
    case OpCreate(_, _, _, _, _) => true
    case OpLink(_, _, _) => true
    case OpUnlink(_, name) => name != DOT && name != DOTDOT
    case OpRename(_, name, y, dst, _) => name != DOT && name != DOTDOT && Slot(y, dst) !in fs.names
    case OpDrop(x) =>
      IsDir(fs, x) ==> fs.nodes[x] == 1 && forall q :: q in Refs(fs.names, fs.heap[x].ino) ==> q.dir == x
  }

  lemma FewerDirs(fs: Fs, names: map<Slot, Ino>)
    requires AllDots(fs)
    requires forall q :: q in fs.names && (q.name == DOT || q.name == DOTDOT) ==> q in names
    ensures AllDots(Recount(fs, names))
  {
    var fs' := Recount(fs, names);
    forall d | IsDir(fs', d) ensures HasDots(names, d) {
      assert IsDir(fs, d);
    }
  }

  lemma CreateDots(fs: Fs, x: Id, name: FileName, isDir: bool, ino: Ino, id: Id)
    requires AllDots(fs) && id !in fs.heap
    ensures AllDots(Create(fs, x, name, isDir, ino, id).0)
  {
    if IsDir(fs, x) && Slot(x, name) !in fs.names {
      var names := NewNames(fs, fs.heap[x].ino, isDir, ino, id)[Slot(x, name) := ino];
      var alloc := Alloc(fs, isDir, ino, id).(names := names);
      forall d | IsDir(alloc, d) ensures HasDots(names, d) {
        if d != id { assert IsDir(fs, d); }
      }
      FewerDirs(alloc, names);
    }
  }

  lemma DropDots(fs: Fs, x: Id)
    requires Valid(fs) && x in fs.nodes && AllDots(fs) && Careful(fs, OpDrop(x))
    ensures AllDots(DropNode(fs, x))
  {
    var names := fs.names - Listing(fs.names, x);
    var fs' := DropNode(fs, x);
    assert IsDir(fs, x) ==> Refs(names, fs.heap[x].ino) == {};
    forall d | IsDir(fs', d) ensures HasDots(names, d) {
      assert IsDir(fs, d) && d != x;
    }
  }

  lemma StepDots(fs: Fs, op: Op, fs': Fs)
    requires Valid(fs) && AllDots(fs) && Step(fs, op, fs') && Careful(fs, op)
    ensures AllDots(fs')
  {
    hide Inv;
    match op
    case OpLookup(x, name) =>
      assert fs'.heap == fs.heap && fs'.names == fs.names;
      assert forall d :: IsDir(fs', d) ==> IsDir(fs, d);
    case OpCreate(x, name, isDir, ino, id) =>
      CreateDots(fs, x, name, isDir, ino, id);
    case OpLink(x, name, y) =>
      var more := AddNode(fs, y);
      assert forall d :: IsDir(more, d) ==> IsDir(fs, d);
      FewerDirs(more, fs.names[Slot(x, name) := fs.heap[y].ino]);
    case OpUnlink(x, name) =>
      FewerDirs(fs, fs.names - {Slot(x, name)});
    case OpRename(x, name, y, dst, hold) =>
      var p := Slot(x, name);
      FewerDirs(fs, fs.names - {p});
      if p in fs.names { FewerDirs(fs, (fs.names - {p})[Slot(y, dst) := fs.names[p]]); }
    case OpDrop(x) =>
      DropDots(fs, x);
  }

  /** In every state of every run of such steps a directory can be unlinked exactly if
      nothing but "." and ".." is in it. */
  lemma {:induction false} RunUnlinkIff(states: seq<Fs>, ops: seq<Op>, k: nat, x: Id, name: FileName)
    requires Run(states, ops) && k < |states| && IsDir(states[k], x) && Slot(x, name) in states[k].names
    requires forall j :: 0 <= j < |ops| ==> Careful(states[j], ops[j])
    requires IsDir(states[k], At(states[k], Slot(x, name)))
    ensures Unlink(states[k], x, name).1 == Done <==> Empty(states[k].names, At(states[k], Slot(x, name)))
  {
    RunConsistent(states, ops, k);
    RunDots(states, ops, k);
    UnlinkEmptyIff(states[k], x, name);
  }

  lemma {:induction false} RunDots(states: seq<Fs>, ops: seq<Op>, k: nat)
    requires Run(states, ops) && k < |states|
    requires forall j :: 0 <= j < |ops| ==> Careful(states[j], ops[j])
    ensures AllDots(states[k])
  {
    hide Inv;
    hide Step;
    hide Careful;
    hide New;
    hide AllDots;
    hide Consistent;
    if k > 0 {
      RunDots(states, ops, k - 1);
      RunConsistent(states, ops, k - 1);
      StepDots(states[k - 1], ops[k - 1], states[k]);
    } else {
      var ino, id :| states[0] == New(ino, id);
      NewDots(ino, id);
    }
  }

  lemma NewDots(ino: Ino, id: Id)
    ensures AllDots(New(ino, id))
  {
    NewKinds(ino, id);
    hide New;
  }

  // ---------------------------------------------------------- what a new inode brings

  lemma NewRefs(fs: Fs, p: Slot, isDir: bool, ino: Ino, id: Id, parent: Ino, i: Ino)
    requires NamesOk(fs) && id !in fs.heap && p !in fs.names && p.dir != id
    ensures |Refs(NewNames(fs, parent, isDir, ino, id)[p := ino], i)| ==
            |Refs(fs.names, i)| + (if i == ino then 1 else 0)
            + if isDir then (if i == ino then 1 else 0) + (if i == parent then 1 else 0) else 0
  {
    hide Refs;
    assert forall q :: q in fs.names ==> q.dir != id;
    if isDir {
      PutRefs(fs.names, Slot(id, DOT), ino, i);
      PutRefs(fs.names[Slot(id, DOT) := ino], Slot(id, DOTDOT), parent, i);
    }
    PutRefs(NewNames(fs, parent, isDir, ino, id), p, ino, i);
  }

  /** A new file has one link.  A new directory has two, and one more goes to the
      directory it is created in.  No other count changes. */
  lemma CreateCounts(fs: Fs, x: Id, name: FileName, isDir: bool, ino: Ino, id: Id, i: Ino)
    requires Valid(fs) && x in fs.nodes && ino !in fs.slab && id !in fs.heap
    requires Create(fs, x, name, isDir, ino, id).1.Node?
    ensures Links(Create(fs, x, name, isDir, ino, id).0, i) ==
            Links(fs, i) + if i == ino then (if isDir then 2 else 1)
                           else if isDir && i == fs.heap[x].ino then 1 else 0
  {
    CreatedAt(fs, x, name, isDir, ino, id);
    NewRefs(fs, Slot(x, name), isDir, ino, id, fs.heap[x].ino, i);
    hide Create;
    hide NewNames;
    hide At;
    LinksAreRefs(fs, i);
    LinksAreRefs(Create(fs, x, name, isDir, ino, id).0, i);
  }

  /** Looking up ".." in a new directory gives the directory it was created in, and "."
      the directory itself. */
  lemma CreateDotDot(fs: Fs, x: Id, name: FileName, ino: Ino, id: Id)
    requires Valid(fs) && x in fs.nodes && ino !in fs.slab && id !in fs.heap
    requires Create(fs, x, name, true, ino, id).1.Node?
    ensures var fs1 := Create(fs, x, name, true, ino, id).0;
            Lookup(fs1, id, DOTDOT).1 == Node(x) && Lookup(fs1, id, DOT).1 == Node(id)
  {
    var fs1 := Create(fs, x, name, true, ino, id).0;
    CreatedAt(fs, x, name, true, ino, id);
    CreatedKinds(fs, x, name, true, ino, id);
    hide Create;
    hide CountOk;
    assert x != id;
    AtHeld(fs1, Slot(id, DOT), id, true);
    AtHeld(fs1, Slot(id, DOTDOT), x, true);
  }

  /** Exactly when lookup, create and link fail, and how; a failure changes nothing. */
  lemma OutcomesIff(fs: Fs, x: Id, name: FileName, isDir: bool, ino: Ino, id: Id, y: Id)
    requires y in fs.heap
    ensures var (a, b, c) := (Lookup(fs, x, name), Create(fs, x, name, isDir, ino, id), Link(fs, x, name, y));
            var there := Slot(x, name) in fs.names;
            && (a.1 == Err(ENOTDIR) <==> !IsDir(fs, x)) && (a.1 == Err(ENOENT) <==> IsDir(fs, x) && !there)
            && (b.1 == Err(ENOTDIR) <==> !IsDir(fs, x)) && (b.1 == Err(EEXIST) <==> IsDir(fs, x) && there)
            && (c.1 == Err(ENOTDIR) <==> !IsDir(fs, x)) && (c.1 == Err(EEXIST) <==> IsDir(fs, x) && there)
            && (a.1.Err? ==> a.0 == fs) && (b.1.Err? ==> b.0 == fs) && (c.1.Err? ==> c.0 == fs)
            && (IsDir(fs, x) ==> a.1.Node? == there && b.1.Node? == c.1.Node? == !there)
            && (b.1.Node? ==> b.1.id == id) && (c.1.Node? ==> c.1.id == y)
  {
    hide Recount;
    hide NewNames;
  }

  /** Looking a name up adds one node, on the inode the name leads to, and changes nothing else. */
  lemma LookupAdds(fs: Fs, x: Id, name: FileName)
    requires Valid(fs) && Lookup(fs, x, name).1.Node?
    ensures var (fs', r) := Lookup(fs, x, name);
            && fs' == fs.(nodes := fs'.nodes) && fs'.nodes == fs.nodes + multiset{r.id}
            && Slot(x, name) in fs.names && r.id in fs.heap && fs.heap[r.id].ino == fs.names[Slot(x, name)]
  {
    AtValid(fs, Slot(x, name));
  }

  /** The names that the probes of a rename lose. */
  function ProbeLoss(fs: Fs, x: Id, src: FileName, y: Id, dst: FileName, hold: Hold): set<Slot> {
    var p, q := Slot(x, src), Slot(y, dst);
    if p in fs.names && q in fs.names then Lost(fs.names, At(fs, p), At(fs, q), hold) else {}
  }

  lemma KeptDir(fs: Fs, a: Id, b: Id, hold: Hold, x: Id)
    requires Valid(fs) && a in fs.heap && b in fs.heap && x in fs.nodes
    ensures IsDir(Probe(fs, a, b, hold), x) == IsDir(fs, x)
  {
    hide Inv;
    hide DropNode;
    ProbeValid(fs, a, b, hold);
    ProbeShrunk(fs, a, b, hold);
    HeldKinds(fs, Probe(fs, a, b, hold), x);
  }

  lemma HeldKinds(fs: Fs, fs': Fs, x: Id)
    requires Valid(fs) && Valid(fs') && Shrunk(fs, fs') && x in fs.nodes && x in fs'.nodes
    ensures IsDir(fs', x) == IsDir(fs, x)
  {
  }

  lemma ProbeShrunk(fs: Fs, a: Id, b: Id, hold: Hold)
    ensures Shrunk(fs, Probe(fs, a, b, hold))
  {
    var fs1 := AddNode(HoldDst(fs, b, hold), a);
    var fs2 := DropNode(fs1, a);
    DropShrunk(fs1, a);
    DropShrunk(fs2, b);
    hide DropNode;
  }

  lemma DropShrunk(fs: Fs, x: Id)
    ensures Shrunk(fs, DropNode(fs, x))
  {
  }

  /** Exactly when a rename fails, and how.  A probe can lose the very name that is to be
      moved, and a rename into what is no directory loses that name, too. */
  lemma RenameIff(fs: Fs, x: Id, src: FileName, y: Id, dst: FileName, hold: Hold)
    requires Valid(fs) && x in fs.nodes && y in fs.nodes
    ensures var r := Rename(fs, x, src, y, dst, hold).1;
            var p, q := Slot(x, src), Slot(y, dst);
            var moved := q in fs.names ==> p in fs.names && fs.names[p] != fs.names[q];
            && (r == Err(ENOTDIR) <==> !IsDir(fs, x) || (p in fs.names && !IsDir(fs, y)))
            && (r == Err(ENOENT) <==>
                  IsDir(fs, x) && (p !in fs.names || (moved && p in ProbeLoss(fs, x, src, y, dst, hold))))
            && (r.Done? || r.Err?)
    ensures Slot(x, src) in fs.names && !IsDir(fs, y) ==>
              Rename(fs, x, src, y, dst, hold).0.names == fs.names - {Slot(x, src)}
  {
    hide Inv;
    hide Probe;
    hide Recount;
    hide At;
    hide Lost;
    var p, q := Slot(x, src), Slot(y, dst);
    if q in fs.names { NamedIsDir(fs, q); }
    if p in fs.names { NamedIsDir(fs, p); }
    if q in fs.names && p in fs.names {
      AtValid(fs, p);
      AtValid(fs, q);
      KeptDir(fs, At(fs, p), At(fs, q), hold, x);
      KeptDir(fs, At(fs, p), At(fs, q), hold, y);
      ProbeNames(fs, At(fs, p), At(fs, q), hold);
      assert p in ProbeLoss(fs, x, src, y, dst, hold) <==> p !in Probe(fs, At(fs, p), At(fs, q), hold).names;
    } else {
      assert Recount(fs, fs.names - {p}).names == fs.names - {p} by { RecountNames(fs, fs.names - {p}); }
    }
  }

  lemma RecountNames(fs: Fs, names: map<Slot, Ino>)
    ensures Recount(fs, names).names == names
  {
  }

  /** A new link resolves to the inode it was made for. */
  lemma LinkThenLookup(fs: Fs, x: Id, name: FileName, y: Id)
    requires Valid(fs) && x in fs.nodes && y in fs.nodes && Link(fs, x, name, y).1.Node?
    ensures Lookup(Link(fs, x, name, y).0, x, name).1 == Node(y)
  {
    var fs1 := Link(fs, x, name, y).0;
    LinkValid(fs, x, name, y);
    AtHeld(fs1, Slot(x, name), y, fs.heap[y].isDir);
  }

  /** A rename to a new name leaves ".." of a renamed directory where it led before, so
      that it leads to the new parent exactly if it did so already. */
  lemma RenameDotDotIff(fs: Fs, x: Id, src: FileName, y: Id, dst: FileName, hold: Hold)
    requires Valid(fs) && x in fs.nodes && y in fs.nodes && Slot(y, dst) !in fs.names
    requires Rename(fs, x, src, y, dst, hold).1.Done?
    requires var up := Slot(At(fs, Slot(x, src)), DOTDOT); up in fs.names && up != Slot(x, src)
    ensures var fs' := Rename(fs, x, src, y, dst, hold).0;
            var a := At(fs, Slot(x, src));
            && At(fs', Slot(y, dst)) == a
            && Lookup(fs', a, DOTDOT).1 == Node(At(fs, Slot(a, DOTDOT)))
            && (Lookup(fs', a, DOTDOT).1 == Node(y) <==> At(fs, Slot(a, DOTDOT)) == y)
  {
    hide Inv;
    hide At;
    hide Shrunk;
    hide Move;
    var p, fs' := Slot(x, src), Rename(fs, x, src, y, dst, hold).0;
    var up := Slot(At(fs, p), DOTDOT);
    RenameValid(fs, x, src, y, dst, hold);
    MoveDone(fs, x, src, y, dst);
    MoveShrunk(fs, x, src, y, dst);
    SameAt(fs, fs', up, up);
    SameAt(fs, fs', p, Slot(y, dst));
    NamedIsDir(fs', up);
  }

  lemma MoveShrunk(fs: Fs, x: Id, src: FileName, y: Id, dst: FileName)
    ensures Shrunk(fs, Move(fs, x, src, y, dst).0)
  {
  }

  lemma NamedIsDir(fs: Fs, p: Slot)
    requires Valid(fs) && p in fs.names
    ensures IsDir(fs, p.dir)
  {
  }

  /** An entry with the same number resolves to the same inode. */
  lemma SameAt(fs: Fs, fs': Fs, p: Slot, q: Slot)
    requires Valid(fs) && Valid(fs') && Shrunk(fs, fs')
    requires p in fs.names && q in fs'.names && fs.names[p] == fs'.names[q]
    ensures At(fs', q) == At(fs, p) && At(fs, p) in fs'.heap
  {
    AtValid(fs, p);
    AtValid(fs', q);
  }

  // ------------------------------------------------------- a rename that loses a file

  /** Creating keeps every live node's inode, adds the new one, and occupies nothing else. */
  lemma CreatedKinds(fs: Fs, x: Id, name: FileName, isDir: bool, ino: Ino, id: Id)
    requires Valid(fs) && x in fs.nodes && ino !in fs.slab && id !in fs.heap
    requires Create(fs, x, name, isDir, ino, id).1.Node?
    ensures var fs1 := Create(fs, x, name, isDir, ino, id).0;
            && (forall y :: y in fs.nodes ==> Holds(fs1, y, fs.heap[y].ino, fs.heap[y].isDir))
            && Holds(fs1, id, ino, isDir)
            && fs1.slab.Keys <= fs.slab.Keys + {ino} && fs1.heap.Keys <= fs.heap.Keys + {id}
  {
    hide Create;
    hide CountOk;
    hide NamesOk;
    hide NewNames;
    hide At;
    CreatedAt(fs, x, name, isDir, ino, id);
    var fs1, alloc := Create(fs, x, name, isDir, ino, id).0, Alloc(fs, isDir, ino, id);
    forall y | y in fs1.heap ensures y in alloc.heap && fs1.heap[y].ino == alloc.heap[y].ino { }
    forall i | i in fs1.slab ensures i in fs.slab.Keys + {ino} {
      var y := fs1.slab[i];
      assert fs1.heap[y].ino == i;
    }
  }

  /** A live node `y` holds an inode with this number and kind. */
  predicate Holds(fs: Fs, y: Id, ino: Ino, isDir: bool) {
    y in fs.nodes && y in fs.heap && fs.heap[y].ino == ino && fs.heap[y].isDir == isDir
  }

  lemma AtHeld(fs: Fs, p: Slot, y: Id, isDir: bool)
    requires Valid(fs) && p in fs.names && Holds(fs, y, fs.names[p], isDir)
    ensures At(fs, p) == y
  {
  }

  lemma CreateStep(fs: Fs, x: Id, name: FileName, isDir: bool, ino: Ino, id: Id)
    requires Valid(fs) && x in fs.nodes && IsDir(fs, x) && Slot(x, name) !in fs.names
    requires ino !in fs.slab && id !in fs.heap
    ensures Create(fs, x, name, isDir, ino, id).1 == Node(id)
    ensures Step(fs, OpCreate(x, name, isDir, ino, id), Create(fs, x, name, isDir, ino, id).0)
  {
  }

  lemma ProbeKinds(fs: Fs, a: Id, b: Id, x: Id)
    requires Valid(fs) && a in fs.heap && x in fs.nodes && IsDir(fs, x)
    ensures IsDir(Probe(fs, a, b, Hit), x)
  {
    hide DropNode;
    AddNodeValid(fs, a);
    DropNodeValid(AddNode(fs, a), a);
    VisitValid(fs, a);
  }

  /** Renaming a directory onto another existing name succeeds, and its files are gone. */
  lemma RenameEmpties(fs: Fs, x: Id, src: FileName, dst: FileName, f: Slot)
    requires Valid(fs) && x in fs.nodes && IsDir(fs, x)
    requires var p, q := Slot(x, src), Slot(x, dst);
             p in fs.names && q in fs.names && fs.names[p] != fs.names[q] && f in fs.names && f.dir == At(fs, p) != x
    ensures Rename(fs, x, src, x, dst, Hit).1.Done? && f !in Rename(fs, x, src, x, dst, Hit).0.names
  {
    hide Inv;
    hide At;
    var p, q := Slot(x, src), Slot(x, dst);
    var a, b := At(fs, p), At(fs, q);
    AtValid(fs, p);
    ProbeKinds(fs, a, b, x);
    ProbeNames(fs, a, b, Hit);
    hide Probe;
    assert Move(Probe(fs, a, b, Hit), x, src, x, dst).1.Done?;
    RenameDone(fs, x, src, x, dst, Hit);
  }

  const A := FileName("a")
  const B := FileName("b")
  const F := FileName("f")

  /** `names'` has `p` for `ino`, all of `names`, and else only the entries of a new directory. */
  ghost predicate Extends(names: map<Slot, Ino>, names': map<Slot, Ino>, p: Slot, ino: Ino, id: Id) {
    && p in names' && names'[p] == ino
    && (forall o :: o in names ==> o in names' && names'[o] == names[o])
    && (forall o :: o in names' ==> o in names || o == p || o == Slot(id, DOT) || o == Slot(id, DOTDOT))
  }

  lemma CreatedNames(fs: Fs, p: Slot, isDir: bool, ino: Ino, id: Id, parent: Ino)
    requires NamesOk(fs) && id !in fs.heap && p !in fs.names
    ensures Extends(fs.names, NewNames(fs, parent, isDir, ino, id)[p := ino], p, ino, id)
  {
    assert forall o :: o in fs.names ==> o.dir != id;
  }

  /** What a create adds and what it keeps. */
  lemma CreateMore(fs: Fs, x: Id, name: FileName, isDir: bool, ino: Ino, id: Id, parent: Ino)
    requires Valid(fs) && Holds(fs, x, parent, true) && Slot(x, name) !in fs.names
    requires ino !in fs.slab && id !in fs.heap
    ensures var fs1 := Create(fs, x, name, isDir, ino, id).0;
            && Step(fs, OpCreate(x, name, isDir, ino, id), fs1) && Valid(fs1)
            && Holds(fs1, id, ino, isDir)
            && (forall y, i, d :: Holds(fs, y, i, d) ==> Holds(fs1, y, i, d))
            && Extends(fs.names, fs1.names, Slot(x, name), ino, id)
            && (isDir ==> Slot(id, DOTDOT) in fs1.names && fs1.names[Slot(id, DOTDOT)] == parent)
            && fs1.slab.Keys <= fs.slab.Keys + {ino} && fs1.heap.Keys <= fs.heap.Keys + {id}
  {
    hide SlabOk;
    hide NamesOk;
    hide CountOk;
    hide Step;
    hide Extends;
    CreateStep(fs, x, name, isDir, ino, id);
    CreatedAt(fs, x, name, isDir, ino, id);
    CreatedKinds(fs, x, name, isDir, ino, id);
    CreatedNames(fs, Slot(x, name), isDir, ino, id, fs.heap[x].ino);
    assert x != id;
  }

  /** A new file system in which directory "a" was created. */
  lemma OneDirectory() returns (fs0: Fs, fs1: Fs)
    ensures fs0 == New(1, 10) && Step(fs0, OpCreate(10, A, true, 2, 11), fs1) && Valid(fs1)
    ensures Holds(fs1, 10, 1, true) && Holds(fs1, 11, 2, true)
    ensures fs1.slab.Keys <= {1, 2} && fs1.heap.Keys <= {10, 11}
    ensures Slot(10, A) in fs1.names && fs1.names[Slot(10, A)] == 2
    ensures Slot(11, DOTDOT) in fs1.names && fs1.names[Slot(11, DOTDOT)] == 1
    ensures Slot(10, B) !in fs1.names && Slot(11, F) !in fs1.names && Slot(13, A) !in fs1.names
  {
    hide Inv;
    hide Step;
    hide New;
    hide Create;
    fs0 := New(1, 10);
    NewValid(1, 10);
    NewKinds(1, 10);
    CreateMore(fs0, 10, A, true, 2, 11, 1);
    fs1 := Create(fs0, 10, A, true, 2, 11).0;
  }

  /** Directory "a" with file "f" in it, and directory "b". */
  lemma TwoDirectories() returns (states: seq<Fs>, ops: seq<Op>)
    ensures Run(states, ops) && |states| == 4 && Valid(states[3])
    ensures Holds(states[3], 10, 1, true) && Holds(states[3], 11, 2, true) && Holds(states[3], 13, 4, true)
    ensures var names := states[3].names;
            && Slot(10, A) in names && names[Slot(10, A)] == 2 && Slot(10, B) in names && names[Slot(10, B)] == 4
            && Slot(11, DOTDOT) in names && names[Slot(11, DOTDOT)] == 1
            && Slot(11, F) in names && Slot(13, A) !in names
  {
    hide Inv;
    hide Step;
    hide New;
    hide Create;
    hide Holds;
    var s0, s1 := OneDirectory();
    CreateMore(s1, 11, F, false, 3, 12, 2);
    var s2 := Create(s1, 11, F, false, 3, 12).0;
    CreateMore(s2, 10, B, true, 4, 13, 1);
    var s3 := Create(s2, 10, B, true, 4, 13).0;
    states := [s0, s1, s2, s3];
    ops := [OpCreate(10, A, true, 2, 11), OpCreate(11, F, false, 3, 12), OpCreate(10, B, true, 4, 13)];
  }

  /** From there, renaming "a" to "b" succeeds, and "f" is no longer anywhere. */
  lemma RenameLosesFile() returns (states: seq<Fs>, ops: seq<Op>)
    ensures Run(states, ops) && |states| == 5
    ensures ops[3] == OpRename(10, A, 10, B, Hit) && Rename(states[3], 10, A, 10, B, Hit).1.Done?
    ensures Slot(11, F) in states[3].names && Slot(11, F) !in states[4].names
  {
    hide Inv;
    hide Rename;
    hide Create;
    states, ops := TwoDirectories();
    var fs := states[3];
    AtHeld(fs, Slot(10, A), 11, true);
    RenameEmpties(fs, 10, A, B, Slot(11, F));
    var fs' := Rename(fs, 10, A, 10, B, Hit).0;
    assert Step(fs, OpRename(10, A, 10, B, Hit), fs');
    hide Step;
    states, ops := states + [fs'], ops + [OpRename(10, A, 10, B, Hit)];
  }

  /** From there, renaming "a" to "a" in "b" succeeds, and ".." of it still leads to the root. */
  lemma DotDotStale() returns (states: seq<Fs>, ops: seq<Op>)
    ensures Run(states, ops) && |states| == 5 && ops[3] == OpRename(10, A, 13, A, Hit)
    ensures At(states[4], Slot(13, A)) == 11 && Lookup(states[4], 11, DOTDOT).1 == Node(10)
  {
    hide Inv;
    hide Create;
    states, ops := TwoDirectories();
    var fs := states[3];
    AtHeld(fs, Slot(10, A), 11, true);
    AtHeld(fs, Slot(11, DOTDOT), 10, true);
    var fs' := Rename(fs, 10, A, 13, A, Hit).0;
    assert Rename(fs, 10, A, 13, A, Hit).1.Done?;
    hide Rename;
    RenameDotDotIff(fs, 10, A, 13, A, Hit);
    assert Step(fs, OpRename(10, A, 13, A, Hit), fs');
    hide Step;
    states, ops := states + [fs'], ops + [OpRename(10, A, 13, A, Hit)];
  }

  lemma SlabShrinks(fs: Fs, fs': Fs)
    requires Valid(fs) && Valid(fs') && Shrunk(fs, fs')
    ensures fs'.slab.Keys <= fs.slab.Keys && fs'.heap.Keys <= fs.heap.Keys
    ensures forall y, i, d :: Holds(fs, y, i, d) && y in fs'.nodes ==> Holds(fs', y, i, d)
  {
    hide NamesOk;
    hide CountOk;
    forall y | y in fs'.heap ensures y in fs.heap { }
    forall i | i in fs'.slab ensures i in fs.slab {
      var y := fs'.slab[i];
      assert fs'.heap[y].ino == i;
    }
  }

  /** Renaming a directory to itself keeps its name and empties it. */
  lemma RenameToSelf(fs: Fs, x: Id, name: FileName, a: Id)
    requires Valid(fs) && x in fs.nodes && IsDir(fs, x) && Slot(x, name) in fs.names && At(fs, Slot(x, name)) == a
    ensures var (fs', r) := Rename(fs, x, name, x, name, Hit);
            && r == Done && Valid(fs') && Shrunk(fs, fs') && fs'.nodes == fs.nodes
            && fs'.names == fs.names - Listing(fs.names, a)
  {
    hide Inv;
    hide Shrunk;
    AtValid(fs, Slot(x, name));
    VisitValid(fs, a);
    AddNodeValid(fs, a);
    DropNodeValid(AddNode(fs, a), a);
    DropNodeEffect(AddNode(fs, a), a);
    hide DropNode;
    VisitShrunk(fs, AddNode(fs, a), DropNode(AddNode(fs, a), a));
  }

  lemma VisitShrunk(fs: Fs, fs1: Fs, fs2: Fs)
    requires fs1.heap == fs.heap && Shrunk(fs1, fs2)
    ensures Shrunk(fs, fs2)
  {
  }

  /** Directory "a" has been renamed to itself, and then file "f" was created in it. */
  lemma DotsLost() returns (states: seq<Fs>, ops: seq<Op>)
    ensures Run(states, ops) && |states| == 4 && Valid(states[3])
    ensures Holds(states[3], 10, 1, true) && Holds(states[3], 11, 2, true)
    ensures Slot(10, A) in states[3].names && At(states[3], Slot(10, A)) == 11
    ensures Slot(11, F) in states[3].names
    ensures Others(states[3].names, 11) == {Slot(11, F)} && Missing(states[3].names, 11) == Dots(11)
  {
    hide Inv;
    hide Create;
    hide Rename;
    hide New;
    var s0, s1 := OneDirectory();
    AtHeld(s1, Slot(10, A), 11, true);
    RenameToSelf(s1, 10, A, 11);
    var s2 := Rename(s1, 10, A, 10, A, Hit).0;
    assert Step(s1, OpRename(10, A, 10, A, Hit), s2);
    hide Step;
    SlabShrinks(s1, s2);
    assert Slot(11, F) !in s2.names;
    CreateMore(s2, 11, F, false, 3, 12, 2);
    var s3 := Create(s2, 11, F, false, 3, 12).0;
    AtHeld(s3, Slot(10, A), 11, true);
    states := [s0, s1, s2, s3];
    ops := [OpCreate(10, A, true, 2, 11), OpRename(10, A, 10, A, Hit), OpCreate(11, F, false, 3, 12)];
  }

  /** From there, unlinking "a" succeeds with "f" in it. */
  lemma UnlinkLosesFile() returns (states: seq<Fs>, ops: seq<Op>)
    ensures Run(states, ops) && |states| == 5 && ops[3] == OpUnlink(10, A)
    ensures At(states[3], Slot(10, A)) == 11 && Slot(11, F) in states[3].names
    ensures Unlink(states[3], 10, A).1 == Done && Slot(10, A) !in states[4].names
  {
    hide Inv;
    hide New;
    hide Unlink;
    states, ops := DotsLost();
    var fs := states[3];
    UnlinkIff(fs, 10, A);
    assert |Others(fs.names, 11)| == 1 && |Missing(fs.names, 11)| == 2;
    hide Others;
    hide Missing;
    var fs' := Unlink(fs, 10, A).0;
    assert Step(fs, OpUnlink(10, A), fs');
    hide Step;
    states, ops := states + [fs'], ops + [OpUnlink(10, A)];
  }

  lemma NewKinds(ino: Ino, id: Id)
    ensures var fs := New(ino, id);
            && fs.nodes == multiset{id} && Holds(fs, id, ino, true) && fs.slab.Keys <= {ino} && fs.heap.Keys <= {id}
            && fs.names == map[Slot(id, DOT) := ino, Slot(id, DOTDOT) := ino]
  {
    NewValid(ino, id);
  }
}
