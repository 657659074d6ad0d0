/** The file system as the source runs it: link counts are adjusted one reference
    at a time, and slots are vacated when a release finds no holder left.  Every
    method is proved to reach exactly the state that recounting would give. */
module TmpfsCode {
  import opened T = Tmpfs

  /** `entries.insert(name, InodeRef::new(ino))` at a name not in use. */
  function Enter(fs: Fs, p: Slot, i: Ino): Fs
    requires i in fs.slab && fs.slab[i] in fs.heap
  {
    Put(RefNew(fs, i), p, i)
  }

  lemma EnterValid(fs: Fs, p: Slot, i: Ino)
    requires Valid(fs) && i in fs.slab && fs.slab[i] in fs.heap
    requires p.dir in fs.nodes && fs.heap[p.dir].isDir && p !in fs.names
    ensures Valid(Enter(fs, p, i)) && Shrunk(fs, Enter(fs, p, i))
  {
    RefNewInv(fs, multiset{}, i);
    PutInv(RefNew(fs, i), multiset{i}, p, i);
  }

  /** `entries.remove(name)` with the removed `InodeRef` dropped. */
  function Erase(fs: Fs, p: Slot): Fs
    requires p in fs.names && fs.names[p] in fs.slab && fs.slab[fs.names[p]] in fs.heap
  {
    RefDrop(Take(fs, p), fs.names[p])
  }

  lemma EraseValid(fs: Fs, p: Slot)
    requires Valid(fs) && p in fs.names
    ensures fs.names[p] in fs.slab && fs.slab[fs.names[p]] in fs.heap
    ensures Valid(Erase(fs, p)) && Shrunk(fs, Erase(fs, p))
  {
    AtValid(fs, p);
    TakeInv(fs, multiset{}, p);
    RefDropInv(Take(fs, p), multiset{fs.names[p]}, fs.names[p]);
  }

  lemma EraseListing(names: map<Slot, Ino>, p: Slot)
    requires p in names
    ensures |Listing(names - {p}, p.dir)| < |Listing(names, p.dir)|
    ensures names - {p} - Listing(names - {p}, p.dir) == names - Listing(names, p.dir)
  {
    assert p in Listing(names, p.dir);
    assert Listing(names - {p}, p.dir) == Listing(names, p.dir) - {p};
  }

  /** Dropping a node of `x` once its entries are gone. */
  function DropBare(fs: Fs, x: Id): Fs
    requires x in fs.heap
  {
    Release(fs.(nodes := fs.nodes - multiset{x}), x, 0, 1)
  }

  lemma DropBareFrees(fs: Fs, x: Id)
    requires SlabOk(fs) && CountOk(fs, multiset{}) && x in fs.nodes
    ensures x !in DropBare(fs, x).heap <==> Refs(fs.names, fs.heap[x].ino) == {} && fs.nodes[x] == 1
  {
  }

  lemma DropBareCount(fs: Fs, x: Id)
    requires SlabOk(fs) && CountOk(fs, multiset{}) && x in fs.nodes
    ensures CountOk(DropBare(fs, x), multiset{})
  {
    DropBareFrees(fs, x);
    var fs' := DropBare(fs, x);
    forall y | y in fs'.heap
      ensures fs'.heap[y] == fs.heap[y] && (fs'.heap[y].nlink > 0 || y in fs'.nodes)
    {
    }
  }

  lemma FewerNodes(fs: Fs, x: Id)
    requires SlabOk(fs) && NamesOk(fs) && Listing(fs.names, x) == {}
    ensures SlabOk(fs.(nodes := fs.nodes - multiset{x})) && NamesOk(fs.(nodes := fs.nodes - multiset{x}))
  {
    forall p | p in fs.names ensures p.dir != x { assert p !in Listing(fs.names, x); }
  }

  lemma DropBareValid(fs: Fs, x: Id)
    requires Valid(fs) && x in fs.nodes && Listing(fs.names, x) == {}
    ensures Valid(DropBare(fs, x)) && Shrunk(fs, DropBare(fs, x))
  {
    DropBareCount(fs, x);
    DropBareFrees(fs, x);
    DropBareShrunk(fs, x);
    FewerNodes(fs, x);
    assert x in fs.heap;
    hide SlabOk;
    hide CountOk;
    hide NamesOk;
    hide Release;
    hide Refs;
    hide Shrunk;
    ReleaseShape(fs.(nodes := fs.nodes - multiset{x}), x, 0, 1);
  }

  lemma DropBareShrunk(fs: Fs, x: Id)
    requires x in fs.heap
    ensures Shrunk(fs, DropBare(fs, x))
  {
  }

  /** Clearing the entries one by one and releasing the node is dropping it. */
  lemma DropIsRecount(fs: Fs, cleared: Fs, x: Id)
    requires Valid(fs) && x in fs.nodes && Valid(cleared) && Shrunk(fs, cleared)
    requires cleared.nodes == fs.nodes && cleared.names == fs.names - Listing(fs.names, x)
    ensures DropBare(cleared, x) == DropNode(fs, x) && Valid(DropNode(fs, x))
  {
    assert Listing(cleared.names, x) == {};
    DropBareValid(cleared, x);
    DropNodeValid(fs, x);
    Determined(fs, DropBare(cleared, x), DropNode(fs, x));
  }

  lemma CreateIsRecount(fs: Fs, fs': Fs, x: Id, name: FileName, isDir: bool, ino: Ino, id: Id)
    requires Valid(fs) && x in fs.nodes && ino !in fs.slab && id !in fs.heap
    requires IsDir(fs, x) && Slot(x, name) !in fs.names
    requires Valid(fs') && Shrunk(Alloc(fs, isDir, ino, id), fs') && fs'.nodes == fs.nodes + multiset{id}
    requires fs'.names == NewNames(fs, fs.heap[x].ino, isDir, ino, id)[Slot(x, name) := ino]
    ensures fs' == Create(fs, x, name, isDir, ino, id).0
  {
    AllocInv(fs, isDir, ino, id);
    var alloc := Alloc(fs, isDir, ino, id);
    RecountValid(alloc, fs'.names);
    hide SlabOk;
    hide NamesOk;
    hide CountOk;
    hide Shrunk;
    Determined(alloc, fs', Recount(alloc, fs'.names));
  }

  /** A new inode leaves the directory it is created in, and the name, as they were. */
  lemma NewInodeReady(fs: Fs, fs': Fs, x: Id, name: FileName, isDir: bool, ino: Ino, id: Id)
    requires Valid(fs) && x in fs.nodes && IsDir(fs, x) && Slot(x, name) !in fs.names && id !in fs.heap
    requires Valid(fs') && Shrunk(Alloc(fs, isDir, ino, id), fs') && fs'.nodes == fs.nodes + multiset{id}
    requires fs'.names == NewNames(fs, fs.heap[x].ino, isDir, ino, id)
    ensures x in fs'.nodes && IsDir(fs', x) && Slot(x, name) !in fs'.names
  {
    hide CountOk;
    hide NamesOk;
  }

  lemma HandOver(i: Ino, j: Ino)
    ensures multiset{i} + multiset{j} - multiset{i} == multiset{j}
  {
  }

  lemma ReplaceInv(fs: Fs, q: Slot, i: Ino)
    requires Inv(fs, multiset{i}) && q in fs.names
    ensures Inv(Put(fs, q, i), multiset{fs.names[q]})
  {
    hide CountOk;
    var j := fs.names[q];
    TakeInv(fs, multiset{i}, q);
    PutInv(Take(fs, q), multiset{i} + multiset{j}, q, i);
    assert Put(Take(fs, q), q, i) == Put(fs, q, i) by { assert (fs.names - {q})[q := i] == fs.names[q := i]; }
    HandOver(i, j);
  }

  lemma MoveIsRecount(fs: Fs, fs': Fs, x: Id, src: FileName, y: Id, dst: FileName)
    requires Valid(fs) && x in fs.nodes && y in fs.nodes && IsDir(fs, x) && Slot(x, src) in fs.names
    requires Valid(fs') && Shrunk(fs, fs') && fs'.nodes == fs.nodes
    requires var p := Slot(x, src);
             fs'.names == if IsDir(fs, y) then (fs.names - {p})[Slot(y, dst) := fs.names[p]] else fs.names - {p}
    ensures fs' == Move(fs, x, src, y, dst).0
  {
    RecountValid(fs, fs'.names);
    Determined(fs, fs', Recount(fs, fs'.names));
  }

  class MemoryFs {
    var heap: map<Id, Inode>
    var names: map<Slot, Ino>
    var slab: map<Ino, Id>
    var nodes: multiset<Id>

    function Value(): Fs
      reads this
    {
      Fs(heap, names, slab, nodes)
    }

    /** `release_inode`: no count goes below zero, and no vacant slot is vacated. */
    method ReleaseInode(x: Id, k: nat, temps: nat)
      requires x in heap && heap[x].nlink >= k && heap[x].ino in slab
      modifies this
      ensures Value() == Release(old(Value()), x, k, temps)
    {
      var inode := heap[x];
      var count := (if slab[inode.ino] == x then 1 else 0) + nodes[x] + temps;
      heap := heap[x := inode.(nlink := inode.nlink - k)];
      if heap[x].nlink == 0 && count == 2 {
        slab := slab - {inode.ino};
        heap := heap - {x};
        assert heap == old(heap) - {x};
      }
    }

    method NewRef(i: Ino)
      requires i in slab && slab[i] in heap
      modifies this
      ensures Value() == RefNew(old(Value()), i)
    {
      var x := slab[i];
      heap := heap[x := heap[x].(nlink := heap[x].nlink + 1)];
    }

    /** `Drop for InodeRef`, for a reference that is in no directory any more. */
    method DropRef(i: Ino, ghost fly: multiset<Ino>)
      requires Inv(Value(), fly) && i in fly
      modifies this
      ensures i in old(slab) && old(slab)[i] in old(heap)
      ensures Value() == RefDrop(old(Value()), i)
      ensures Inv(Value(), fly - multiset{i}) && (fly == multiset{i} ==> Valid(Value()))
      ensures Shrunk(old(Value()), Value())
    {
      RefDropInv(Value(), fly, i);
      assert fly == multiset{i} ==> fly - multiset{i} == multiset{};
      var x := slab[i];
      assert heap[x].ino == i;
      ReleaseInode(x, 1, 1);
    }

    method InsertRef(p: Slot, i: Ino)
      requires Valid(Value()) && i in slab && p.dir in nodes && heap[p.dir].isDir && p !in names
      modifies this
      ensures Valid(Value()) && Shrunk(old(Value()), Value())
      ensures names == old(names)[p := i] && nodes == old(nodes) && slab == old(slab)
    {
      var x := slab[i];
      assert heap[x].ino == i;
      EnterValid(Value(), p, i);
      NewRef(i);
      names := names[p := i];
    }

    method RemoveRef(p: Slot)
      requires Valid(Value()) && p in names
      modifies this
      ensures Valid(Value()) && Shrunk(old(Value()), Value())
      ensures names == old(names) - {p} && nodes == old(nodes)
    {
      EraseValid(Value(), p);
      TakeInv(Value(), multiset{}, p);
      var i := names[p];
      names := names - {p};
      assert Value() == Take(old(Value()), p);
      DropRef(i, multiset{i});
    }

    /** `dir.entries.lock().clear()` for a directory, in any order; nothing for a file. */
    method ClearEntries(x: Id)
      requires Valid(Value()) && x in heap
      modifies this
      ensures Valid(Value()) && Shrunk(old(Value()), Value())
      ensures nodes == old(nodes) && names == old(names) - Listing(old(names), x)
    {
      if !heap[x].isDir {
        assert Listing(names, x) == {};
        return;
      }
      while Listing(names, x) != {}
        invariant Valid(Value()) && Shrunk(old(Value()), Value()) && nodes == old(nodes)
        invariant names - Listing(names, x) == old(names) - Listing(old(names), x)
        decreases |Listing(names, x)|
      {
        var p :| p in Listing(names, x);
        EraseListing(names, p);
        RemoveRef(p);
      }
    }

    method ReleaseNode(x: Id)
      requires Valid(Value()) && x in nodes
      modifies this
      ensures Value() == DropBare(old(Value()), x)
    {
      ReleaseInode(x, 0, 0);
      nodes := nodes - multiset{x};
    }

    /** `Drop for MemoryNode`. */
    method DropMemoryNode(x: Id)
      requires Valid(Value()) && x in nodes
      modifies this
      ensures Value() == DropNode(old(Value()), x) && Valid(Value())
    {
      ghost var before := Value();
      ClearEntries(x);
      DropIsRecount(before, Value(), x);
      ReleaseNode(x);
    }

    method LookupNode(x: Id, name: FileName) returns (r: Outcome)
      requires Valid(Value()) && x in nodes
      modifies this
      ensures (Value(), r) == Lookup(old(Value()), x, name) && Valid(Value())
    {
      if !heap[x].isDir { return Err(ENOTDIR); }
      if Slot(x, name) !in names { return Err(ENOENT); }
      AtValid(Value(), Slot(x, name));
      var i := names[Slot(x, name)];
      var y := slab[i];
      AddNodeValid(Value(), y);
      nodes := nodes + multiset{y};
      r := Node(y);
    }

    method FillSlot(isDir: bool, ino: Ino, id: Id)
      requires Valid(Value()) && ino !in slab && id !in heap
      modifies this
      ensures Value() == Alloc(old(Value()), isDir, ino, id) && Valid(Value())
    {
      AllocInv(Value(), isDir, ino, id);
      heap := heap[id := Inode(ino, 0, isDir)];
      slab := slab[ino := id];
      nodes := nodes + multiset{id};
    }

    /** `Inode::new`: a vacant slot, and for a directory its "." and "..". */
    method NewInode(parent: Ino, isDir: bool, ino: Ino, id: Id)
      requires Valid(Value()) && ino !in slab && id !in heap && (parent in slab || parent == ino)
      modifies this
      ensures Valid(Value()) && slab == old(slab)[ino := id]
      ensures Shrunk(Alloc(old(Value()), isDir, ino, id), Value())
      ensures names == NewNames(old(Value()), parent, isDir, ino, id) && nodes == old(nodes) + multiset{id}
    {
      assert forall p :: p in names ==> p.dir != id;
      FillSlot(isDir, ino, id);
      if isDir {
        InsertRef(Slot(id, DOT), ino);
        InsertRef(Slot(id, DOTDOT), parent);
      }
    }

    method CreateNode(x: Id, name: FileName, isDir: bool, ino: Ino, id: Id) returns (r: Outcome)
      requires Valid(Value()) && x in nodes && ino !in slab && id !in heap
      modifies this
      ensures (Value(), r) == Create(old(Value()), x, name, isDir, ino, id) && Valid(Value())
    {
      if !heap[x].isDir { return Err(ENOTDIR); }
      if Slot(x, name) in names { return Err(EEXIST); }
      ghost var before := Value();
      hide CountOk;
      hide NamesOk;
      NewInode(heap[x].ino, isDir, ino, id);
      NewInodeReady(before, Value(), x, name, isDir, ino, id);
      hide SlabOk;
      hide NewNames;
      hide Create;
      InsertRef(Slot(x, name), ino);
      CreateIsRecount(before, Value(), x, name, isDir, ino, id);
      r := Node(id);
    }

    method LinkNode(x: Id, name: FileName, y: Id) returns (r: Outcome)
      requires Valid(Value()) && x in nodes && y in nodes
      modifies this
      ensures (Value(), r) == Link(old(Value()), x, name, y) && Valid(Value())
    {
      if !heap[x].isDir { return Err(ENOTDIR); }
      if Slot(x, name) in names { return Err(EEXIST); }
      ghost var before := Value();
      InsertRef(Slot(x, name), heap[y].ino);
      AddNodeValid(Value(), y);
      nodes := nodes + multiset{y};
      LinkValid(before, x, name, y);
      Determined(before, Value(), Link(before, x, name, y).0);
      r := Node(y);
    }

    method UnlinkName(x: Id, name: FileName) returns (r: Outcome)
      requires Valid(Value()) && x in nodes
      modifies this
      ensures (Value(), r) == Unlink(old(Value()), x, name) && Valid(Value())
    {
      var p := Slot(x, name);
      if !heap[x].isDir { return Err(ENOTDIR); }
      if p !in names { return Err(ENOENT); }
      AtValid(Value(), p);
      var y := slab[names[p]];
      if heap[y].isDir && |Listing(names, y)| > 2 { return Err(ENOTEMPTY); }
      ghost var before := Value();
      RecountValid(before, names - {p});
      RemoveRef(p);
      Determined(before, Value(), Recount(before, before.names - {p}));
      r := Done;
    }

    /** `entries.insert(name, entry)`: the reference in hand replaces what was there,
        and the displaced reference is dropped. */
    method ReplaceRef(q: Slot, i: Ino)
      requires Inv(Value(), multiset{i}) && q.dir in nodes && heap[q.dir].isDir
      modifies this
      ensures Valid(Value()) && Shrunk(old(Value()), Value())
      ensures names == old(names)[q := i] && nodes == old(nodes)
    {
      hide CountOk;
      if q !in names {
        PutInv(Value(), multiset{i}, q, i);
        assert multiset{i} - multiset{i} == multiset{};
        names := names[q := i];
        return;
      }
      ReplaceInv(Value(), q, i);
      var j := names[q];
      names := names[q := i];
      DropRef(j, multiset{j});
    }

    method TakeRef(p: Slot) returns (i: Ino)
      requires Valid(Value()) && p in names
      modifies this
      ensures i == old(names)[p] && Value() == Take(old(Value()), p) && Inv(Value(), multiset{i})
    {
      TakeInv(Value(), multiset{}, p);
      i := names[p];
      names := names - {p};
    }

    /** The reference taken from the source goes into the destination directory, or
        is dropped when the destination is not a directory. */
    method PlaceRef(y: Id, dst: FileName, i: Ino) returns (r: Outcome)
      requires Inv(Value(), multiset{i}) && y in nodes
      modifies this
      ensures Valid(Value()) && Shrunk(old(Value()), Value()) && nodes == old(nodes)
      ensures r == if IsDir(old(Value()), y) then Done else Err(ENOTDIR)
      ensures names == if IsDir(old(Value()), y) then old(names)[Slot(y, dst) := i] else old(names)
    {
      hide CountOk;
      if heap[y].isDir {
        ReplaceRef(Slot(y, dst), i);
        r := Done;
      } else {
        DropRef(i, multiset{i});
        r := Err(ENOTDIR);
      }
    }

    method MoveEntry(x: Id, src: FileName, y: Id, dst: FileName) returns (r: Outcome)
      requires Valid(Value()) && x in nodes && y in nodes
      modifies this
      ensures (Value(), r) == Move(old(Value()), x, src, y, dst) && Valid(Value())
    {
      hide CountOk;
      var p := Slot(x, src);
      if !heap[x].isDir { return Err(ENOTDIR); }
      if p !in names { return Err(ENOENT); }
      ghost var before := Value();
      var i := TakeRef(p);
      r := PlaceRef(y, dst, i);
      MoveIsRecount(before, Value(), x, src, y, dst);
    }

    method SettleNode(b: Id, hold: Hold)
      requires Valid(Value()) && (hold.Temporary? ==> b in nodes)
      modifies this
      ensures Value() == SettleDst(old(Value()), b, hold) && Valid(Value())
    {
      if hold.Temporary? { DropMemoryNode(b); }
    }

    method HoldNode(b: Id)
      requires Valid(Value()) && b in heap
      modifies this
      ensures Value() == AddNode(old(Value()), b) && Valid(Value())
    {
      AddNodeValid(Value(), b);
      nodes := nodes + multiset{b};
    }

    method VisitNode(a: Id)
      requires Valid(Value()) && a in heap
      modifies this
      ensures Value() == DropNode(AddNode(old(Value()), a), a) && Valid(Value()) && nodes == old(nodes)
    {
      VisitValid(Value(), a);
      HoldNode(a);
      DropMemoryNode(a);
    }

    method ProbeNodes(a: Id, b: Id, hold: Hold)
      requires Valid(Value()) && a in heap && b in heap
      modifies this
      ensures Value() == Probe(old(Value()), a, b, hold) && Valid(Value()) && old(nodes) <= nodes
    {
      hide CountOk;
      if !hold.Hit? { HoldNode(b); }
      VisitNode(a);
      SettleNode(b, hold);
    }

    method RenameName(x: Id, src: FileName, y: Id, dst: FileName, hold: Hold) returns (r: Outcome)
      requires Valid(Value()) && x in nodes && y in nodes
      modifies this
      ensures (Value(), r) == Rename(old(Value()), x, src, y, dst, hold) && Valid(Value())
    {
      var p, q := Slot(x, src), Slot(y, dst);
      if q in names {
        AtValid(Value(), q);
        var b := slab[names[q]];
        if !heap[x].isDir || p !in names {
          r := if !heap[x].isDir then Err(ENOTDIR) else Err(ENOENT);
          if !hold.Hit? { HoldNode(b); }
          SettleNode(b, hold);
          return;
        }
        AtValid(Value(), p);
        var a := slab[names[p]];
        var same := heap[a].ino == heap[b].ino;
        ProbeNodes(a, b, hold);
        if same { return Done; }
      }
      r := MoveEntry(x, src, y, dst);
    }
  }
}
