/** System V shared memory: a registry of segments, and two records of who has
    attached what that must agree with each other: each segment's map from process
    to address range, and each process's two-way map between segments and addresses. */
module Shm {
  import opened Base

  // ------------------------------------------------------------- two-way maps

  datatype BiMap = BiMap(forward: map<int, int>, reverse: map<int, int>)

  const EMPTY := BiMap(map[], map[])

  /** The two directions are inverse to each other. */
  ghost predicate BiOk(b: BiMap) {
    && (forall k :: k in b.forward ==> b.forward[k] in b.reverse && b.reverse[b.forward[k]] == k)
    && (forall v :: v in b.reverse ==> b.reverse[v] in b.forward && b.forward[b.reverse[v]] == v)
  }

  function BiInsert(b: BiMap, k: int, v: int): BiMap {
    var reverse := b.reverse[v := k];
    var forward := if v in b.reverse then b.forward - {b.reverse[v]} else b.forward;
    BiMap(forward[k := v], if k in forward then reverse - {forward[k]} else reverse)
  }

  function BiRemoveKey(b: BiMap, k: int): BiMap {
    if k in b.forward then BiMap(b.forward - {k}, b.reverse - {b.forward[k]}) else b
  }

  function BiRemoveValue(b: BiMap, v: int): BiMap {
    if v in b.reverse then BiMap(b.forward - {b.reverse[v]}, b.reverse - {v}) else b
  }

  /** Inserting replaces whatever had the key or the value, and nothing else. */
  lemma BiInsertOk(b: BiMap, k: int, v: int)
    requires BiOk(b)
    ensures BiOk(BiInsert(b, k, v))
    ensures BiInsert(b, k, v).forward ==
            (map j | j in b.forward && b.forward[j] != v :: b.forward[j])[k := v]
  {
    var b' := BiInsert(b, k, v);
    forall j | j in b.forward ensures j in b'.forward <==> j == k || b.forward[j] != v {
    }
  }

  lemma BiRemoveValueOk(b: BiMap, v: int)
    requires BiOk(b)
    ensures BiOk(BiRemoveValue(b, v))
    ensures BiRemoveValue(b, v).forward == map j | j in b.forward && b.forward[j] != v :: b.forward[j]
  {
    var b' := BiRemoveValue(b, v);
    forall j | j in b.forward ensures j in b'.forward <==> b.forward[j] != v {
    }
  }

  lemma BiRemoveKeyOk(b: BiMap, k: int)
    requires BiOk(b)
    ensures BiOk(BiRemoveKey(b, k)) && BiRemoveKey(b, k).forward == b.forward - {k}
  {
  }

  // ------------------------------------------------------------------ the state

  datatype Range = Range(start: int, size: int)

  /** `nattch` is a 16-bit counter. */
  datatype Segment = Segment(
    shmid: int, size: nat, mode: int, pages: int, rmid: bool, ranges: map<int, Range>, nattch: int, lpid: int)

  /** Keys to segments, segments by identifier, and each process's attachments. */
  datatype Manager = Manager(keys: BiMap, segs: map<int, Segment>, procs: map<int, BiMap>)

  datatype Result = Ok(value: int) | EINVAL | ENOMEM | UnmapError | Panic

  const PAGE := 4096
  const IPC_PRIVATE := 0
  const COUNTER := 65536

  function Pages(size: nat): nat {
    (size + PAGE - 1) / PAGE
  }

  /** The pages cover the size, with less than one page to spare. */
  lemma PagesCover(size: nat)
    ensures size <= Pages(size) * PAGE < size + PAGE
    ensures Pages(size) == 0 <==> size == 0
  {
  }

  /** Where process `p` has segment `s`, by the process's own map. */
  function Vaddr(m: Manager, p: int, s: int): Option<int> {
    VaddrIn(m.procs, p, s)
  }

  function VaddrIn(procs: map<int, BiMap>, p: int, s: int): Option<int> {
    if p in procs && s in procs[p].forward then Some(procs[p].forward[s]) else None
  }

  /** Where process `p` has segment `s`, by the segment's attach map. */
  function RangeStart(m: Manager, p: int, s: int): Option<int> {
    if s in m.segs && p in m.segs[s].ranges then Some(m.segs[s].ranges[p].start) else None
  }

  /** Every attached range covers the segment, with less than one page to spare. */
  ghost predicate SegOk(seg: Segment, s: int) {
    && seg.shmid == s && seg.nattch == |seg.ranges| % COUNTER
    && seg.size <= seg.pages * PAGE < seg.size + PAGE
    && forall p :: p in seg.ranges ==> seg.ranges[p].size == seg.pages * PAGE
  }

  ghost predicate KeysOk(keys: BiMap, segs: map<int, Segment>) {
    BiOk(keys) && forall k :: k in keys.forward ==> keys.forward[k] in segs
  }

  ghost predicate SegsOk(segs: map<int, Segment>) {
    forall s :: s in segs ==> SegOk(segs[s], s)
  }

  ghost predicate ProcsOk(procs: map<int, BiMap>) {
    forall p :: p in procs ==> BiOk(procs[p]) && procs[p].forward != map[]
  }

  ghost predicate MapsOk(m: Manager) {
    KeysOk(m.keys, m.segs) && SegsOk(m.segs) && ProcsOk(m.procs)
  }

  ghost predicate Agree(m: Manager) {
    forall p, s :: Vaddr(m, p, s) == RangeStart(m, p, s)
  }

  ghost predicate Inv(m: Manager) {
    MapsOk(m) && Agree(m)
  }

  // ------------------------------------------------------------------ operations

  function Attach(seg: Segment, p: int, r: Range): Segment {
    seg.(ranges := seg.ranges[p := r], nattch := (seg.nattch + 1) % COUNTER, lpid := p)
  }

  function Detach(seg: Segment, p: int): Segment {
    seg.(ranges := seg.ranges - {p}, nattch := (seg.nattch - 1) % COUNTER, lpid := p)
  }

  function RemoveShmid(m: Manager, s: int): Manager {
    m.(keys := BiRemoveValue(m.keys, s), segs := m.segs - {s})
  }

  function InsertVaddr(procs: map<int, BiMap>, p: int, s: int, vaddr: int): map<int, BiMap> {
    procs[p := BiInsert(if p in procs then procs[p] else EMPTY, s, vaddr)]
  }

  /** `remove_shmaddr`: an emptied process map is dropped. */
  function RemoveVaddr(procs: map<int, BiMap>, p: int, vaddr: int): map<int, BiMap> {
    if p !in procs then procs
    else
      var b := BiRemoveValue(procs[p], vaddr);
      if b.forward == map[] then procs - {p} else procs[p := b]
  }

  /** `sys_shmget`; `id` is the identifier a new segment would get. */
  function Shmget(m: Manager, key: int, size: nat, mode: int, p: int, id: int): (Manager, Result) {
    if Pages(size) == 0 then (m, EINVAL)
    else if key != IPC_PRIVATE && key in m.keys.forward then
      var s := m.keys.forward[key];
      if s !in m.segs || size != m.segs[s].size || mode != m.segs[s].mode then (m, EINVAL)
      else (m.(segs := m.segs[s := m.segs[s].(lpid := p)]), Ok(m.segs[s].shmid))
    else
      var seg := Segment(id, size, mode, Pages(size), false, map[], 0, p);
      (m.(keys := BiInsert(m.keys, key, id), segs := m.segs[id := seg]), Ok(id))
  }

  /** `sys_shmat`: `area` is the free area found for the segment, `mapped` whether
      mapping the pages there succeeded. */
  function Shmat(m: Manager, s: int, p: int, area: Option<int>, mapped: bool): (Manager, Result) {
    if s !in m.segs || p in m.segs[s].ranges then (m, Panic)
    else if area.None? then (m, ENOMEM)
    else
      var m' := m.(procs := InsertVaddr(m.procs, p, m.segs[s].shmid, area.value));
      if !mapped then (m', ENOMEM)
      else
        var seg := Attach(m.segs[s], p, Range(area.value, m.segs[s].pages * PAGE));
        (m'.(segs := m.segs[s := seg]), Ok(area.value))
  }

  /** `sys_shmdt`; `unmapped` is whether unmapping the pages succeeded. */
  function Shmdt(m: Manager, p: int, vaddr: int, unmapped: bool): (Manager, Result) {
    if p !in m.procs || vaddr !in m.procs[p].reverse then (m, EINVAL)
    else
      var s := m.procs[p].reverse[vaddr];
      if s !in m.segs || p !in m.segs[s].ranges then (m, EINVAL)
      else if !unmapped then (m, UnmapError)
      else
        var seg := Detach(m.segs[s], p);
        var m' := m.(procs := RemoveVaddr(m.procs, p, vaddr), segs := m.segs[s := seg]);
        (if seg.rmid && |seg.ranges| == 0 then RemoveShmid(m', s) else m', Ok(0))
  }

  /** `sys_shmctl` with IPC_RMID. */
  function Rmid(m: Manager, s: int): (Manager, Result) {
    if s !in m.segs then (m, EINVAL) else (m.(segs := m.segs[s := m.segs[s].(rmid := true)]), Ok(0))
  }

  // ---------------------------------------------------------- process exit

  predicate Attached(m: Manager, p: int, s: int) {
    s in m.segs && p in m.segs[s].ranges
  }

  /** Marked for removal, and `p` is the last one attached. */
  predicate Dying(m: Manager, p: int, s: int) {
    Attached(m, p, s) && m.segs[s].rmid && |m.segs[s].ranges| == 1
  }

  /** The segments in `done` after `p` was detached from those of them it had attached. */
  function ClearSegs(m: Manager, p: int, done: set<int>): map<int, Segment> {
    map s | s in m.segs && !(s in done && Dying(m, p, s)) ::
      if s in done && p in m.segs[s].ranges then Detach(m.segs[s], p) else m.segs[s]
  }

  function ClearKeys(m: Manager, p: int, done: set<int>): BiMap {
    BiMap(
      map k | k in m.keys.forward && !(m.keys.forward[k] in done && Dying(m, p, m.keys.forward[k])) ::
        m.keys.forward[k],
      map s | s in m.keys.reverse && !(s in done && Dying(m, p, s)) :: m.keys.reverse[s])
  }

  /** The loop of `clear_proc_shm` after the segments in `done` have been handled. */
  function ClearSome(m: Manager, p: int, done: set<int>): Manager {
    Manager(ClearKeys(m, p, done), ClearSegs(m, p, done), m.procs)
  }

  /** What the loop goes through: the segments in the process's own map. */
  function Shmids(m: Manager, p: int): set<int> {
    if p in m.procs then m.procs[p].forward.Keys else {}
  }

  /** `clear_proc_shm`. */
  function Exit(m: Manager, p: int): Manager {
    ClearSome(m, p, Shmids(m, p)).(procs := m.procs - {p})
  }

  /** The assertion in `detach_process` fails for one of the segments. */
  predicate ExitTrips(m: Manager, p: int) {
    exists s :: s in Shmids(m, p) && s in m.segs && p !in m.segs[s].ranges
  }

  // ------------------------------------------------------ every step keeps it

  /** Agreement depends on addresses only. */
  lemma AgreeFrame(m: Manager, m': Manager)
    requires Agree(m) && m'.procs == m.procs
    requires forall q, t :: RangeStart(m', q, t) == RangeStart(m, q, t)
    ensures Agree(m')
  {
    forall q, t ensures Vaddr(m', q, t) == RangeStart(m', q, t) {
      assert Vaddr(m, q, t) == RangeStart(m, q, t);
    }
  }

  lemma NewSegmentMaps(m: Manager, key: int, id: int, seg: Segment)
    requires MapsOk(m) && SegOk(seg, id)
    ensures MapsOk(m.(keys := BiInsert(m.keys, key, id), segs := m.segs[id := seg]))
  {
    hide BiInsert;
    hide BiOk;
    BiInsertOk(m.keys, key, id);
  }

  lemma ShmgetMaps(m: Manager, key: int, size: nat, mode: int, p: int, id: int)
    requires MapsOk(m) && id !in m.segs
    ensures MapsOk(Shmget(m, key, size, mode, p, id).0)
  {
    hide Pages;
    hide BiInsert;
    hide BiOk;
    if key == IPC_PRIVATE || key !in m.keys.forward {
      PagesCover(size);
      NewSegmentMaps(m, key, id, Segment(id, size, mode, Pages(size), false, map[], 0, p));
    }
  }

  lemma ShmgetInv(m: Manager, key: int, size: nat, mode: int, p: int, id: int)
    requires Inv(m) && id !in m.segs
    ensures Inv(Shmget(m, key, size, mode, p, id).0)
  {
    ShmgetMaps(m, key, size, mode, p, id);
    hide MapsOk;
    hide BiInsert;
    AgreeFrame(m, Shmget(m, key, size, mode, p, id).0);
  }

  lemma AttachOk(seg: Segment, s: int, p: int, r: Range)
    requires SegOk(seg, s) && p !in seg.ranges && r.size == seg.pages * PAGE
    ensures SegOk(Attach(seg, p, r), s)
  {
    assert seg.ranges[p := r].Keys == seg.ranges.Keys + {p};
  }

  lemma DetachOk(seg: Segment, s: int, p: int)
    requires SegOk(seg, s) && p in seg.ranges
    ensures SegOk(Detach(seg, p), s)
  {
    assert seg.ranges.Keys == (seg.ranges - {p}).Keys + {p};
    assert |seg.ranges| == |seg.ranges - {p}| + 1;
  }

  lemma InsertVaddrOk(procs: map<int, BiMap>, p: int, s: int, vaddr: int)
    requires ProcsOk(procs)
    ensures ProcsOk(InsertVaddr(procs, p, s, vaddr))
  {
    hide BiInsert;
    hide BiOk;
    assert BiOk(EMPTY) by { EmptyOk(); }
    BiInsertOk(if p in procs then procs[p] else EMPTY, s, vaddr);
    var b := BiInsert(if p in procs then procs[p] else EMPTY, s, vaddr);
    assert s in b.forward;
  }

  lemma EmptyOk()
    ensures BiOk(EMPTY)
  {
  }

  lemma ShmatMaps(m: Manager, s: int, p: int, vaddr: int, mapped: bool)
    requires MapsOk(m) && s in m.segs && p !in m.segs[s].ranges
    ensures MapsOk(Shmat(m, s, p, Some(vaddr), mapped).0)
  {
    hide BiOk;
    hide ProcsOk;
    hide InsertVaddr;
    hide Attach;
    InsertVaddrOk(m.procs, p, m.segs[s].shmid, vaddr);
    AttachOk(m.segs[s], s, p, Range(vaddr, m.segs[s].pages * PAGE));
  }

  /** Where the process's own maps say that segments are, after one more was entered. */
  lemma InsertVaddrEffect(procs: map<int, BiMap>, p: int, s: int, vaddr: int, q: int, t: int)
    requires p in procs ==> BiOk(procs[p])
    ensures VaddrIn(InsertVaddr(procs, p, s, vaddr), q, t) ==
            if q != p then VaddrIn(procs, q, t)
            else if t == s then Some(vaddr)
            else if VaddrIn(procs, p, t) == Some(vaddr) then None
            else VaddrIn(procs, p, t)
  {
    hide BiInsert;
    EmptyOk();
    BiInsertOk(if p in procs then procs[p] else EMPTY, s, vaddr);
  }

  /** Attaching keeps the two records in agreement exactly when the pages could be
      mapped and the address is not one the process already has a segment at. */
  lemma ShmatAgrees(m: Manager, s: int, p: int, vaddr: int, mapped: bool)
    requires Inv(m) && s in m.segs && p !in m.segs[s].ranges
    ensures Agree(Shmat(m, s, p, Some(vaddr), mapped).0) <==>
            mapped && !(p in m.procs && vaddr in m.procs[p].reverse)
  {
    var m' := Shmat(m, s, p, Some(vaddr), mapped).0;
    assert m'.procs == InsertVaddr(m.procs, p, s, vaddr);
    assert BiOk(if p in m.procs then m.procs[p] else EMPTY) by { EmptyOk(); }
    var taken := p in m.procs && vaddr in m.procs[p].reverse;
    hide MapsOk;
    hide InsertVaddr;
    hide Shmat;
    hide RangeStart;
    hide VaddrIn;
    assert Vaddr(m, p, s) == RangeStart(m, p, s);
    forall q, t
      ensures Vaddr(m', q, t) == if q != p then Vaddr(m, q, t)
                                 else if t == s then Some(vaddr)
                                 else if Vaddr(m, p, t) == Some(vaddr) then None
                                 else Vaddr(m, p, t)
      ensures RangeStart(m', q, t) == if mapped && q == p && t == s then Some(vaddr) else RangeStart(m, q, t)
    {
      InsertVaddrEffect(m.procs, p, s, vaddr, q, t);
    }
    assert RangeStart(m, p, s) == None;
    if !mapped {
      assert Vaddr(m', p, s) != RangeStart(m', p, s);
    } else if taken {
      var other := m.procs[p].reverse[vaddr];
      assert Vaddr(m, p, other) == Some(vaddr);
      assert Vaddr(m', p, other) != RangeStart(m', p, other);
    } else {
      forall q, t ensures Vaddr(m', q, t) == RangeStart(m', q, t) {
        assert Vaddr(m, q, t) == RangeStart(m, q, t);
      }
    }
  }

  lemma RemoveVaddrEffect(procs: map<int, BiMap>, p: int, vaddr: int, q: int, t: int)
    requires p in procs ==> BiOk(procs[p])
    ensures VaddrIn(RemoveVaddr(procs, p, vaddr), q, t) ==
            if q == p && VaddrIn(procs, q, t) == Some(vaddr) then None else VaddrIn(procs, q, t)
  {
    hide BiRemoveValue;
    if p in procs {
      BiRemoveValueOk(procs[p], vaddr);
      var b := BiRemoveValue(procs[p], vaddr);
      if q == p && t in procs[p].forward && procs[p].forward[t] != vaddr {
        assert t in b.forward;
      }
    }
  }

  lemma RemoveVaddrOk(procs: map<int, BiMap>, p: int, vaddr: int)
    requires ProcsOk(procs)
    ensures ProcsOk(RemoveVaddr(procs, p, vaddr))
  {
    hide BiOk;
    hide BiRemoveValue;
    if p in procs { BiRemoveValueOk(procs[p], vaddr); }
  }

  lemma RemoveShmidOk(m: Manager, s: int)
    requires MapsOk(m)
    ensures MapsOk(RemoveShmid(m, s))
  {
    hide BiOk;
    hide BiRemoveValue;
    hide ProcsOk;
    BiRemoveValueOk(m.keys, s);
  }

  lemma ShmdtMaps(m: Manager, p: int, vaddr: int, unmapped: bool)
    requires MapsOk(m)
    ensures MapsOk(Shmdt(m, p, vaddr, unmapped).0)
  {
    hide BiOk;
    hide ProcsOk;
    hide RemoveVaddr;
    hide RemoveShmid;
    hide Detach;
    if p in m.procs && vaddr in m.procs[p].reverse && m.procs[p].reverse[vaddr] in m.segs {
      var s := m.procs[p].reverse[vaddr];
      RemoveVaddrOk(m.procs, p, vaddr);
      if p in m.segs[s].ranges {
        DetachOk(m.segs[s], s, p);
        var m' := m.(procs := RemoveVaddr(m.procs, p, vaddr), segs := m.segs[s := Detach(m.segs[s], p)]);
        assert MapsOk(m');
        RemoveShmidOk(m', s);
      }
    }
  }

  lemma ShmdtRanges(m: Manager, p: int, vaddr: int, q: int, t: int)
    requires p in m.procs && vaddr in m.procs[p].reverse
    requires var s := m.procs[p].reverse[vaddr]; s in m.segs && p in m.segs[s].ranges
    ensures RangeStart(Shmdt(m, p, vaddr, true).0, q, t) ==
            if q == p && t == m.procs[p].reverse[vaddr] then None else RangeStart(m, q, t)
    ensures Shmdt(m, p, vaddr, true).0.procs == RemoveVaddr(m.procs, p, vaddr)
  {
    hide RemoveVaddr;
    hide BiRemoveValue;
    var s := m.procs[p].reverse[vaddr];
    var seg := Detach(m.segs[s], p);
    if |seg.ranges| == 0 { assert seg.ranges.Keys == {}; }
  }

  lemma ShmdtInv(m: Manager, p: int, vaddr: int, unmapped: bool)
    requires Inv(m)
    ensures Inv(Shmdt(m, p, vaddr, unmapped).0)
  {
    ShmdtMaps(m, p, vaddr, unmapped);
    var m' := Shmdt(m, p, vaddr, unmapped).0;
    if p in m.procs && vaddr in m.procs[p].reverse {
      var s := m.procs[p].reverse[vaddr];
      assert BiOk(m.procs[p]);
      assert Vaddr(m, p, s) == RangeStart(m, p, s);
      if unmapped {
        hide MapsOk;
        hide RemoveVaddr;
        hide Shmdt;
        forall q, t ensures Vaddr(m', q, t) == RangeStart(m', q, t) {
          assert Vaddr(m, q, t) == RangeStart(m, q, t);
          RemoveVaddrEffect(m.procs, p, vaddr, q, t);
          ShmdtRanges(m, p, vaddr, q, t);
        }
      }
    }
  }

  lemma RmidInv(m: Manager, s: int)
    requires MapsOk(m)
    ensures MapsOk(Rmid(m, s).0) && (Agree(m) ==> Agree(Rmid(m, s).0))
  {
    hide BiOk;
    var m' := Rmid(m, s).0;
    if Agree(m) {
      forall q, t ensures Vaddr(m', q, t) == RangeStart(m', q, t) {
        assert Vaddr(m, q, t) == RangeStart(m, q, t);
      }
    }
  }

  lemma ClearKeysOk(m: Manager, p: int, done: set<int>)
    requires KeysOk(m.keys, m.segs)
    ensures KeysOk(ClearKeys(m, p, done), ClearSegs(m, p, done))
  {
    hide Dying;
    hide Detach;
  }

  lemma ClearMaps(m: Manager, p: int, done: set<int>)
    requires MapsOk(m)
    ensures MapsOk(ClearSome(m, p, done))
  {
    ClearKeysOk(m, p, done);
    hide KeysOk;
    hide ProcsOk;
    hide Dying;
    hide Detach;
    var m' := ClearSome(m, p, done);
    forall s | s in m'.segs ensures SegOk(m'.segs[s], s) {
      if p in m.segs[s].ranges { DetachOk(m.segs[s], s, p); }
    }
  }

  lemma ExitMaps(m: Manager, p: int)
    requires MapsOk(m)
    ensures MapsOk(Exit(m, p))
  {
    hide KeysOk;
    hide SegsOk;
    ClearMaps(m, p, Shmids(m, p));
  }

  /** The range that process `q` has attached segment `s` at. */
  function Attachment(m: Manager, q: int, s: int): Option<Range> {
    if Attached(m, q, s) then Some(m.segs[s].ranges[q]) else None
  }

  lemma ExitAttachment(m: Manager, p: int, q: int, s: int)
    requires s in Shmids(m, p) <==> Attached(m, p, s)
    ensures Attachment(Exit(m, p), q, s) == if q == p then None else Attachment(m, q, s)
    ensures s in Exit(m, p).segs <==> s in m.segs && !Dying(m, p, s)
  {
    hide Shmids;
    hide ClearKeys;
    if Dying(m, p, s) && q != p { LastOne(m.segs[s].ranges, p, q); }
  }

  lemma ExitVaddr(m: Manager, p: int, q: int, s: int)
    ensures Vaddr(Exit(m, p), q, s) == if q == p then None else Vaddr(m, q, s)
  {
    hide ClearSome;
  }

  lemma SameStart(m: Manager, m': Manager, q: int, s: int)
    requires Attachment(m', q, s) == Attachment(m, q, s)
    ensures RangeStart(m', q, s) == RangeStart(m, q, s)
  {
  }

  /** While the records agree, process exit does not trip; it detaches the process from
      every segment, leaves every other process's attachments alone, and removes exactly
      the segments marked for removal that nobody else has attached. */
  lemma ExitEffect(m: Manager, p: int, q: int, s: int)
    requires Inv(m)
    ensures !ExitTrips(m, p) && Inv(Exit(m, p))
    ensures Attachment(Exit(m, p), q, s) == if q == p then None else Attachment(m, q, s)
    ensures Vaddr(Exit(m, p), q, s) == if q == p then None else Vaddr(m, q, s)
    ensures s in Exit(m, p).segs <==> s in m.segs && !Dying(m, p, s)
  {
    hide MapsOk;
    hide Exit;
    ExitMaps(m, p);
    forall t ensures t in Shmids(m, p) <==> Attached(m, p, t) { assert Vaddr(m, p, t) == RangeStart(m, p, t); }
    hide Shmids;
    ExitAttachment(m, p, q, s);
    ExitVaddr(m, p, q, s);
    hide Attachment;
    hide VaddrIn;
    var m' := Exit(m, p);
    forall r, t ensures Vaddr(m', r, t) == RangeStart(m', r, t) {
      assert Vaddr(m, r, t) == RangeStart(m, r, t);
      ExitAttachment(m, p, r, t);
      ExitVaddr(m, p, r, t);
      if r == p { NoRange(m', r, t); } else { SameStart(m, m', r, t); }
    }
  }

  lemma NoRange(m: Manager, q: int, s: int)
    requires Attachment(m, q, s) == None
    ensures RangeStart(m, q, s) == None
  {
  }

  lemma LastOne(ranges: map<int, Range>, p: int, r: int)
    requires |ranges| == 1 && p in ranges && r != p
    ensures r !in ranges
  {
    assert |ranges.Keys - {p}| == 0;
    assert ranges.Keys == {p} + (ranges.Keys - {p});
  }

  /** After an attach, the process's exit trips exactly if the mapping had failed. */
  lemma FailedMapTrips(m: Manager, s: int, p: int, vaddr: int, mapped: bool)
    requires Inv(m) && s in m.segs && p !in m.segs[s].ranges
    ensures ExitTrips(Shmat(m, s, p, Some(vaddr), mapped).0, p) <==> !mapped
  {
    var m' := Shmat(m, s, p, Some(vaddr), mapped).0;
    assert BiOk(if p in m.procs then m.procs[p] else EMPTY) by { EmptyOk(); }
    assert m'.procs == InsertVaddr(m.procs, p, s, vaddr);
    hide MapsOk;
    hide InsertVaddr;
    forall t
      ensures t in Shmids(m', p) ==> t == s || (t in m.segs ==> p in m.segs[t].ranges)
      ensures t == s ==> t in Shmids(m', p)
    {
      InsertVaddrEffect(m.procs, p, s, vaddr, p, t);
      assert Vaddr(m, p, t) == RangeStart(m, p, t);
      assert t in Shmids(m', p) <==> Vaddr(m', p, t).Some?;
    }
    if !mapped {
      assert s in Shmids(m', p) && s in m'.segs && p !in m'.segs[s].ranges;
    }
  }

  // ----------------------------------------------------- operations undo each other

  lemma BiInsertRemove(b: BiMap, k: int, v: int)
    requires BiOk(b) && k !in b.forward && v !in b.reverse
    ensures v in BiInsert(b, k, v).reverse && BiInsert(b, k, v).reverse[v] == k
    ensures BiRemoveValue(BiInsert(b, k, v), v) == b
  {
    var b' := BiRemoveValue(BiInsert(b, k, v), v);
    assert b'.forward == b.forward && b'.reverse == b.reverse;
  }

  lemma VaddrRoundTrip(procs: map<int, BiMap>, p: int, s: int, vaddr: int)
    requires p in procs ==> BiOk(procs[p]) && procs[p].forward != map[] && vaddr !in procs[p].reverse
    requires VaddrIn(procs, p, s) == None
    ensures var procs' := InsertVaddr(procs, p, s, vaddr);
            && p in procs' && vaddr in procs'[p].reverse && procs'[p].reverse[vaddr] == s
            && RemoveVaddr(procs', p, vaddr) == procs
  {
    BiInsertRemove(if p in procs then procs[p] else EMPTY, s, vaddr);
  }

  lemma AttachDetach(seg: Segment, s: int, p: int, r: Range)
    requires SegOk(seg, s) && p !in seg.ranges
    ensures Detach(Attach(seg, p, r), p) == seg.(lpid := p)
  {
    assert seg.ranges[p := r] - {p} == seg.ranges;
  }

  /** Attaching and detaching again restores every map; only the last-operation stamp
      stays, and a segment marked for removal that nobody else has attached goes. */
  lemma AttachThenDetach(m: Manager, s: int, p: int, vaddr: int)
    requires Inv(m) && s in m.segs && p !in m.segs[s].ranges
    requires !(p in m.procs && vaddr in m.procs[p].reverse)
    ensures var seg := m.segs[s].(lpid := p);
            var m' := m.(segs := m.segs[s := seg]);
            Shmdt(Shmat(m, s, p, Some(vaddr), true).0, p, vaddr, true) ==
            (if seg.rmid && |seg.ranges| == 0 then RemoveShmid(m', s) else m', Ok(0))
  {
    assert Vaddr(m, p, s) == RangeStart(m, p, s) == None;
    VaddrRoundTrip(m.procs, p, s, vaddr);
    AttachDetach(m.segs[s], s, p, Range(vaddr, m.segs[s].pages * PAGE));
    assert m.segs[s].shmid == s;
    hide MapsOk;
    hide Agree;
    hide InsertVaddr;
    hide RemoveVaddr;
    hide Detach;
    var m1 := Shmat(m, s, p, Some(vaddr), true).0;
    assert m1.segs[s] == Attach(m.segs[s], p, Range(vaddr, m.segs[s].pages * PAGE)) && p in m1.segs[s].ranges;
    assert m1.segs[s := m.segs[s].(lpid := p)] == m.segs[s := m.segs[s].(lpid := p)];
  }

  /** Attaching a segment a second time panics, whatever area is found, until the process
      has detached it; then it panics exactly if the segment went with that detach. */
  lemma SecondAttachPanics(m: Manager, s: int, p: int, vaddr: int, area: Option<int>, mapped: bool)
    requires Inv(m) && s in m.segs && p !in m.segs[s].ranges
    requires !(p in m.procs && vaddr in m.procs[p].reverse)
    ensures var m1 := Shmat(m, s, p, Some(vaddr), true).0;
            && Shmat(m1, s, p, area, mapped) == (m1, Panic)
            && (Shmat(Shmdt(m1, p, vaddr, true).0, s, p, area, mapped).1.Panic? <==>
                  m.segs[s].rmid && |m.segs[s].ranges| == 0)
  {
    hide InsertVaddr;
    hide MapsOk;
    hide Agree;
    hide BiRemoveValue;
    AttachThenDetach(m, s, p, vaddr);
  }

  /** Asking again for a key, with the same size and mode, gives the same segment. */
  lemma ShmgetAgain(m: Manager, key: int, size: nat, mode: int, p: int, id: int, p': int, id': int)
    requires Inv(m) && id !in m.segs && key != IPC_PRIVATE && Shmget(m, key, size, mode, p, id).1.Ok?
    ensures var (m', r) := Shmget(m, key, size, mode, p, id); Shmget(m', key, size, mode, p', id').1 == r
  {
  }

  /** When shmget fails, what it gives, and that a key asked for leads to what it gave. */
  lemma ShmgetIff(m: Manager, key: int, size: nat, mode: int, p: int, id: int)
    requires MapsOk(m) && id !in m.segs
    ensures var (m', r) := Shmget(m, key, size, mode, p, id);
            var known := key != IPC_PRIVATE && key in m.keys.forward;
            && (r.EINVAL? <==> size == 0 || (known && (m.segs[m.keys.forward[key]].size != size
                                                       || m.segs[m.keys.forward[key]].mode != mode)))
            && (r.EINVAL? ==> m' == m)
            && (r.EINVAL? || r.Ok?)
            && (r.Ok? ==>
                  && r.value == (if known then m.keys.forward[key] else id)
                  && key in m'.keys.forward && m'.keys.forward[key] == r.value
                  && r.value in m'.segs && m'.segs[r.value].size == size && m'.segs[r.value].mode == mode
                  && (!known ==> m'.segs[id].ranges == map[] && !m'.segs[id].rmid)
                  && m'.procs == m.procs && m'.segs - {r.value} == m.segs - {r.value})
  {
    PagesCover(size);
    hide Pages;
    BiInsertOk(m.keys, key, id);
    hide BiInsert;
    hide BiOk;
    var m' := Shmget(m, key, size, mode, p, id).0;
  }

  /** Attaching panics exactly for an unknown segment and one the process has attached; it
      fails if no area is found or mapping fails; otherwise exactly that attachment is new,
      with the whole of the segment's pages. */
  lemma ShmatIff(m: Manager, s: int, p: int, area: Option<int>, mapped: bool, q: int, t: int)
    requires MapsOk(m)
    ensures var (m', r) := Shmat(m, s, p, area, mapped);
            && (r.Panic? <==> !(s in m.segs && Attachment(m, p, s) == None))
            && (r.ENOMEM? <==> !r.Panic? && (area.None? || !mapped))
            && (!r.Panic? && !r.ENOMEM? ==> r == Ok(area.value))
            && (r.Ok? ==> Vaddr(m', p, s) == Some(r.value))
            && Attachment(m', q, t) ==
               if r.Ok? && q == p && t == s then Some(Range(r.value, m.segs[s].pages * PAGE)) else Attachment(m, q, t)
  {
    if s in m.segs && area.Some? {
      InsertVaddrEffect(m.procs, p, m.segs[s].shmid, area.value, p, s);
      hide InsertVaddr;
    }
  }

  /** Detaching fails exactly for an address where the process has nothing attached.
      Otherwise, if the pages can be unmapped, exactly that attachment goes. */
  lemma ShmdtIff(m: Manager, p: int, vaddr: int, unmapped: bool, q: int, t: int)
    requires Inv(m)
    ensures var (m', r) := Shmdt(m, p, vaddr, unmapped);
            var here := p in m.procs && vaddr in m.procs[p].reverse;
            && (here <==> exists s :: Vaddr(m, p, s) == Some(vaddr))
            && (r.EINVAL? <==> !here) && (r.UnmapError? <==> here && !unmapped) && (!r.Ok? ==> m' == m)
            && (r.Ok? ==> Attachment(m', q, t) ==
                          if q == p && Vaddr(m, p, t) == Some(vaddr) then None else Attachment(m, q, t))
  {
    if p in m.procs && vaddr in m.procs[p].reverse {
      var s := m.procs[p].reverse[vaddr];
      assert BiOk(m.procs[p]);
      assert Vaddr(m, p, s) == Some(vaddr) && Vaddr(m, p, s) == RangeStart(m, p, s);
      assert Vaddr(m, p, t) == Some(vaddr) <==> t == s;
      if unmapped { ShmdtAttachment(m, p, vaddr, q, t); }
    } else if p in m.procs {
      assert BiOk(m.procs[p]);
    }
  }

  lemma ShmdtAttachment(m: Manager, p: int, vaddr: int, q: int, t: int)
    requires p in m.procs && vaddr in m.procs[p].reverse
    requires var s := m.procs[p].reverse[vaddr]; s in m.segs && p in m.segs[s].ranges
    ensures Attachment(Shmdt(m, p, vaddr, true).0, q, t) ==
            if q == p && t == m.procs[p].reverse[vaddr] then None else Attachment(m, q, t)
  {
    hide RemoveVaddr;
    hide BiRemoveValue;
    var seg := Detach(m.segs[m.procs[p].reverse[vaddr]], p);
    if |seg.ranges| == 0 { assert seg.ranges.Keys == {}; }
  }

  // ------------------------------------------------------------------------ runs

  datatype Step =
    | StepGet(key: int, size: nat, mode: int, p: int, id: int)
    | StepAt(s: int, p: int, area: Option<int>, mapped: bool)
    | StepDt(p: int, vaddr: int, unmapped: bool)
    | StepRmid(s: int)
    | StepExit(p: int)

  /** New identifiers are not in use; an attach that panics and an exit that trips the
      assertion end the run. */
  ghost predicate Next(m: Manager, step: Step, m': Manager) {
    match step
    case StepGet(key, size, mode, p, id) => id !in m.segs && m' == Shmget(m, key, size, mode, p, id).0
    case StepAt(s, p, area, mapped) => !Shmat(m, s, p, area, mapped).1.Panic? && m' == Shmat(m, s, p, area, mapped).0
    case StepDt(p, vaddr, unmapped) => m' == Shmdt(m, p, vaddr, unmapped).0
    case StepRmid(s) => m' == Rmid(m, s).0
    case StepExit(p) => !ExitTrips(m, p) && m' == Exit(m, p)
  }

  /** An attach that gets as far as entering the address maps the pages there, and the
      address is not one where the process has a segment already. */
  predicate Good(m: Manager, step: Step) {
    step.StepAt? && step.s in m.segs && step.p !in m.segs[step.s].ranges && step.area.Some? ==>
      step.mapped && !(step.p in m.procs && step.area.value in m.procs[step.p].reverse)
  }

  lemma NextMaps(m: Manager, step: Step, m': Manager)
    requires MapsOk(m) && Next(m, step, m')
    ensures MapsOk(m')
  {
    hide MapsOk;
    match step
    case StepGet(key, size, mode, p, id) => ShmgetMaps(m, key, size, mode, p, id);
    case StepAt(s, p, area, mapped) =>
      if s in m.segs && p !in m.segs[s].ranges && area.Some? { ShmatMaps(m, s, p, area.value, mapped); }
    case StepDt(p, vaddr, unmapped) => ShmdtMaps(m, p, vaddr, unmapped);
    case StepRmid(s) => RmidInv(m, s);
    case StepExit(p) => ExitMaps(m, p);
  }

  /** From a consistent state, exactly the good steps keep the records in agreement. */
  lemma NextAgrees(m: Manager, step: Step, m': Manager)
    requires Inv(m) && Next(m, step, m')
    ensures Agree(m') <==> Good(m, step)
  {
    hide MapsOk;
    hide Agree;
    match step
    case StepGet(key, size, mode, p, id) => ShmgetInv(m, key, size, mode, p, id);
    case StepAt(s, p, area, mapped) =>
      if s in m.segs && p !in m.segs[s].ranges && area.Some? { ShmatAgrees(m, s, p, area.value, mapped); }
    case StepDt(p, vaddr, unmapped) => ShmdtInv(m, p, vaddr, unmapped);
    case StepRmid(s) => RmidInv(m, s);
    case StepExit(p) => ExitEffect(m, p, p, 0);
  }

  const INITIAL := Manager(EMPTY, map[], map[])

  ghost predicate Run(states: seq<Manager>, steps: seq<Step>) {
    && |states| == |steps| + 1 && states[0] == INITIAL
    && forall k :: 0 <= k < |steps| ==> Next(states[k], steps[k], states[k + 1])
  }

  /** After any run at all: both directions of every two-way map are inverse, every key
      leads to a segment, and the attach counter is the attach count, modulo its width. */
  lemma {:induction false} RunMaps(states: seq<Manager>, steps: seq<Step>, n: nat)
    requires Run(states, steps) && n < |states|
    ensures MapsOk(states[n])
  {
    hide Next;
    if n > 0 {
      RunMaps(states, steps, n - 1);
      NextMaps(states[n - 1], steps[n - 1], states[n]);
    }
  }

  lemma {:induction false} RunGood(states: seq<Manager>, steps: seq<Step>, n: nat)
    requires Run(states, steps) && n < |states| && forall k :: 0 <= k < n ==> Good(states[k], steps[k])
    ensures Inv(states[n])
  {
    hide Next;
    hide Good;
    RunMaps(states, steps, n);
    if n > 0 {
      RunGood(states, steps, n - 1);
      hide MapsOk;
      NextAgrees(states[n - 1], steps[n - 1], states[n]);
    }
  }

  /** A process maps a segment to an address exactly when the segment's attach map gives
      the process a range starting there (so no process maps a removed segment), in all
      states of a run: exactly if every attach of the run is good. */
  lemma RunAgrees(states: seq<Manager>, steps: seq<Step>)
    requires Run(states, steps)
    ensures (forall n :: 0 <= n < |states| ==> Agree(states[n])) <==>
            (forall k :: 0 <= k < |steps| ==> Good(states[k], steps[k]))
  {
    hide Next;
    hide Good;
    hide MapsOk;
    hide Agree;
    if forall k :: 0 <= k < |steps| ==> Good(states[k], steps[k]) {
      forall n | 0 <= n < |states| ensures Agree(states[n]) { RunGood(states, steps, n); }
    }
    if forall n :: 0 <= n < |states| ==> Agree(states[n]) {
      forall k | 0 <= k < |steps| ensures Good(states[k], steps[k]) {
        RunMaps(states, steps, k);
        NextAgrees(states[k], steps[k], states[k + 1]);
      }
    }
  }

  // --------------------------------------------------------------------- removal

  /** `p` has the segment, by both records, and nobody else does. */
  predicate Sole(m: Manager, p: int, s: int) {
    Vaddr(m, p, s).Some? && Attached(m, p, s) && |m.segs[s].ranges| == 1
  }

  /** The step detaches the last process from the segment. */
  predicate Releases(m: Manager, step: Step, s: int) {
    match step
    case StepDt(p, vaddr, unmapped) => unmapped && Sole(m, p, s) && Vaddr(m, p, s) == Some(vaddr)
    case StepExit(p) => Sole(m, p, s)
    case _ => false
  }

  lemma RangesLess(ranges: map<int, Range>, p: int)
    requires p in ranges
    ensures |ranges - {p}| == |ranges| - 1
  {
    assert ranges.Keys == (ranges - {p}).Keys + {p};
  }

  /** What a detach does to a segment `t`. */
  lemma DtMarks(m: Manager, p: int, vaddr: int, unmapped: bool, t: int)
    requires MapsOk(m)
    ensures var m' := Shmdt(m, p, vaddr, unmapped).0;
            && (t in m'.segs <==> t in m.segs && !(m.segs[t].rmid && Releases(m, StepDt(p, vaddr, unmapped), t)))
            && (t in m'.segs ==> m'.segs[t].rmid == m.segs[t].rmid)
  {
    hide RemoveVaddr;
    hide BiRemoveValue;
    if p in m.procs && vaddr in m.procs[p].reverse {
      assert BiOk(m.procs[p]);
      var s := m.procs[p].reverse[vaddr];
      assert Vaddr(m, p, t) == Some(vaddr) <==> t == s;
      if Attached(m, p, s) { RangesLess(m.segs[s].ranges, p); }
    } else if p in m.procs {
      assert BiOk(m.procs[p]);
    }
  }

  lemma ExitMarks(m: Manager, p: int, t: int)
    ensures var m' := Exit(m, p);
            && (t in m'.segs <==> t in m.segs && !(m.segs[t].rmid && Releases(m, StepExit(p), t)))
            && (t in m'.segs ==> m'.segs[t].rmid == m.segs[t].rmid)
  {
    hide ClearKeys;
  }

  /** A step removes exactly the segments that are marked and that it releases, and marks
      exactly the segment that it is asked to. */
  lemma NextMarks(m: Manager, step: Step, m': Manager, s: int)
    requires MapsOk(m) && Next(m, step, m')
    ensures s in m.segs ==> (s !in m'.segs <==> m.segs[s].rmid && Releases(m, step, s))
    ensures s in m'.segs ==> (m'.segs[s].rmid <==> s in m.segs && (m.segs[s].rmid || step == StepRmid(s)))
  {
    hide MapsOk;
    hide InsertVaddr;
    hide BiInsert;
    hide Pages;
    match step
    case StepGet(key, size, mode, p, id) =>
    case StepAt(_, p, area, mapped) =>
    case StepDt(p, vaddr, unmapped) => DtMarks(m, p, vaddr, unmapped, s);
    case StepRmid(_) =>
    case StepExit(p) => ExitMarks(m, p, s);
  }

  /** The process that gets, attaches or detaches segment `s` with this step, if it does. */
  function User(m: Manager, step: Step, s: int): Option<int> {
    match step
    case StepGet(key, size, mode, p, id) => if Shmget(m, key, size, mode, p, id).1 == Ok(s) then Some(p) else None
    case StepAt(t, p, area, mapped) => if t == s && area.Some? && mapped then Some(p) else None
    case StepDt(p, vaddr, unmapped) =>
      if unmapped && Vaddr(m, p, s) == Some(vaddr) && Attached(m, p, s) then Some(p) else None
    case StepRmid(_) => None
    case StepExit(p) => if Vaddr(m, p, s).Some? && Attached(m, p, s) then Some(p) else None
  }

  lemma DtStamps(m: Manager, p: int, vaddr: int, unmapped: bool, s: int)
    requires MapsOk(m) && s in m.segs && s in Shmdt(m, p, vaddr, unmapped).0.segs
    ensures var u := User(m, StepDt(p, vaddr, unmapped), s);
            Shmdt(m, p, vaddr, unmapped).0.segs[s].lpid == if u.Some? then u.value else m.segs[s].lpid
  {
    hide RemoveVaddr;
    hide BiRemoveValue;
    if p in m.procs {
      assert BiOk(m.procs[p]);
      assert vaddr in m.procs[p].reverse ==> (Vaddr(m, p, s) == Some(vaddr) <==> s == m.procs[p].reverse[vaddr]);
    }
  }

  /** A segment's last-operation stamp is the process that last got, attached or detached it. */
  lemma NextStamps(m: Manager, step: Step, m': Manager, s: int)
    requires MapsOk(m) && Next(m, step, m') && s in m'.segs
    ensures s in m.segs || User(m, step, s).Some?
    ensures m'.segs[s].lpid == if User(m, step, s).Some? then User(m, step, s).value else m.segs[s].lpid
  {
    hide InsertVaddr;
    hide BiInsert;
    hide BiOk;
    hide Pages;
    match step
    case StepGet(key, size, mode, p, id) =>
    case StepAt(_, p, area, mapped) =>
    case StepDt(p, vaddr, unmapped) =>
      DtMarks(m, p, vaddr, unmapped, s);
      DtStamps(m, p, vaddr, unmapped, s);
    case StepRmid(_) =>
    case StepExit(p) => hide ClearKeys;
  }

  /** IPC_RMID was called for the segment that is there at step `n`, at step `k`. */
  ghost predicate MarkedAt(states: seq<Manager>, steps: seq<Step>, k: int, n: int, s: int)
    requires |states| == |steps| + 1
  {
    0 <= k < n < |states| && steps[k] == StepRmid(s) && forall j :: k <= j <= n ==> s in states[j].segs
  }

  /** IPC_RMID was called for the segment that is there at step `n`. */
  ghost predicate Marked(states: seq<Manager>, steps: seq<Step>, n: int, s: int)
    requires |states| == |steps| + 1
  {
    exists k :: MarkedAt(states, steps, k, n, s)
  }

  lemma MarkedNext(states: seq<Manager>, steps: seq<Step>, n: nat, s: int)
    requires |states| == |steps| + 1 && 0 < n < |states| && s in states[n].segs
    ensures Marked(states, steps, n, s) <==>
            s in states[n - 1].segs && (Marked(states, steps, n - 1, s) || steps[n - 1] == StepRmid(s))
  {
    if k :| MarkedAt(states, steps, k, n, s) {
      assert s in states[n - 1].segs;
      if k < n - 1 { assert MarkedAt(states, steps, k, n - 1, s); }
    }
    var last := n - 1;
    if s in states[last].segs {
      if k :| MarkedAt(states, steps, k, last, s) { assert MarkedAt(states, steps, k, n, s); }
      if steps[n - 1] == StepRmid(s) { assert MarkedAt(states, steps, n - 1, n, s); }
    }
  }

  /** In every run a segment is marked for removal exactly if IPC_RMID was called for it. */
  lemma {:induction false} RunMarked(states: seq<Manager>, steps: seq<Step>, n: nat, s: int)
    requires Run(states, steps) && n < |states| && s in states[n].segs
    ensures states[n].segs[s].rmid <==> Marked(states, steps, n, s)
  {
    hide Next;
    hide Marked;
    if n > 0 {
      RunMaps(states, steps, n - 1);
      NextMarks(states[n - 1], steps[n - 1], states[n], s);
      MarkedNext(states, steps, n, s);
      if s in states[n - 1].segs { RunMarked(states, steps, n - 1, s); }
    }
  }

  /** Some key leads to the segment. */
  ghost predicate Leads(keys: BiMap, s: int) {
    exists key :: key in keys.forward && keys.forward[key] == s
  }

  /** In every run a segment goes exactly with the step that detaches the last process from
      it after IPC_RMID was called for it.  No key leads to it any more. */
  lemma RunRemovedIff(states: seq<Manager>, steps: seq<Step>, n: nat, s: int)
    requires Run(states, steps) && n < |steps| && s in states[n].segs
    ensures s !in states[n + 1].segs <==> Marked(states, steps, n, s) && Releases(states[n], steps[n], s)
    ensures s !in states[n + 1].segs ==> !Leads(states[n + 1].keys, s)
  {
    hide Next;
    hide Marked;
    hide Releases;
    RunMaps(states, steps, n);
    RunMaps(states, steps, n + 1);
    NextMarks(states[n], steps[n], states[n + 1], s);
    RunMarked(states, steps, n, s);
  }

  /** A run in which a segment that nobody has attached stays after IPC_RMID, and its key
      still leads to it. */
  lemma MarkedStays() returns (states: seq<Manager>, steps: seq<Step>)
    ensures Run(states, steps) && |states| == 3 && steps[1] == StepRmid(7)
    ensures 7 in states[2].segs && states[2].segs[7].rmid && states[2].segs[7].ranges == map[]
    ensures Shmget(states[2], 5, 4096, 6, 1, 8).1 == Ok(7)
  {
    var m1 := Shmget(INITIAL, 5, 4096, 6, 1, 7).0;
    var m2 := Rmid(m1, 7).0;
    states, steps := [INITIAL, m1, m2], [StepGet(5, 4096, 6, 1, 7), StepRmid(7)];
    assert Next(INITIAL, steps[0], m1) && Next(m1, steps[1], m2);
  }

  /** A run that breaks it: one process makes a segment, and its attach fails to map.  From
      then on its exit trips the assertion. */
  lemma FailedMapping() returns (states: seq<Manager>, steps: seq<Step>)
    ensures Run(states, steps) && |states| == 3 && !Agree(states[2]) && ExitTrips(states[2], 1)
  {
    var m1 := Shmget(INITIAL, 5, 4096, 6, 1, 7).0;
    var m2 := Shmat(m1, 7, 1, Some(8192), false).0;
    states, steps := [INITIAL, m1, m2], [StepGet(5, 4096, 6, 1, 7), StepAt(7, 1, Some(8192), false)];
    assert Next(INITIAL, steps[0], m1) && Next(m1, steps[1], m2);
    assert 7 in m1.segs && 1 !in m1.segs[7].ranges;
    RunGood(states, steps, 1);
    ShmatAgrees(m1, 7, 1, 8192, false);
    FailedMapTrips(m1, 7, 1, 8192, false);
  }

  /** A run to such a panic: a process makes a segment, attaches it, and attaches it again.
      An identifier that does not exist panics from the beginning. */
  lemma AttachPanics() returns (states: seq<Manager>, steps: seq<Step>)
    ensures Run(states, steps) && |states| == 3
    ensures forall area, mapped :: Shmat(states[2], 7, 1, area, mapped).1.Panic?
    ensures forall area, mapped :: Shmat(INITIAL, 7, 1, area, mapped).1.Panic?
  {
    var m1 := Shmget(INITIAL, 5, 4096, 6, 1, 7).0;
    var m2 := Shmat(m1, 7, 1, Some(8192), true).0;
    states, steps := [INITIAL, m1, m2], [StepGet(5, 4096, 6, 1, 7), StepAt(7, 1, Some(8192), true)];
    assert 7 in m1.segs && 1 !in m1.segs[7].ranges;
    hide InsertVaddr;
    hide BiInsert;
    assert Next(INITIAL, steps[0], m1) && Next(m1, steps[1], m2);
    assert 1 in m2.segs[7].ranges;
  }

  // ---------------------------------------------------------------------- code

  class BiBTreeMap {
    var forward: map<int, int>
    var reverse: map<int, int>

    method Insert(k: int, v: int)
      modifies this
      ensures BiMap(forward, reverse) == BiInsert(old(BiMap(forward, reverse)), k, v)
    {
      var oldKey := if v in reverse then Some(reverse[v]) else None;
      reverse := reverse[v := k];
      if oldKey.Some? { forward := forward - {oldKey.value}; }
      var oldValue := if k in forward then Some(forward[k]) else None;
      forward := forward[k := v];
      if oldValue.Some? { reverse := reverse - {oldValue.value}; }
    }

    method RemoveByValue(v: int) returns (k: Option<int>)
      modifies this
      ensures BiMap(forward, reverse) == BiRemoveValue(old(BiMap(forward, reverse)), v)
      ensures k == if v in old(reverse) then Some(old(reverse)[v]) else None
    {
      if v !in reverse { return None; }
      k := Some(reverse[v]);
      reverse := reverse - {v};
      forward := forward - {k.value};
    }

    method RemoveByKey(k: int) returns (v: Option<int>)
      modifies this
      ensures BiMap(forward, reverse) == BiRemoveKey(old(BiMap(forward, reverse)), k)
      ensures v == if k in old(forward) then Some(old(forward)[k]) else None
    {
      if k !in forward { return None; }
      v := Some(forward[k]);
      forward := forward - {k};
      reverse := reverse - {v.value};
    }
  }

  /** Detach `p` from `s`, and remove `s` if that was the last attachment it waited for. */
  function ClearOne(m: Manager, p: int, s: int): Manager
    requires s in m.segs
  {
    var seg := Detach(m.segs[s], p);
    var m' := m.(segs := m.segs[s := seg]);
    if seg.rmid && |seg.ranges| == 0 then RemoveShmid(m', s) else m'
  }

  lemma ClearStepSegs(m: Manager, p: int, done: set<int>, s: int)
    requires Attached(m, p, s) && s !in done
    ensures s in ClearSegs(m, p, done) && ClearSegs(m, p, done)[s] == m.segs[s]
    ensures ClearSegs(m, p, done + {s}) ==
            if Dying(m, p, s) then ClearSegs(m, p, done) - {s} else ClearSegs(m, p, done)[s := Detach(m.segs[s], p)]
  {
    hide Detach;
  }

  /** Dropping the key of `s` from the keys that survived `done`. */
  lemma ClearStepKeys(m: Manager, p: int, done: set<int>, s: int)
    requires BiOk(m.keys) && s !in done
    ensures ClearKeys(m, p, done + {s}) ==
            if Dying(m, p, s) then BiRemoveValue(ClearKeys(m, p, done), s) else ClearKeys(m, p, done)
  {
    hide Attached;
    var keys, keys' := ClearKeys(m, p, done), ClearKeys(m, p, done + {s});
    if Dying(m, p, s) {
      if s in m.keys.reverse {
        var k := m.keys.reverse[s];
        assert forall j :: j in m.keys.forward && m.keys.forward[j] == s ==> j == k;
        assert keys'.forward == keys.forward - {k};
      } else {
        assert forall j :: j in m.keys.forward ==> m.keys.forward[j] != s;
        assert keys'.forward == keys.forward;
      }
      assert keys'.reverse == keys.reverse - {s};
    } else {
      assert keys'.forward == keys.forward && keys'.reverse == keys.reverse;
    }
  }

  lemma ClearStep(m: Manager, p: int, done: set<int>, s: int)
    requires BiOk(m.keys) && Attached(m, p, s) && s !in done
    ensures s in ClearSome(m, p, done).segs && p in ClearSome(m, p, done).segs[s].ranges
    ensures ClearOne(ClearSome(m, p, done), p, s) == ClearSome(m, p, done + {s})
  {
    ClearStepSegs(m, p, done, s);
    ClearStepKeys(m, p, done, s);
    var segs, seg := ClearSegs(m, p, done), Detach(m.segs[s], p);
    RangesLess(m.segs[s].ranges, p);
    assert Dying(m, p, s) <==> seg.rmid && |seg.ranges| == 0;
    MinusAgain(segs, s, seg);
    hide ClearSegs;
    hide ClearKeys;
    hide BiRemoveValue;
    hide Detach;
    hide Dying;
  }

  lemma MinusAgain(segs: map<int, Segment>, s: int, seg: Segment)
    ensures segs[s := seg] - {s} == segs - {s}
  {
  }

  /** A segment that is gone is passed over. */
  lemma ClearSkip(m: Manager, p: int, done: set<int>, s: int)
    requires s !in m.segs
    ensures ClearSome(m, p, done + {s}) == ClearSome(m, p, done)
  {
    var m1, m2 := ClearSome(m, p, done), ClearSome(m, p, done + {s});
    assert !Dying(m, p, s);
    assert m1.segs == m2.segs && m1.keys.forward == m2.keys.forward && m1.keys.reverse == m2.keys.reverse;
  }

  lemma ClearNone(m: Manager, p: int)
    ensures ClearSome(m, p, {}) == m
  {
    var m' := ClearSome(m, p, {});
    assert m'.segs == m.segs && m'.keys.forward == m.keys.forward && m'.keys.reverse == m.keys.reverse;
  }

  lemma ClearKeeps(m: Manager, p: int, done: set<int>, s: int)
    requires s !in done
    ensures s in ClearSegs(m, p, done) <==> s in m.segs
    ensures s in m.segs ==> ClearSegs(m, p, done)[s] == m.segs[s]
  {
  }

  class ShmManager {
    var keys: BiMap
    var segs: map<int, Segment>
    var procs: map<int, BiMap>

    function Value(): Manager
      reads this
    {
      Manager(keys, segs, procs)
    }

    /** One round of the exit loop; the assertion in `detach_process` is `p in ranges`. */
    method DetachFrom(p: int, s: int)
      requires s in segs && p in segs[s].ranges
      modifies this
      ensures Value() == ClearOne(old(Value()), p, s)
    {
      var seg := segs[s];
      seg := seg.(ranges := seg.ranges - {p}, nattch := (seg.nattch - 1) % COUNTER, lpid := p);
      segs := segs[s := seg];
      if seg.rmid && |seg.ranges| == 0 {
        keys := BiRemoveValue(keys, s);
        segs := segs - {s};
      }
    }

    /** The exit loop, in any order; false is the failed assertion in `detach_process`. */
    method ClearProcShm(p: int) returns (ok: bool)
      requires MapsOk(Value())
      modifies this
      ensures ok <==> !ExitTrips(old(Value()), p)
      ensures ok ==> Value() == Exit(old(Value()), p)
    {
      hide ClearSegs;
      hide ClearKeys;
      hide ClearOne;
      hide SegsOk;
      hide ProcsOk;
      ghost var m := Value();
      ghost var done: set<int> := {};
      ClearNone(m, p);
      if p in procs {
        var shmids := procs[p].forward.Keys;
        while shmids != {}
          invariant procs == m.procs && shmids !! done && shmids + done == Shmids(m, p)
          invariant Value() == ClearSome(m, p, done)
          invariant forall t :: t in done && t in m.segs ==> p in m.segs[t].ranges
          decreases shmids
        {
          var s := Pick(shmids);
          shmids := shmids - {s};
          ClearKeeps(m, p, done, s);
          if s in segs {
            if p !in segs[s].ranges { return false; }
            ClearStep(m, p, done, s);
            DetachFrom(p, s);
          } else {
            ClearSkip(m, p, done, s);
          }
          done := done + {s};
        }
        assert done == Shmids(m, p);
      }
      procs := procs - {p};
      ok := true;
    }

    method SysShmget(key: int, size: nat, mode: int, p: int, id: int) returns (r: Result)
      modifies this
      ensures (Value(), r) == Shmget(old(Value()), key, size, mode, p, id)
    {
      hide Pages;
      var pages := Pages(size);
      if pages == 0 { return EINVAL; }
      if key != IPC_PRIVATE && key in keys.forward {
        var s := keys.forward[key];
        if s !in segs { return EINVAL; }
        var seg := segs[s];
        if size != seg.size || mode != seg.mode { return EINVAL; }
        segs := segs[s := seg.(lpid := p)];
        return Ok(seg.shmid);
      }
      keys := BiInsert(keys, key, id);
      segs := segs[id := Segment(id, size, mode, pages, false, map[], 0, p)];
      r := Ok(id);
    }

    /** The process's map is updated before the pages are mapped, the segment's after. */
    method SysShmat(s: int, p: int, area: Option<int>, mapped: bool) returns (r: Result)
      modifies this
      ensures (Value(), r) == Shmat(old(Value()), s, p, area, mapped)
    {
      hide InsertVaddr;
      if s !in segs { return Panic; }
      var seg := segs[s];
      if p in seg.ranges { return Panic; }
      if area.None? { return ENOMEM; }
      procs := InsertVaddr(procs, p, seg.shmid, area.value);
      if !mapped { return ENOMEM; }
      segs := segs[s := Attach(seg, p, Range(area.value, seg.pages * PAGE))];
      r := Ok(area.value);
    }

    /** `sys_shmctl` with IPC_RMID. */
    method SysRmid(s: int) returns (r: Result)
      modifies this
      ensures (Value(), r) == Rmid(old(Value()), s)
      ensures r == if s in old(segs) then Ok(0) else EINVAL
    {
      if s !in segs { return EINVAL; }
      var seg := segs[s];
      seg := seg.(rmid := true);
      segs := segs[s := seg];
      r := Ok(0);
    }

    method SysShmdt(p: int, vaddr: int, unmapped: bool) returns (r: Result)
      modifies this
      ensures (Value(), r) == Shmdt(old(Value()), p, vaddr, unmapped)
    {
      hide RemoveVaddr;
      if p !in procs || vaddr !in procs[p].reverse { return EINVAL; }
      var s := procs[p].reverse[vaddr];
      if s !in segs || p !in segs[s].ranges { return EINVAL; }
      if !unmapped { return UnmapError; }
      procs := RemoveVaddr(procs, p, vaddr);
      var seg := Detach(segs[s], p);
      segs := segs[s := seg];
      if seg.rmid && |seg.ranges| == 0 {
        keys := BiRemoveValue(keys, s);
        segs := segs - {s};
      }
      r := Ok(0);
    }
  }
}
