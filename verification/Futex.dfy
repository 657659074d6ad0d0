/** The futex protocol: tables of wait queues shared by many threads, with two
    kinds of garbage collection running beside the waiters.  Each lock-protected
    action is one step; dropping a guard (its check and its removal) is one step
    too.  Threads, tables, entries, guards and handles are named by integers. */
module Futex {
  import opened Base
  import opened FutexQueue

  /** Where a key's table is found: in its process, or by its shared region. */
  datatype Owner = Process(pid: int) | Region(ptr: int)
  datatype Slot = Slot(table: int, key: int)
  datatype Guard = Guard(handle: int, slot: Slot, entry: int)

  /** The queue of an entry, or the vector that a requeue drained for its target. */
  datatype Where = Queue(entry: int) | Flight(guard: int)

  type Queues = map<Where, seq<Waiter>>

  /** `FutexTables`: the shared tables by region, and the operation counter. */
  datatype Tables = Tables(regions: map<int, int>, operations: nat)

  /** `slots` holds the contents of every futex table; `handles` are the
      `Arc<FutexTable>` clones that running calls hold, `guards` their
      `FutexGuard`s; `blocked` gives each blocked task the ticket of its wait call.
      `homes`, `owners` and `place` are history: the slot an entry was made for,
      the owner a table was made for, the queue a ticket was last put in. */
  datatype State = State(
    queues: Queues,
    blocked: map<int, int>,
    next: int,
    slots: map<Slot, int>,
    private: map<int, int>,
    shared: Tables,
    handles: map<int, int>,
    guards: map<int, Guard>,
    homes: map<int, Slot>,
    owners: map<int, Owner>,
    place: map<int, Where>)

  function At(qs: Queues, a: Where): seq<Waiter> {
    if a in qs then qs[a] else []
  }

  // ------------------------------------------------------------ queue invariant

  /** Every entry is where its ticket was last put, and a queue holds a ticket once. */
  ghost predicate Placed(qs: Queues, place: map<int, Where>, next: int) {
    && (forall a, w :: w in At(qs, a) ==> w.ticket in place && place[w.ticket] == a)
    && (forall a :: Distinct(At(qs, a)))
    && (forall k :: k in place ==> k < next)
  }

  ghost predicate Distinct(q: seq<Waiter>) {
    forall i, j :: 0 <= i < j < |q| ==> q[i].ticket != q[j].ticket
  }

  ghost predicate Has(q: seq<Waiter>, t: int, k: int) {
    exists w :: w in q && w.task == t && w.ticket == k
  }

  /** The ticket of every blocked task is queued. */
  ghost predicate Located(qs: Queues, place: map<int, Where>, blocked: map<int, int>) {
    forall t :: t in blocked ==> blocked[t] in place && Has(At(qs, place[blocked[t]]), t, blocked[t])
  }

  function Push(qs: Queues, a: Where, w: Waiter): Queues {
    qs[a := At(qs, a) + [w]]
  }

  lemma PushPlaced(qs: Queues, place: map<int, Where>, a: Where, w: Waiter, next: int)
    requires Placed(qs, place, next) && w.ticket == next
    ensures Placed(Push(qs, a, w), place[next := a], next + 1)
  {
    var qs', q := Push(qs, a, w), At(qs, a);
    assert forall b :: b != a ==> At(qs', b) == At(qs, b);
    assert Distinct(q + [w]) by {
      forall i | 0 <= i < |q| ensures q[i].ticket != next { assert q[i] in q; }
    }
  }

  lemma PushLocated(qs: Queues, place: map<int, Where>, a: Where, w: Waiter, blocked: map<int, int>, next: int)
    requires Placed(qs, place, next) && Located(qs, place, blocked) && w.ticket == next
    ensures Located(Push(qs, a, w), place[next := a], blocked[w.task := next])
  {
    var qs' := Push(qs, a, w);
    assert w in At(qs', a);
    forall t | t in blocked && t != w.task
      ensures Has(At(qs', place[blocked[t]]), t, blocked[t])
    {
      var b := place[blocked[t]];
      var v :| v in At(qs, b) && v.task == t && v.ticket == blocked[t];
      assert v in At(qs', b);
    }
  }

  function Shift(qs: Queues, a: Where, n: nat, b: Where): Queues
    requires n <= |At(qs, a)|
  {
    qs[a := At(qs, a)[n..]][b := At(qs, b) + At(qs, a)[..n]]
  }

  function Tickets(q: seq<Waiter>): set<int> {
    set w | w in q :: w.ticket
  }

  function Moved(place: map<int, Where>, q: seq<Waiter>, b: Where): map<int, Where> {
    var ks := Tickets(q);
    place + map k | k in ks :: b
  }

  lemma ShiftWhere(qs: Queues, place: map<int, Where>, a: Where, n: nat, b: Where, next: int, c: Where, w: Waiter)
    requires Placed(qs, place, next) && a != b && n <= |At(qs, a)| && w in At(Shift(qs, a, n, b), c)
    ensures var place' := Moved(place, At(qs, a)[..n], b); w.ticket in place' && place'[w.ticket] == c
  {
    var q := At(qs, a);
    assert Distinct(q);
    hide Distinct;
    if c == b {
      assert w in q[..n] || w in At(qs, b);
    } else {
      assert w in At(qs, c);
      forall v | v in q[..n] ensures v.ticket != w.ticket {
        if c == a { TailTicket(q, n, v, w); } else { assert v in q; }
      }
      assert w.ticket !in Tickets(q[..n]);
    }
  }

  lemma TailTicket(q: seq<Waiter>, n: nat, v: Waiter, w: Waiter)
    requires Distinct(q) && n <= |q| && v in q[..n] && w in q[n..]
    ensures v.ticket != w.ticket
  {
    var i :| 0 <= i < n && q[..n][i] == v;
    var j :| 0 <= j < |q| - n && q[n..][j] == w;
    assert q[i] == v && q[n + j] == w;
  }

  lemma ShiftDistinct(qs: Queues, place: map<int, Where>, a: Where, n: nat, b: Where, next: int, c: Where)
    requires Placed(qs, place, next) && a != b && n <= |At(qs, a)|
    ensures Distinct(At(Shift(qs, a, n, b), c))
  {
    var q, r := At(qs, a), At(qs, b);
    assert Distinct(q) && Distinct(r) && Distinct(At(qs, c));
    if c == b {
      forall i, j | 0 <= i < |r| && 0 <= j < n ensures r[i].ticket != q[j].ticket {
        assert r[i] in r && q[j] in q;
      }
    }
  }

  lemma ShiftPlaced(qs: Queues, place: map<int, Where>, a: Where, n: nat, b: Where, next: int)
    requires Placed(qs, place, next) && a != b && n <= |At(qs, a)|
    ensures Placed(Shift(qs, a, n, b), Moved(place, At(qs, a)[..n], b), next)
  {
    var qs', place' := Shift(qs, a, n, b), Moved(place, At(qs, a)[..n], b);
    forall k | k in place' ensures k < next {
      if k in Tickets(At(qs, a)[..n]) {
        var v :| v in At(qs, a)[..n] && v.ticket == k;
        assert v in At(qs, a);
      }
    }
    hide Shift;
    hide Moved;
    hide Distinct;
    forall c, w | w in At(qs', c) ensures w.ticket in place' && place'[w.ticket] == c {
      ShiftWhere(qs, place, a, n, b, next, c, w);
    }
    forall c ensures Distinct(At(qs', c)) { ShiftDistinct(qs, place, a, n, b, next, c); }
  }

  /** An entry is found where its ticket was last put, moved or not. */
  lemma ShiftFinds(qs: Queues, place: map<int, Where>, a: Where, n: nat, b: Where, next: int, c: Where, v: Waiter)
    requires Placed(qs, place, next) && a != b && n <= |At(qs, a)| && v in At(qs, c)
    ensures var place' := Moved(place, At(qs, a)[..n], b);
            v.ticket in place' && v in At(Shift(qs, a, n, b), place'[v.ticket])
  {
    var q := At(qs, a);
    assert place[v.ticket] == c;
    if v.ticket in Tickets(q[..n]) {
      var w :| w in q[..n] && w.ticket == v.ticket;
      assert w in q && c == a;
      SameTicket(q, v, w);
    } else {
      assert v !in q[..n];
      assert c == a ==> v in q[..n] + q[n..];
    }
  }

  /** Moving a prefix from one queue to the tail of another loses nobody. */
  lemma ShiftLocated(qs: Queues, place: map<int, Where>, a: Where, n: nat, b: Where, blocked: map<int, int>, next: int)
    requires Placed(qs, place, next) && Located(qs, place, blocked) && a != b && n <= |At(qs, a)|
    ensures Located(Shift(qs, a, n, b), Moved(place, At(qs, a)[..n], b), blocked)
  {
    hide Moved;
    hide Shift;
    var qs', place' := Shift(qs, a, n, b), Moved(place, At(qs, a)[..n], b);
    forall t | t in blocked
      ensures blocked[t] in place' && Has(At(qs', place'[blocked[t]]), t, blocked[t])
    {
      var c := place[blocked[t]];
      var v :| v in At(qs, c) && v.task == t && v.ticket == blocked[t];
      ShiftFinds(qs, place, a, n, b, next, c, v);
    }
  }

  lemma SameTicket(q: seq<Waiter>, v: Waiter, w: Waiter)
    requires Distinct(q) && v in q && w in q && v.ticket == w.ticket
    ensures v == w
  {
    var i :| 0 <= i < |q| && q[i] == v;
    var j :| 0 <= j < |q| && q[j] == w;
    assert i == j;
  }

  lemma {:induction false} WakeMembers(q: seq<Waiter>, count: nat, mask: bv32)
    ensures forall w :: w in q <==> w in Wake(q, count, mask).0 || w in Wake(q, count, mask).1
    ensures Distinct(q) ==> Distinct(Wake(q, count, mask).1)
  {
    if q != [] {
      var c := if count == 0 || !Matches(q[0], mask) then count else count - 1;
      WakeMembers(q[1..], c, mask);
      var kept := Wake(q[1..], c, mask).1;
      assert q == [q[0]] + q[1..];
      if Distinct(q) {
        forall j | 0 <= j < |kept| ensures kept[j].ticket != q[0].ticket {
          assert kept[j] in q[1..];
        }
      }
    }
  }

  /** Waking removes the entries of the tasks it wakes, and of nobody still blocked. */
  lemma WakeKeeps(qs: Queues, place: map<int, Where>, a: Where, count: nat, mask: bv32,
                  blocked: map<int, int>, next: int)
    requires Placed(qs, place, next) && Located(qs, place, blocked)
    ensures var (woken, kept) := Wake(At(qs, a), count, mask);
            Placed(qs[a := kept], place, next) && Located(qs[a := kept], place, blocked - Tasks(woken))
  {
    WakeMembers(At(qs, a), count, mask);
    var (woken, kept) := Wake(At(qs, a), count, mask);
    var qs' := qs[a := kept];
    assert forall c :: c != a ==> At(qs', c) == At(qs, c);
    forall t | t in blocked && t !in Tasks(woken)
      ensures Has(At(qs', place[blocked[t]]), t, blocked[t])
    {
      var c, k := place[blocked[t]], blocked[t];
      var v :| v in At(qs, c) && v.task == t && v.ticket == k;
      assert v !in woken;
      assert v in At(qs', c);
    }
  }

  function Tasks(q: seq<Waiter>): set<int> {
    set w | w in q :: w.task
  }

  // ------------------------------------------------------------ table invariant

  function TableOf(st: State, o: Owner): Option<int> {
    match o
    case Process(pid) => if pid in st.private then Some(st.private[pid]) else None
    case Region(ptr) => if ptr in st.shared.regions then Some(st.shared.regions[ptr]) else None
  }

  /** `futex_table_for` followed by `FutexTable::get`. */
  function Lookup(st: State, o: Owner, key: int): Option<int> {
    match TableOf(st, o)
    case None => None
    case Some(t) => if Slot(t, key) in st.slots then Some(st.slots[Slot(t, key)]) else None
  }

  predicate Registered(st: State, t: int) {
    t in st.owners && TableOf(st, st.owners[t]) == Some(t)
  }

  predicate Stored(st: State, e: int) {
    e in st.homes && st.homes[e] in st.slots && st.slots[st.homes[e]] == e
  }

  /** A table is found where it was registered. */
  ghost predicate RegistryOk(st: State) {
    forall o :: TableOf(st, o).Some? ==> TableOf(st, o).value in st.owners && st.owners[TableOf(st, o).value] == o
  }

  ghost predicate SlotsOk(st: State) {
    forall s :: s in st.slots ==> st.slots[s] in st.homes && st.homes[st.slots[s]] == s && Registered(st, s.table)
  }

  ghost predicate HandlesOk(st: State) {
    forall h :: h in st.handles ==> Registered(st, st.handles[h])
  }

  ghost predicate GuardOk(st: State, g: Guard) {
    && g.slot in st.slots && st.slots[g.slot] == g.entry
    && g.handle in st.handles && st.handles[g.handle] == g.slot.table
  }

  ghost predicate GuardsOk(st: State) {
    forall g :: g in st.guards ==> GuardOk(st, st.guards[g])
  }

  /** Only stored entries have waiters, and drained waiters have a live target. */
  ghost predicate QueuesOk(st: State) {
    && (forall e :: At(st.queues, Queue(e)) != [] ==> Stored(st, e))
    && (forall g :: At(st.queues, Flight(g)) != [] ==> g in st.guards)
  }

  ghost predicate Inv(st: State) {
    && Placed(st.queues, st.place, st.next)
    && Located(st.queues, st.place, st.blocked)
    && RegistryOk(st) && SlotsOk(st) && HandlesOk(st) && GuardsOk(st) && QueuesOk(st)
  }

  // ----------------------------------------------------------------------- steps

  /** Tables that a running call holds, or that are not empty. */
  function InUse(st: State): set<int> {
    (set h | h in st.handles :: st.handles[h]) + (set s | s in st.slots :: s.table)
  }

  /** `FutexTables::get_or_insert`: every hundredth call first drops the tables that
      nobody uses.  `spare` names the table made when the region has none. */
  function GetOrInsertTable(ts: Tables, inUse: set<int>, ptr: int, spare: int): (Tables, int) {
    var n := ts.operations + 1;
    var regions := if n == 100 then map r | r in ts.regions && ts.regions[r] in inUse :: ts.regions[r] else ts.regions;
    var n' := if n == 100 then 0 else n;
    if ptr in regions then (Tables(regions, n'), regions[ptr]) else (Tables(regions[ptr := spare], n'), spare)
  }

  /** `Arc::strong_count` of an entry: its table's clone and one per guard. */
  function StrongCount(st: State, e: int): nat {
    (if Stored(st, e) then 1 else 0) + |GuardsOf(st, e)|
  }

  function GuardsOf(st: State, e: int): set<int> {
    set g | g in st.guards && st.guards[g].entry == e
  }

  function NewProcess(st: State, pid: int, t: int): State {
    st.(private := st.private[pid := t], owners := st.owners[t := Process(pid)])
  }

  /** `ProcessData::futex_table_for`. */
  function Acquire(st: State, o: Owner, h: int, spare: int): State
    requires o.Process? ==> o.pid in st.private
  {
    match o
    case Process(pid) => st.(handles := st.handles[h := st.private[pid]])
    case Region(ptr) =>
      var (ts, t) := GetOrInsertTable(st.shared, InUse(st), ptr, spare);
      var owners := if t == spare then st.owners[spare := o] else st.owners;
      st.(shared := ts, handles := st.handles[h := t], owners := owners)
  }

  /** `FutexTable::get`, for a key the table has. */
  function Get(st: State, h: int, key: int, g: int): State
    requires h in st.handles && Slot(st.handles[h], key) in st.slots
  {
    var s := Slot(st.handles[h], key);
    st.(guards := st.guards[g := Guard(h, s, st.slots[s])])
  }

  /** `FutexTable::get_or_insert`, for a key the table has not. */
  function Insert(st: State, h: int, key: int, g: int, e: int): State
    requires h in st.handles
  {
    var s := Slot(st.handles[h], key);
    st.(slots := st.slots[s := e], homes := st.homes[e := s], guards := st.guards[g := Guard(h, s, e)])
  }

  /** `WaitQueue::wait_if` when the futex word still has the expected value. */
  function Wait(st: State, g: int, t: int, bits: bv32): State
    requires g in st.guards
  {
    var a := Queue(st.guards[g].entry);
    st.(queues := Push(st.queues, a, Waiter(t, st.next, bits)), blocked := st.blocked[t := st.next],
        place := st.place[st.next := a], next := st.next + 1)
  }

  /** `WaitQueue::wake`; a waker makes its task run again whichever wait queued it. */
  function WakeUp(st: State, g: int, count: nat, mask: bv32): State
    requires g in st.guards
  {
    var a := Queue(st.guards[g].entry);
    var (woken, kept) := Wake(At(st.queues, a), count, mask);
    st.(queues := st.queues[a := kept], blocked := st.blocked - Tasks(woken))
  }

  /** A timeout or a signal ends a wait; the entry stays behind. */
  function Leave(st: State, t: int): State {
    st.(blocked := st.blocked - {t})
  }

  function MoveWaiters(st: State, a: Where, n: nat, b: Where): State
    requires n <= |At(st.queues, a)|
  {
    st.(queues := Shift(st.queues, a, n, b), place := Moved(st.place, At(st.queues, a)[..n], b))
  }

  /** The two halves of `WaitQueue::requeue`, each under its own queue's lock. */
  function Drain(st: State, g: int, target: int, count: nat): State
    requires g in st.guards
  {
    var a := Queue(st.guards[g].entry);
    MoveWaiters(st, a, Min(count, |At(st.queues, a)|), Flight(target))
  }

  function Extend(st: State, target: int): State
    requires target in st.guards
  {
    MoveWaiters(st, Flight(target), |At(st.queues, Flight(target))|, Queue(st.guards[target].entry))
  }

  /** The test that `Drop for FutexGuard` makes. */
  predicate WouldRemove(st: State, g: int)
    requires g in st.guards
  {
    StrongCount(st, st.guards[g].entry) <= 2 && At(st.queues, Queue(st.guards[g].entry)) == []
  }

  /** `Drop for FutexGuard`. */
  function DropGuard(st: State, g: int): State
    requires g in st.guards
  {
    var slot := st.guards[g].slot;
    st.(guards := st.guards - {g}, slots := if WouldRemove(st, g) then st.slots - {slot} else st.slots)
  }

  function DropHandle(st: State, h: int): State {
    st.(handles := st.handles - {h})
  }

  datatype Step =
    | StepProcess(pid: int, table: int)
    | StepAcquire(owner: Owner, handle: int, table: int)
    | StepGet(handle: int, key: int, guard: int)
    | StepInsert(handle: int, key: int, guard: int, entry: int)
    | StepWait(guard: int, task: int, bits: bv32)
    | StepWake(guard: int, count: nat, mask: bv32)
    | StepLeave(task: int)
    | StepDrain(guard: int, target: int, count: nat)
    | StepExtend(target: int)
    | StepDropGuard(guard: int)
    | StepDropHandle(handle: int)

  /** New names are fresh, a handle outlives the guards taken through it, and a
      requeue appends what it drained before it lets go of its target. */
  ghost predicate Next(st: State, step: Step, st': State) {
    match step
    case StepProcess(pid, t) => pid !in st.private && t !in st.owners && st' == NewProcess(st, pid, t)
    case StepAcquire(o, h, t) =>
      && h !in st.handles && t !in st.owners && (o.Process? ==> o.pid in st.private)
      && st' == Acquire(st, o, h, t)
    case StepGet(h, key, g) =>
      && h in st.handles && g !in st.guards && Slot(st.handles[h], key) in st.slots
      && st' == Get(st, h, key, g)
    case StepInsert(h, key, g, e) =>
      && h in st.handles && g !in st.guards && Slot(st.handles[h], key) !in st.slots && e !in st.homes
      && st' == Insert(st, h, key, g, e)
    case StepWait(g, t, bits) => g in st.guards && t !in st.blocked && st' == Wait(st, g, t, bits)
    case StepWake(g, count, mask) => g in st.guards && st' == WakeUp(st, g, count, mask)
    case StepLeave(t) => st' == Leave(st, t)
    case StepDrain(g, target, count) =>
      g in st.guards && target in st.guards && st' == Drain(st, g, target, count)
    case StepExtend(target) => target in st.guards && st' == Extend(st, target)
    case StepDropGuard(g) => g in st.guards && At(st.queues, Flight(g)) == [] && st' == DropGuard(st, g)
    case StepDropHandle(h) =>
      && h in st.handles && (forall g :: g in st.guards ==> st.guards[g].handle != h)
      && st' == DropHandle(st, h)
  }

  // ----------------------------------------------------------- every step keeps it

  /** A step that leaves queues and tasks alone. */
  ghost predicate SameQueues(st: State, st': State) {
    st'.queues == st.queues && st'.place == st.place && st'.blocked == st.blocked && st'.next == st.next
  }

  /** A step that touches queues and tasks only. */
  ghost predicate SameTables(st: State, st': State) {
    && st'.slots == st.slots && st'.private == st.private && st'.shared == st.shared
    && st'.handles == st.handles && st'.guards == st.guards && st'.homes == st.homes && st'.owners == st.owners
  }

  lemma TablesKept(st: State, st': State)
    requires RegistryOk(st) && SlotsOk(st) && HandlesOk(st) && GuardsOk(st) && SameTables(st, st')
    ensures RegistryOk(st') && SlotsOk(st') && HandlesOk(st') && GuardsOk(st')
  {
    assert forall t :: Registered(st', t) == Registered(st, t);
    assert forall o :: TableOf(st', o) == TableOf(st, o);
  }

  lemma ProcessInv(st: State, pid: int, t: int)
    requires Inv(st) && pid !in st.private && t !in st.owners
    ensures Inv(NewProcess(st, pid, t))
  {
    hide Placed;
    hide Located;
    var st' := NewProcess(st, pid, t);
    assert forall o :: o != Process(pid) ==> TableOf(st', o) == TableOf(st, o);
    assert forall u :: Registered(st, u) ==> Registered(st', u);
    assert forall e :: Stored(st, e) == Stored(st', e);
  }

  /** Fetching the table of `o` keeps every other table where it is or sweeps it, and the
      tables in use it keeps. */
  lemma AcquireTables(st: State, o: Owner, h: int, spare: int)
    requires o.Process? ==> o.pid in st.private
    ensures var st' := Acquire(st, o, h, spare);
            && h in st'.handles && TableOf(st', o) == Some(st'.handles[h])
            && (TableOf(st, o) == Some(st'.handles[h]) || st'.handles[h] == spare)
            && st'.owners == (if o.Region? && st'.handles[h] == spare then st.owners[spare := o] else st.owners)
            && (o.Process? ==> TableOf(st, o) == Some(st'.handles[h]))
            && (forall p :: p != o && TableOf(st', p).Some? ==> TableOf(st', p) == TableOf(st, p))
            && (forall p :: TableOf(st, p).Some? && TableOf(st, p).value in InUse(st) ==>
                              TableOf(st', p) == TableOf(st, p))
  {
    hide InUse;
  }

  /** Neither the sweep nor the insertion unregisters a table in use. */
  lemma AcquireRegisters(st: State, o: Owner, h: int, spare: int)
    requires RegistryOk(st) && spare !in st.owners && (o.Process? ==> o.pid in st.private)
    ensures var st' := Acquire(st, o, h, spare);
            && RegistryOk(st')
            && (forall t :: t in InUse(st) && Registered(st, t) ==> Registered(st', t))
            && h in st'.handles && Registered(st', st'.handles[h])
            && TableOf(st', o) == Some(st'.handles[h])
  {
    hide Acquire;
    hide InUse;
    hide TableOf;
    AcquireTables(st, o, h, spare);
  }

  lemma AcquireFrame(st: State, o: Owner, h: int, spare: int)
    requires o.Process? ==> o.pid in st.private
    ensures var st' := Acquire(st, o, h, spare);
            && SameQueues(st, st') && st'.slots == st.slots && st'.homes == st.homes && st'.guards == st.guards
            && h in st'.handles && st'.handles == st.handles[h := st'.handles[h]]
  {
  }

  lemma AcquireInv(st: State, o: Owner, h: int, spare: int)
    requires Inv(st) && h !in st.handles && spare !in st.owners && (o.Process? ==> o.pid in st.private)
    ensures Inv(Acquire(st, o, h, spare))
  {
    hide Placed;
    hide Located;
    hide Acquire;
    var st' := Acquire(st, o, h, spare);
    AcquireRegisters(st, o, h, spare);
    AcquireFrame(st, o, h, spare);
    assert SlotsOk(st') by {
      forall s | s in st.slots ensures Registered(st', s.table) { assert s.table in InUse(st); }
    }
    assert HandlesOk(st') by {
      forall k | k in st.handles ensures Registered(st', st.handles[k]) { assert st.handles[k] in InUse(st); }
    }
    hide RegistryOk;
    hide Registered;
    assert GuardsOk(st') by {
      forall g | g in st.guards ensures GuardOk(st', st.guards[g]) { assert GuardOk(st, st.guards[g]); }
    }
    assert QueuesOk(st') by { assert forall e :: Stored(st, e) == Stored(st', e); }
  }

  lemma GetInv(st: State, h: int, key: int, g: int)
    requires Inv(st) && h in st.handles && g !in st.guards && Slot(st.handles[h], key) in st.slots
    ensures Inv(Get(st, h, key, g))
  {
    hide Placed;
    hide Located;
    var st' := Get(st, h, key, g);
    assert forall t :: Registered(st', t) == Registered(st, t);
    assert forall o :: TableOf(st', o) == TableOf(st, o);
    assert forall e :: Stored(st, e) == Stored(st', e);
  }

  lemma InsertTables(st: State, h: int, key: int, g: int, e: int)
    requires RegistryOk(st) && SlotsOk(st) && HandlesOk(st)
    requires h in st.handles && Slot(st.handles[h], key) !in st.slots && e !in st.homes
    ensures var st' := Insert(st, h, key, g, e); RegistryOk(st') && SlotsOk(st') && HandlesOk(st')
  {
    var st' := Insert(st, h, key, g, e);
    assert forall t :: Registered(st', t) == Registered(st, t);
    assert forall o :: TableOf(st', o) == TableOf(st, o);
  }

  lemma InsertGuards(st: State, h: int, key: int, g: int, e: int)
    requires SlotsOk(st) && GuardsOk(st) && QueuesOk(st)
    requires h in st.handles && g !in st.guards && Slot(st.handles[h], key) !in st.slots && e !in st.homes
    ensures var st' := Insert(st, h, key, g, e); GuardsOk(st') && QueuesOk(st')
  {
    hide Registered;
    var st' := Insert(st, h, key, g, e);
    assert forall d :: Stored(st, d) ==> Stored(st', d);
    forall k | k in st.guards ensures GuardOk(st', st.guards[k]) { assert GuardOk(st, st.guards[k]); }
  }

  lemma InsertInv(st: State, h: int, key: int, g: int, e: int)
    requires Inv(st) && h in st.handles && g !in st.guards && Slot(st.handles[h], key) !in st.slots && e !in st.homes
    ensures Inv(Insert(st, h, key, g, e))
  {
    hide Placed;
    hide Located;
    hide RegistryOk;
    hide SlotsOk;
    hide HandlesOk;
    hide GuardsOk;
    hide QueuesOk;
    InsertTables(st, h, key, g, e);
    InsertGuards(st, h, key, g, e);
  }

  lemma WaitInv(st: State, g: int, t: int, bits: bv32)
    requires Inv(st) && g in st.guards && t !in st.blocked
    ensures Inv(Wait(st, g, t, bits))
  {
    var a, w := Queue(st.guards[g].entry), Waiter(t, st.next, bits);
    PushPlaced(st.queues, st.place, a, w, st.next);
    PushLocated(st.queues, st.place, a, w, st.blocked, st.next);
    hide Placed;
    hide Located;
    var st' := Wait(st, g, t, bits);
    TablesKept(st, st');
    assert GuardOk(st, st.guards[g]);
    assert forall e :: Stored(st, e) == Stored(st', e);
  }

  lemma WakeInv(st: State, g: int, count: nat, mask: bv32)
    requires Inv(st) && g in st.guards
    ensures Inv(WakeUp(st, g, count, mask))
  {
    var a := Queue(st.guards[g].entry);
    WakeKeeps(st.queues, st.place, a, count, mask, st.blocked, st.next);
    hide Placed;
    hide Located;
    var st' := WakeUp(st, g, count, mask);
    TablesKept(st, st');
    assert GuardOk(st, st.guards[g]);
    assert forall e :: Stored(st, e) == Stored(st', e);
  }

  lemma LeaveInv(st: State, t: int)
    requires Inv(st)
    ensures Inv(Leave(st, t))
  {
    var st' := Leave(st, t);
    TablesKept(st, st');
    assert forall e :: Stored(st, e) == Stored(st', e);
  }

  lemma MoveQueues(st: State, a: Where, n: nat, b: Where)
    requires QueuesOk(st) && n <= |At(st.queues, a)|
    requires b.Queue? ==> Stored(st, b.entry)
    requires b.Flight? ==> b.guard in st.guards
    ensures QueuesOk(MoveWaiters(st, a, n, b))
  {
    hide Moved;
    var st' := MoveWaiters(st, a, n, b);
    assert forall e :: Stored(st, e) == Stored(st', e);
    assert forall c :: At(st'.queues, c) != [] ==> At(st.queues, c) != [] || c == b;
  }

  lemma MoveInv(st: State, a: Where, n: nat, b: Where)
    requires Inv(st) && a != b && n <= |At(st.queues, a)|
    requires b.Queue? ==> Stored(st, b.entry)
    requires b.Flight? ==> b.guard in st.guards
    ensures Inv(MoveWaiters(st, a, n, b))
  {
    hide Placed;
    hide Located;
    hide Moved;
    hide Shift;
    hide QueuesOk;
    ShiftPlaced(st.queues, st.place, a, n, b, st.next);
    ShiftLocated(st.queues, st.place, a, n, b, st.blocked, st.next);
    MoveQueues(st, a, n, b);
    TablesKept(st, MoveWaiters(st, a, n, b));
  }

  /** A guard removes its entry only if it was the last to hold it. */
  lemma DropGuardAlone(st: State, g: int, g': int)
    requires SlotsOk(st) && GuardsOk(st) && g in st.guards && g' in st.guards && g != g'
    requires st.guards[g'].slot == st.guards[g].slot
    ensures DropGuard(st, g).slots == st.slots
  {
    assert GuardOk(st, st.guards[g]) && GuardOk(st, st.guards[g']);
    var e := st.guards[g].entry;
    assert {g, g'} <= GuardsOf(st, e);
    assert |{g, g'}| <= |GuardsOf(st, e)| by { SubsetSize({g, g'}, GuardsOf(st, e)); }
  }

  lemma SubsetSize(a: set<int>, b: set<int>)
    requires a <= b
    ensures |a| <= |b|
  {
    assert b == a + (b - a);
  }

  lemma DropGuardQueues(st: State, g: int)
    requires GuardsOk(st) && QueuesOk(st) && g in st.guards && At(st.queues, Flight(g)) == []
    ensures QueuesOk(DropGuard(st, g))
  {
    hide Registered;
    hide StrongCount;
    hide TableOf;
    var st', guard := DropGuard(st, g), st.guards[g];
    assert GuardOk(st, guard);
    forall e | At(st.queues, Queue(e)) != []
      ensures Stored(st', e)
    {
      assert Stored(st, e);
    }
  }

  lemma FewerSlots(st: State, st': State)
    requires RegistryOk(st) && SlotsOk(st) && HandlesOk(st)
    requires st'.private == st.private && st'.shared == st.shared && st'.owners == st.owners && st'.homes == st.homes
    requires forall s :: s in st'.slots ==> s in st.slots && st'.slots[s] == st.slots[s]
    requires forall h :: h in st'.handles ==> h in st.handles && st'.handles[h] == st.handles[h]
    ensures RegistryOk(st') && SlotsOk(st') && HandlesOk(st')
  {
    assert forall o :: TableOf(st', o) == TableOf(st, o);
    assert forall t :: Registered(st', t) == Registered(st, t);
  }

  lemma DropGuardGuards(st: State, g: int)
    requires SlotsOk(st) && GuardsOk(st) && g in st.guards
    ensures GuardsOk(DropGuard(st, g))
  {
    hide StrongCount;
    var st' := DropGuard(st, g);
    forall g' | g' in st'.guards
      ensures GuardOk(st', st'.guards[g'])
    {
      assert GuardOk(st, st.guards[g']);
      if st.guards[g'].slot == st.guards[g].slot { DropGuardAlone(st, g, g'); }
    }
  }

  lemma DropGuardInv(st: State, g: int)
    requires Inv(st) && g in st.guards && At(st.queues, Flight(g)) == []
    ensures Inv(DropGuard(st, g))
  {
    hide Placed;
    hide Located;
    hide RegistryOk;
    hide SlotsOk;
    hide HandlesOk;
    hide GuardsOk;
    hide QueuesOk;
    hide WouldRemove;
    DropGuardQueues(st, g);
    DropGuardGuards(st, g);
    FewerSlots(st, DropGuard(st, g));
  }

  lemma DropHandleInv(st: State, h: int)
    requires Inv(st) && h in st.handles && (forall g :: g in st.guards ==> st.guards[g].handle != h)
    ensures Inv(DropHandle(st, h))
  {
    hide Placed;
    hide Located;
    var st' := DropHandle(st, h);
    FewerSlots(st, st');
    hide Registered;
    assert forall e :: Stored(st, e) == Stored(st', e);
    forall g | g in st.guards ensures GuardOk(st', st.guards[g]) { assert GuardOk(st, st.guards[g]); }
  }

  lemma GuardStores(st: State, g: int)
    requires Inv(st) && g in st.guards
    ensures Stored(st, st.guards[g].entry)
  {
    assert GuardOk(st, st.guards[g]);
  }

  lemma DrainInv(st: State, g: int, target: int, count: nat)
    requires Inv(st) && g in st.guards && target in st.guards
    ensures Inv(Drain(st, g, target, count))
  {
    hide Inv;
    var a := Queue(st.guards[g].entry);
    MoveInv(st, a, Min(count, |At(st.queues, a)|), Flight(target));
  }

  lemma ExtendInv(st: State, target: int)
    requires Inv(st) && target in st.guards
    ensures Inv(Extend(st, target))
  {
    GuardStores(st, target);
    hide Inv;
    MoveInv(st, Flight(target), |At(st.queues, Flight(target))|, Queue(st.guards[target].entry));
  }

  /** Every step of the protocol keeps the invariant. */
  lemma NextInv(st: State, step: Step, st': State)
    requires Inv(st) && Next(st, step, st')
    ensures Inv(st')
  {
    hide Inv;
    match step
    case StepProcess(pid, t) => ProcessInv(st, pid, t);
    case StepAcquire(o, h, t) => AcquireInv(st, o, h, t);
    case StepGet(h, key, g) => GetInv(st, h, key, g);
    case StepInsert(h, key, g, e) => InsertInv(st, h, key, g, e);
    case StepWait(g, t, bits) => WaitInv(st, g, t, bits);
    case StepWake(g, count, mask) => WakeInv(st, g, count, mask);
    case StepLeave(t) => LeaveInv(st, t);
    case StepDrain(g, target, count) => DrainInv(st, g, target, count);
    case StepExtend(target) => ExtendInv(st, target);
    case StepDropGuard(g) => DropGuardInv(st, g);
    case StepDropHandle(h) => DropHandleInv(st, h);
  }

  // ------------------------------------------------------------------------ runs

  const INITIAL := State(map[], map[], 0, map[], map[], Tables(map[], 0), map[], map[], map[], map[], map[])

  ghost predicate Run(states: seq<State>, steps: seq<Step>) {
    && |states| == |steps| + 1 && states[0] == INITIAL
    && forall k :: 0 <= k < |steps| ==> Next(states[k], steps[k], states[k + 1])
  }

  /** A blocked task has one entry, in one queue: either the queue of an entry that
      its key still leads to, or the vector of a requeue whose target key does. */
  ghost predicate Reachable(st: State, t: int)
    requires t in st.blocked
  {
    var k := st.blocked[t];
    exists a, i :: 0 <= i < |At(st.queues, a)|
      && At(st.queues, a)[i].task == t && At(st.queues, a)[i].ticket == k
      && (forall b, j :: 0 <= j < |At(st.queues, b)| && At(st.queues, b)[j].ticket == k ==> a == b && i == j)
      && match a
         case Queue(e) => Found(st, e)
         case Flight(g) => g in st.guards && Found(st, st.guards[g].entry)
  }

  /** Looking up the key an entry was made for finds that entry. */
  predicate Found(st: State, e: int) {
    && e in st.homes && st.homes[e].table in st.owners
    && Lookup(st, st.owners[st.homes[e].table], st.homes[e].key) == Some(e)
  }

  lemma StoredFound(st: State, e: int)
    requires SlotsOk(st) && Stored(st, e)
    ensures Found(st, e)
  {
    var s := st.homes[e];
    assert Registered(st, s.table);
    assert Slot(s.table, s.key) == s;
  }

  lemma BlockedReachable(st: State, t: int)
    requires Inv(st) && t in st.blocked
    ensures Reachable(st, t)
  {
    var k := st.blocked[t];
    var a := st.place[k];
    var q := At(st.queues, a);
    var w :| w in q && w.task == t && w.ticket == k;
    var i :| 0 <= i < |q| && q[i] == w;
    forall b, j | 0 <= j < |At(st.queues, b)| && At(st.queues, b)[j].ticket == k
      ensures a == b && i == j
    {
      assert At(st.queues, b)[j] in At(st.queues, b);
    }
    match a {
      case Queue(e) => StoredFound(st, e);
      case Flight(g) =>
        GuardStores(st, g);
        StoredFound(st, st.guards[g].entry);
    }
  }

  lemma {:induction false} RunReachable(states: seq<State>, steps: seq<Step>, n: nat)
    requires Run(states, steps) && n < |states|
    ensures Inv(states[n]) && forall t :: t in states[n].blocked ==> Reachable(states[n], t)
  {
    hide Next;
    if n == 0 {
    } else {
      RunReachable(states, steps, n - 1);
      NextInv(states[n - 1], steps[n - 1], states[n]);
    }
    hide Inv;
    hide Reachable;
    forall t | t in states[n].blocked ensures Reachable(states[n], t) { BlockedReachable(states[n], t); }
  }

  /** Fetching a table, with or without a sweep, hides no entry from any lookup. */
  lemma AcquireFinds(st: State, o: Owner, h: int, spare: int, p: Owner, key: int)
    requires Inv(st) && h !in st.handles && spare !in st.owners && (o.Process? ==> o.pid in st.private)
    requires Lookup(st, p, key).Some?
    ensures Lookup(Acquire(st, o, h, spare), p, key) == Lookup(st, p, key)
  {
    hide Placed;
    hide Located;
    var t := TableOf(st, p).value;
    assert Registered(st, t) && t in InUse(st) by { assert Slot(t, key) in st.slots; }
    AcquireRegisters(st, o, h, spare);
    AcquireFrame(st, o, h, spare);
  }

  // ------------------------------------------------------- nothing is kept in vain

  /** A guard holds the entry, or somebody is queued on it. */
  ghost predicate Wanted(st: State, e: int) {
    GuardsOf(st, e) != {} || At(st.queues, Queue(e)) != []
  }

  /** Every stored entry is wanted. */
  ghost predicate Needed(st: State) {
    forall s :: s in st.slots ==> Wanted(st, st.slots[s])
  }

  /** Changing queues whose entries are held leaves every entry wanted. */
  lemma HeldWanted(st: State, st': State)
    requires Needed(st) && st'.slots == st.slots && st'.guards == st.guards
    requires forall e :: GuardsOf(st, e) == {} && At(st.queues, Queue(e)) != [] ==> At(st'.queues, Queue(e)) != []
    ensures Needed(st')
  {
    forall s | s in st.slots ensures Wanted(st', st.slots[s]) {
      assert Wanted(st, st.slots[s]);
      assert GuardsOf(st', st.slots[s]) == GuardsOf(st, st.slots[s]);
    }
  }

  lemma HeldBy(st: State, g: int)
    requires g in st.guards
    ensures g in GuardsOf(st, st.guards[g].entry)
  {
  }

  lemma GuardNeeded(st: State, st': State, g: int)
    requires Needed(st) && st'.queues == st.queues && g !in st.guards && st'.guards - {g} == st.guards
    requires forall s :: s in st'.slots ==>
               || (s in st.slots && st'.slots[s] == st.slots[s])
               || (g in st'.guards && st'.guards[g].entry == st'.slots[s])
    ensures Needed(st')
  {
    forall s | s in st'.slots ensures Wanted(st', st'.slots[s]) {
      var e := st'.slots[s];
      if s in st.slots && e == st.slots[s] {
        assert Wanted(st, e);
        forall k | k in GuardsOf(st, e) ensures k in GuardsOf(st', e) { assert k in st'.guards - {g}; }
      } else {
        HeldBy(st', g);
      }
    }
  }

  lemma DropKept(st: State, st': State, g: int, s: Slot)
    requires SlotsOk(st) && GuardsOk(st) && Needed(st) && g in st.guards
    requires st'.queues == st.queues && st'.guards == st.guards - {g}
    requires s in st.slots && s in st'.slots && st'.slots[s] == st.slots[s] && s != st.guards[g].slot
    ensures Wanted(st', st'.slots[s])
  {
    assert Wanted(st, st.slots[s]);
    assert GuardOk(st, st.guards[g]);
    assert GuardsOf(st', st.slots[s]) == GuardsOf(st, st.slots[s]);
  }

  /** After a drop that leaves the entry, it is wanted exactly if the test would fail. */
  lemma StillWantedIff(st: State, st': State, g: int)
    requires SlotsOk(st) && GuardsOk(st) && g in st.guards
    requires st'.queues == st.queues && st'.guards == st.guards - {g}
    ensures Wanted(st', st.guards[g].entry) <==> !WouldRemove(st, g)
  {
    var e := st.guards[g].entry;
    assert GuardOk(st, st.guards[g]);
    HeldBy(st, g);
    assert GuardsOf(st', e) == GuardsOf(st, e) - {g};
    assert Stored(st, e) && |GuardsOf(st', e)| == |GuardsOf(st, e)| - 1;
  }

  lemma DropGuardNeeded(st: State, g: int)
    requires SlotsOk(st) && GuardsOk(st) && Needed(st) && g in st.guards
    ensures Needed(DropGuard(st, g))
  {
    hide SlotsOk;
    hide Wanted;
    hide WouldRemove;
    var st' := DropGuard(st, g);
    assert GuardOk(st, st.guards[g]);
    StillWantedIff(st, st', g);
    forall s | s in st'.slots ensures Wanted(st', st'.slots[s]) {
      if s != st.guards[g].slot { DropKept(st, st', g, s); }
    }
  }

  lemma MoveNeeded(st: State, a: Where, n: nat, b: Where)
    requires Needed(st) && n <= |At(st.queues, a)| && (a.Queue? ==> GuardsOf(st, a.entry) != {})
    ensures Needed(MoveWaiters(st, a, n, b))
  {
    HeldWanted(st, MoveWaiters(st, a, n, b));
  }

  lemma TableNeeded(st: State, step: Step, st': State)
    requires Needed(st) && Next(st, step, st')
    requires step.StepProcess? || step.StepAcquire? || step.StepLeave? || step.StepDropHandle?
    ensures Needed(st')
  {
    hide Needed;
    hide GuardsOf;
    hide Acquire;
    if step.StepAcquire? { AcquireFrame(st, step.owner, step.handle, step.table); }
    HeldWanted(st, st');
  }

  lemma HolderNeeded(st: State, step: Step, st': State)
    requires Needed(st) && Next(st, step, st')
    requires step.StepGet? || step.StepInsert?
    ensures Needed(st')
  {
    hide Needed;
    GuardNeeded(st, st', step.guard);
  }

  lemma QueueNeeded(st: State, step: Step, st': State)
    requires Needed(st) && Next(st, step, st')
    requires step.StepWait? || step.StepWake?
    ensures Needed(st')
  {
    hide Needed;
    hide GuardsOf;
    hide Wake;
    HeldBy(st, step.guard);
    HeldWanted(st, st');
  }

  lemma NextNeeded(st: State, step: Step, st': State)
    requires SlotsOk(st) && GuardsOk(st) && Needed(st) && Next(st, step, st')
    ensures Needed(st')
  {
    hide SlotsOk;
    hide GuardsOk;
    hide Needed;
    hide GuardsOf;
    hide DropGuard;
    hide MoveWaiters;
    match step
    case StepDrain(g, target, count) =>
      HeldBy(st, g);
      MoveNeeded(st, Queue(st.guards[g].entry), Min(count, |At(st.queues, Queue(st.guards[g].entry))|), Flight(target));
    case StepExtend(target) =>
      MoveNeeded(st, Flight(target), |At(st.queues, Flight(target))|, Queue(st.guards[target].entry));
    case StepDropGuard(g) => DropGuardNeeded(st, g);
    case _ =>
      hide Next;
      if step.StepGet? || step.StepInsert? { HolderNeeded(st, step, st'); }
      else if step.StepWait? || step.StepWake? { QueueNeeded(st, step, st'); }
      else { TableNeeded(st, step, st'); }
  }

  /** In every state of every run a stored entry has a live guard or somebody in its queue. */
  lemma {:induction false} RunNeeded(states: seq<State>, steps: seq<Step>, n: nat)
    requires Run(states, steps) && n < |states|
    ensures Needed(states[n])
  {
    hide Next;
    if n > 0 {
      RunNeeded(states, steps, n - 1);
      RunReachable(states, steps, n - 1);
      NextNeeded(states[n - 1], steps[n - 1], states[n]);
    }
  }

  /** Looking up the key after a guard drop finds the entry if another guard holds it or
      somebody is queued on it, and otherwise nothing. */
  lemma DropGuardForgets(st: State, g: int)
    requires Inv(st) && g in st.guards
    ensures var guard := st.guards[g];
            && guard.slot.table in st.owners
            && Lookup(DropGuard(st, g), st.owners[guard.slot.table], guard.slot.key) ==
               if (exists g' :: g' in st.guards && g' != g && st.guards[g'].entry == guard.entry)
                  || At(st.queues, Queue(guard.entry)) != []
               then Some(guard.entry) else None
  {
    hide Placed;
    hide Located;
    var guard, st' := st.guards[g], DropGuard(st, g);
    assert GuardOk(st, guard) && Registered(st, guard.slot.table);
    StillWantedIff(st, st', g);
    var others := GuardsOf(st', guard.entry);
    if k :| k in others {
      assert k in st.guards && k != g;
    } else {
      forall k | k in st.guards && k != g ensures st.guards[k].entry != guard.entry {
        assert k in st'.guards && k !in others;
      }
    }
    assert Slot(guard.slot.table, guard.slot.key) == guard.slot;
  }

  // ------------------------------------------------ the guard's two lock sections

  /** The removal alone, when other steps may have come after the test. */
  function RemoveLate(st: State, g: int): State
    requires g in st.guards
  {
    st.(guards := st.guards - {g}, slots := st.slots - {st.guards[g].slot})
  }

  lemma LoneGuard(st: State, g: int)
    requires g in st.guards
    requires forall k :: k in st.guards && st.guards[k].entry == st.guards[g].entry ==> k == g
    ensures StrongCount(st, st.guards[g].entry) <= 2
  {
    var held := GuardsOf(st, st.guards[g].entry);
    forall k | k in held ensures k in {g} { assert k in st.guards; }
    SubsetSize(held, {g});
  }

  lemma RemoveLateBreaks(st: State, g: int)
    requires Inv(st) && g in st.guards && !WouldRemove(st, g)
    ensures !Inv(RemoveLate(st, g))
  {
    hide Placed;
    hide Located;
    hide RegistryOk;
    hide HandlesOk;
    hide Registered;
    var st', guard := RemoveLate(st, g), st.guards[g];
    assert GuardOk(st, guard);
    if At(st.queues, Queue(guard.entry)) != [] {
      assert !Stored(st', guard.entry);
    } else if g' :| g' in st.guards && g' != g && st.guards[g'].entry == guard.entry {
      assert GuardOk(st, st.guards[g']);
      assert g' in st'.guards && !GuardOk(st', st'.guards[g']);
    } else {
      LoneGuard(st, g);
    }
  }

  /** A removal keeps tables, guards and queues consistent exactly when its test would
      still pass at that moment. */
  lemma RemoveLateKeeps(st: State, g: int)
    requires Inv(st) && g in st.guards && At(st.queues, Flight(g)) == []
    ensures Inv(RemoveLate(st, g)) <==> WouldRemove(st, g)
  {
    if WouldRemove(st, g) {
      DropGuardInv(st, g);
      assert DropGuard(st, g) == RemoveLate(st, g);
    } else {
      RemoveLateBreaks(st, g);
    }
  }

  /** A drop that removes nothing, when other steps may have come after the test. */
  function KeepLate(st: State, g: int): State {
    st.(guards := st.guards - {g})
  }

  lemma KeepLateInv(st: State, g: int)
    requires Inv(st) && g in st.guards && At(st.queues, Flight(g)) == []
    ensures Inv(KeepLate(st, g))
  {
    hide Placed;
    hide Located;
    var st' := KeepLate(st, g);
    FewerSlots(st, st');
    hide Registered;
    assert forall e :: Stored(st, e) == Stored(st', e);
    forall k | k in st'.guards ensures GuardOk(st', st'.guards[k]) { assert GuardOk(st, st.guards[k]); }
  }

  /** A step of the protocol, or a guard drop that tested some time ago, and then removes
      the entry or keeps it. */
  datatype LateStep = Whole(step: Step) | Remove(guard: int) | Keep(guard: int)

  ghost predicate LateNext(st: State, late: LateStep, st': State) {
    match late
    case Whole(step) => Next(st, step, st')
    case Remove(g) => g in st.guards && At(st.queues, Flight(g)) == [] && st' == RemoveLate(st, g)
    case Keep(g) => g in st.guards && At(st.queues, Flight(g)) == [] && st' == KeepLate(st, g)
  }

  ghost predicate LateRun(states: seq<State>, steps: seq<LateStep>) {
    && |states| == |steps| + 1 && states[0] == INITIAL
    && forall k :: 0 <= k < |steps| ==> LateNext(states[k], steps[k], states[k + 1])
  }

  /** The test of the removal at step `k`, if it is one, still passes. */
  predicate Timely(st: State, late: LateStep) {
    late.Remove? ==> late.guard in st.guards && WouldRemove(st, late.guard)
  }

  lemma LateNextInv(st: State, late: LateStep, st': State)
    requires Inv(st) && LateNext(st, late, st')
    ensures Inv(st') <==> Timely(st, late)
  {
    hide Inv;
    match late
    case Whole(step) => NextInv(st, step, st');
    case Remove(g) => RemoveLateKeeps(st, g);
    case Keep(g) => KeepLateInv(st, g);
  }

  lemma {:induction false} LateInv(states: seq<State>, steps: seq<LateStep>, n: nat)
    requires LateRun(states, steps) && n < |states|
    requires forall k :: 0 <= k < n ==> Timely(states[k], steps[k])
    ensures Inv(states[n])
  {
    hide LateNext;
    hide Timely;
    if n > 0 {
      LateInv(states, steps, n - 1);
      LateNextInv(states[n - 1], steps[n - 1], states[n]);
    }
  }

  /** With the test and the removal of a guard drop taken apart, a run stays consistent
      throughout exactly when every removal comes while its test still passes. */
  lemma LateRunIff(states: seq<State>, steps: seq<LateStep>)
    requires LateRun(states, steps)
    ensures (forall n :: 0 <= n < |states| ==> Inv(states[n])) <==>
            (forall k :: 0 <= k < |steps| ==> Timely(states[k], steps[k]))
  {
    hide Inv;
    hide LateNext;
    hide Timely;
    if forall k :: 0 <= k < |steps| ==> Timely(states[k], steps[k]) {
      forall n | 0 <= n < |states| ensures Inv(states[n]) { LateInv(states, steps, n); }
    }
    if forall n :: 0 <= n < |states| ==> Inv(states[n]) {
      forall k | 0 <= k < |steps| ensures Timely(states[k], steps[k]) {
        LateNextInv(states[k], steps[k], states[k + 1]);
      }
    }
  }

  /** The outcome of the test at step `k`, if it was made before, is still right. */
  predicate Punctual(st: State, late: LateStep) {
    Timely(st, late) && (late.Keep? ==> late.guard in st.guards && !WouldRemove(st, late.guard))
  }

  lemma KeepNeededIff(st: State, g: int)
    requires Inv(st) && Needed(st) && g in st.guards
    ensures Needed(KeepLate(st, g)) <==> !WouldRemove(st, g)
  {
    hide Placed;
    hide Located;
    hide Wanted;
    hide WouldRemove;
    var st' := KeepLate(st, g);
    assert GuardOk(st, st.guards[g]);
    StillWantedIff(st, st', g);
    forall s | s in st'.slots && s != st.guards[g].slot ensures Wanted(st', st'.slots[s]) { DropKept(st, st', g, s); }
  }

  lemma LateNextNeeded(st: State, late: LateStep, st': State)
    requires Inv(st) && Needed(st) && LateNext(st, late, st')
    ensures Inv(st') && Needed(st') <==> Punctual(st, late)
  {
    LateNextInv(st, late, st');
    hide Placed;
    hide Located;
    hide RegistryOk;
    hide SlotsOk;
    hide HandlesOk;
    hide QueuesOk;
    hide Needed;
    match late {
      case Whole(step) => NextNeeded(st, step, st');
      case Remove(g) =>
        if WouldRemove(st, g) {
          DropGuardNeeded(st, g);
          assert DropGuard(st, g) == RemoveLate(st, g);
        }
      case Keep(g) => KeepNeededIff(st, g);
    }
  }

  lemma {:induction false} LateNeeded(states: seq<State>, steps: seq<LateStep>, n: nat)
    requires LateRun(states, steps) && n < |states|
    requires forall k :: 0 <= k < n ==> Punctual(states[k], steps[k])
    ensures Inv(states[n]) && Needed(states[n])
  {
    hide LateNext;
    hide Punctual;
    if n > 0 {
      LateNeeded(states, steps, n - 1);
      LateNextNeeded(states[n - 1], steps[n - 1], states[n]);
    }
  }

  /** With the test and the drop taken apart, a run stays consistent and keeps no entry in
      vain throughout exactly when every drop comes while its test still has the outcome
      it had. */
  lemma LateNeededIff(states: seq<State>, steps: seq<LateStep>)
    requires LateRun(states, steps)
    ensures (forall n :: 0 <= n < |states| ==> Inv(states[n]) && Needed(states[n])) <==>
            (forall k :: 0 <= k < |steps| ==> Punctual(states[k], steps[k]))
  {
    hide Inv;
    hide Needed;
    hide LateNext;
    hide Punctual;
    if forall k :: 0 <= k < |steps| ==> Punctual(states[k], steps[k]) {
      forall n | 0 <= n < |states| ensures Inv(states[n]) && Needed(states[n]) { LateNeeded(states, steps, n); }
    }
    if forall n :: 0 <= n < |states| ==> Inv(states[n]) && Needed(states[n]) {
      forall k | 0 <= k < |steps| ensures Punctual(states[k], steps[k]) {
        assert Inv(states[k + 1]) && Needed(states[k + 1]);
        LateNextNeeded(states[k], steps[k], states[k + 1]);
      }
    }
  }

  /** For callers: if every removal is timely, every blocked task is reachable throughout. */
  lemma LateReachable(states: seq<State>, steps: seq<LateStep>, n: nat, t: int)
    requires LateRun(states, steps) && n < |states| && t in states[n].blocked
    requires forall k :: 0 <= k < n ==> Timely(states[k], steps[k])
    ensures Reachable(states[n], t)
  {
    hide LateRun;
    hide Timely;
    hide Inv;
    LateInv(states, steps, n);
    BlockedReachable(states[n], t);
  }

  /** A removal whose test is out of date strands a task exactly when a blocked task
      is by then queued on the entry, or on its way there. */
  lemma RemoveLateStrands(st: State, g: int, t: int)
    requires Inv(st) && g in st.guards && t in st.blocked
    ensures Reachable(RemoveLate(st, g), t) <==>
            match st.place[st.blocked[t]]
            case Queue(e) => e != st.guards[g].entry
            case Flight(g') => g' != g && g' in st.guards && st.guards[g'].entry != st.guards[g].entry
  {
  }

  /** That happens: a thread's test passes, a second thread then finds the entry and
      blocks on it, and the first thread's removal leaves it out of reach. */
  lemma GuardDropRace() returns (states: seq<State>, steps: seq<Step>)
    ensures Run(states, steps) && |states| == 7
    ensures 0 in states[3].guards && WouldRemove(states[3], 0)
    ensures 0 in states[6].guards && 1 in states[6].blocked && !Reachable(RemoveLate(states[6], 0), 1)
  {
    hide Inv;
    hide Reachable;
    hide WouldRemove;
    states, steps := TwoGuards();
    var s6 := Wait(states[5], 1, 1, ALL);
    assert Next(states[5], StepWait(1, 1, ALL), s6);
    RunMore(states, steps, StepWait(1, 1, ALL), s6);
    states, steps := states + [s6], steps + [StepWait(1, 1, ALL)];
    hide Run;
    RunReachable(states, steps, 6);
    RemoveLateStrands(s6, 0, 1);
  }

  lemma FirstWaits(st: State)
    requires st == TWO.(queues := map[Queue(0) := [Waiter(1, 0, ALL)]], blocked := map[1 := 0],
                        place := map[0 := Queue(0)], next := 1)
    ensures Next(TWO, StepWait(0, 1, ALL), st)
  {
    var none: seq<Waiter> := [];
    assert none + [Waiter(1, 0, ALL)] == [Waiter(1, 0, ALL)];
  }

  lemma SecondWaits(st: State, st': State)
    requires 1 in st.guards && st.guards[1].entry == 0 && st.queues == map[Queue(0) := [Waiter(1, 0, ALL)]]
    requires st.blocked == map[] && st.place == map[0 := Queue(0)] && st.next == 1
    requires st' == st.(queues := map[Queue(0) := [Waiter(1, 0, ALL), Waiter(2, 1, ALL)]], blocked := map[2 := 1],
                        place := map[0 := Queue(0), 1 := Queue(0)], next := 2)
    ensures Next(st, StepWait(1, 2, ALL), st')
  {
    assert [Waiter(1, 0, ALL)] + [Waiter(2, 1, ALL)] == [Waiter(1, 0, ALL), Waiter(2, 1, ALL)];
  }

  lemma OneWoken(st: State, st': State)
    requires 0 in st.guards && st.guards[0].entry == 0 && st.blocked == map[2 := 1]
    requires st.queues == map[Queue(0) := [Waiter(1, 0, ALL), Waiter(2, 1, ALL)]]
    requires st' == st.(queues := map[Queue(0) := [Waiter(2, 1, ALL)]])
    ensures Next(st, StepWake(0, 1, ALL), st')
  {
    var w1, w2 := Waiter(1, 0, ALL), Waiter(2, 1, ALL);
    WakeFront([w1, w2], 1, ALL);
    hide Wake;
    assert [w1, w2][..1] == [w1] && [w1, w2][1..] == [w2];
    assert Tasks([w1]) == {1};
  }

  lemma RunMore(states: seq<State>, steps: seq<Step>, step: Step, st: State)
    requires Run(states, steps) && Next(states[|steps|], step, st)
    ensures Run(states + [st], steps + [step])
  {
    hide Next;
    var all, more := states + [st], steps + [step];
    forall k | 0 <= k < |more| ensures Next(all[k], more[k], all[k + 1]) {
      if k < |steps| { assert all[k] == states[k] && all[k + 1] == states[k + 1] && more[k] == steps[k]; }
    }
  }

  /** Two guards on the entry of key 7 in the table of process 0, with nobody waiting. */
  const TWO := State(
    map[], map[], 0, map[Slot(0, 7) := 0], map[0 := 0], Tables(map[], 0), map[0 := 0, 1 := 0],
    map[0 := Guard(0, Slot(0, 7), 0), 1 := Guard(1, Slot(0, 7), 0)], map[0 := Slot(0, 7)], map[0 := Process(0)], map[])

  /** The first guard's test would pass before the second guard is taken. */
  lemma TwoGuards() returns (states: seq<State>, steps: seq<Step>)
    ensures Run(states, steps) && |states| == 6 && states[5] == TWO
    ensures 0 in states[3].guards && WouldRemove(states[3], 0)
  {
    var s1 := NewProcess(INITIAL, 0, 0);
    var s2 := Acquire(s1, Process(0), 0, 1);
    var s3 := Insert(s2, 0, 7, 0, 0);
    var s4 := Acquire(s3, Process(0), 1, 1);
    var s5 := Get(s4, 1, 7, 1);
    states := [INITIAL, s1, s2, s3, s4, s5];
    steps := [StepProcess(0, 0), StepAcquire(Process(0), 0, 1), StepInsert(0, 7, 0, 0),
              StepAcquire(Process(0), 1, 1), StepGet(1, 7, 1)];
    assert GuardsOf(s3, 0) == {0};
    forall k | 0 <= k < |steps| ensures Next(states[k], steps[k], states[k + 1]) { }
  }

  /** An untimely removal need not strand anybody at once: here nobody is blocked when it
      comes, but another guard has been taken, and whoever waits through that guard
      afterwards is out of reach. */
  lemma LaterStranded() returns (states: seq<State>, steps: seq<LateStep>)
    ensures LateRun(states, steps) && |states| == 8 && steps[5] == Remove(0)
    ensures states[5].blocked == states[6].blocked == map[]
    ensures 1 in states[7].blocked && !Reachable(states[7], 1)
  {
    hide Reachable;
    var before, steps0 := TwoGuards();
    var s6, s7 := RemovedThenWaited();
    states := before + [s6, s7];
    steps := seq(5, k requires 0 <= k < 5 => Whole(steps0[k])) + [Remove(0), Whole(StepWait(1, 1, ALL))];
    hide Next;
    hide Found;
    forall k | 0 <= k < 7 ensures LateNext(states[k], steps[k], states[k + 1]) {
      if k < 5 { assert Next(before[k], steps0[k], before[k + 1]); }
    }
    OnlyQueue(s7, Waiter(1, 0, ALL));
  }

  lemma RemovedThenWaited() returns (s6: State, s7: State)
    ensures LateNext(TWO, Remove(0), s6) && Next(s6, StepWait(1, 1, ALL), s7)
    ensures s6.blocked == map[] && s7.blocked == map[1 := 0]
    ensures s7.queues == map[Queue(0) := [Waiter(1, 0, ALL)]] && !Found(s7, 0)
  {
    s6 := RemoveLate(TWO, 0);
    s7 := Wait(s6, 1, 1, ALL);
    assert s6.guards == map[1 := Guard(1, Slot(0, 7), 0)] && s6.slots == map[];
    var none: seq<Waiter> := [];
    assert none + [Waiter(1, 0, ALL)] == [Waiter(1, 0, ALL)];
    assert At(s6.queues, Queue(0)) == none;
  }

  /** With one queue that its entry's key does not lead to, its waiter is out of reach. */
  lemma OnlyQueue(st: State, w: Waiter)
    requires st.queues == map[Queue(0) := [w]] && st.blocked == map[w.task := w.ticket] && !Found(st, 0)
    ensures !Reachable(st, w.task)
  {
    forall a | a != Queue(0) ensures At(st.queues, a) == [] { }
  }

  lemma BothKept() returns (s6: State, s7: State)
    ensures LateNext(TWO, Keep(0), s6) && LateNext(s6, Keep(1), s7)
    ensures 0 in TWO.guards && !WouldRemove(TWO, 0) && 1 in TWO.guards && !WouldRemove(TWO, 1)
    ensures s7.guards == map[] && s7.queues == map[] && Lookup(s7, Process(0), 7) == Some(0)
  {
    s6 := KeepLate(TWO, 0);
    s7 := KeepLate(s6, 1);
    assert GuardsOf(TWO, 0) == {0, 1};
  }

  /** Two guards on one entry are dropped at once: both tests see the other guard, so
      neither removes the entry, and it stays with no guard and nobody waiting. */
  lemma LeftBehind() returns (states: seq<State>, steps: seq<LateStep>)
    ensures LateRun(states, steps) && |states| == 8 && steps[5] == Keep(0) && steps[6] == Keep(1)
    ensures 0 in states[5].guards && !WouldRemove(states[5], 0) && 1 in states[5].guards && !WouldRemove(states[5], 1)
    ensures states[7].guards == map[] && states[7].queues == map[] && Lookup(states[7], Process(0), 7) == Some(0)
  {
    var before, steps0 := TwoGuards();
    var s6, s7 := BothKept();
    states := before + [s6, s7];
    steps := seq(5, k requires 0 <= k < 5 => Whole(steps0[k])) + [Keep(0), Keep(1)];
    hide Next;
    hide KeepLate;
    hide TWO;
    hide WouldRemove;
    forall k | 0 <= k < 7 ensures LateNext(states[k], steps[k], states[k + 1]) {
      if k < 5 { assert Next(before[k], steps0[k], before[k + 1]); }
    }
  }

  // ------------------------------------------------------------ who is woken and moved

  /** Waking unblocks exactly the tasks with an entry that the wake reaches. */
  lemma WakeUnblocks(st: State, g: int, count: nat, mask: bv32, t: int)
    requires g in st.guards
    ensures var q, blocked := At(st.queues, Queue(st.guards[g].entry)), WakeUp(st, g, count, mask).blocked;
            && (t in blocked <==> t in st.blocked && !exists i :: Due(q, i, count, mask) && q[i].task == t)
            && (t in blocked ==> blocked[t] == st.blocked[t])
  {
    var q := At(st.queues, Queue(st.guards[g].entry));
    hide Wake;
    hide Due;
    forall w ensures w in Wake(q, count, mask).0 <==> exists i :: Due(q, i, count, mask) && q[i] == w {
      WokenIff(q, count, mask, w);
    }
    if i :| Due(q, i, count, mask) && q[i].task == t { assert q[i] in Wake(q, count, mask).0; }
  }

  /** No task has two of the entries. */
  ghost predicate OwnTasks(q: seq<Waiter>) {
    forall i, j :: 0 <= i < j < |q| ==> q[i].task != q[j].task
  }

  lemma {:induction false} TasksSize(q: seq<Waiter>)
    ensures |Tasks(q)| <= |q| && (|Tasks(q)| == |q| <==> OwnTasks(q))
  {
    if q != [] {
      TasksSize(q[1..]);
      FirstTask(q);
      assert Tasks(q) == {q[0].task} + Tasks(q[1..]) by { assert q == [q[0]] + q[1..]; }
      hide OwnTasks;
      hide Tasks;
    }
  }

  lemma FirstTask(q: seq<Waiter>)
    requires q != []
    ensures OwnTasks(q) <==> OwnTasks(q[1..]) && q[0].task !in Tasks(q[1..])
  {
    if OwnTasks(q) {
      forall w | w in q[1..] ensures w.task != q[0].task { var j :| 0 <= j < |q[1..]| && q[1..][j] == w; }
    }
    if OwnTasks(q[1..]) && q[0].task !in Tasks(q[1..]) {
      forall i, j | 0 <= i < j < |q| ensures q[i].task != q[j].task {
        assert q[j] == q[1..][j - 1] && q[j] in q[1..];
        if i > 0 { assert q[i] == q[1..][i - 1]; }
      }
    }
  }

  /** A wake unblocks as many tasks as it counts exactly if the entries it takes belong to
      different tasks, all of them blocked: the entry of a wait that has timed out is
      counted all the same. */
  lemma WakeExactIff(st: State, g: int, count: nat, mask: bv32)
    requires g in st.guards
    ensures var woken := Wake(At(st.queues, Queue(st.guards[g].entry)), count, mask).0;
            |WakeUp(st, g, count, mask).blocked| == |st.blocked| - |woken| <==>
            OwnTasks(woken) && forall w :: w in woken ==> w.task in st.blocked
  {
    var woken := Wake(At(st.queues, Queue(st.guards[g].entry)), count, mask).0;
    TasksSize(woken);
    hide Wake;
    Subtracted(st.blocked, Tasks(woken));
    assert (forall w :: w in woken ==> w.task in st.blocked) <==> Tasks(woken) <= st.blocked.Keys;
    hide Tasks;
    hide OwnTasks;
  }

  lemma Subtracted(m: map<int, int>, ks: set<int>)
    ensures |m - ks| >= |m| - |ks| && (|m - ks| == |m| - |ks| <==> ks <= m.Keys)
  {
    SplitSize(m.Keys, ks);
    SplitSize(ks, m.Keys);
    assert (m - ks).Keys == m.Keys - ks && ks * m.Keys == m.Keys * ks;
    assert |m - ks| == |(m - ks).Keys|;
  }

  lemma SplitSize(a: set<int>, b: set<int>)
    ensures |a| == |a * b| + |a - b| && (|a - b| == 0 <==> a <= b)
  {
    assert a == a * b + (a - b);
    assert a <= b <==> a - b == {};
  }

  lemma StaleSteps() returns (s6: State, s7: State, s8: State, s9: State)
    ensures Next(TWO, StepWait(0, 1, ALL), s6) && Next(s6, StepLeave(1), s7)
    ensures Next(s7, StepWait(1, 2, ALL), s8) && Next(s8, StepWake(0, 1, ALL), s9)
    ensures s8.blocked == map[2 := 1] == s9.blocked
    ensures s8.queues == map[Queue(0) := [Waiter(1, 0, ALL), Waiter(2, 1, ALL)]]
    ensures s9.queues == map[Queue(0) := [Waiter(2, 1, ALL)]]
  {
    var w1, w2 := Waiter(1, 0, ALL), Waiter(2, 1, ALL);
    s6 := TWO.(queues := map[Queue(0) := [w1]], blocked := map[1 := 0], place := map[0 := Queue(0)], next := 1);
    s7 := s6.(blocked := map[]);
    s8 := s7.(queues := map[Queue(0) := [w1, w2]], blocked := map[2 := 1],
              place := map[0 := Queue(0), 1 := Queue(0)], next := 2);
    s9 := s8.(queues := map[Queue(0) := [w2]]);
    assert Next(s6, StepLeave(1), s7);
    hide Next;
    FirstWaits(s6);
    SecondWaits(s7, s8);
    OneWoken(s8, s9);
  }

  /** That happens: task 1's wait times out, task 2 waits on the same entry, and a wake of
      one takes the entry of task 1 and leaves task 2 blocked. */
  lemma StaleAbsorbs() returns (states: seq<State>, steps: seq<Step>)
    ensures Run(states, steps) && |states| == 10 && steps[8] == StepWake(0, 1, ALL)
    ensures states[8].blocked == map[2 := 1] == states[9].blocked
    ensures At(states[8].queues, Queue(0)) == [Waiter(1, 0, ALL), Waiter(2, 1, ALL)]
    ensures At(states[9].queues, Queue(0)) == [Waiter(2, 1, ALL)]
  {
    hide Next;
    hide TWO;
    hide WouldRemove;
    var before, steps0 := TwoGuards();
    var s6, s7, s8, s9 := StaleSteps();
    states := before + [s6, s7, s8, s9];
    steps := steps0 + [StepWait(0, 1, ALL), StepLeave(1), StepWait(1, 2, ALL), StepWake(0, 1, ALL)];
    forall k | 0 <= k < |steps| ensures Next(states[k], steps[k], states[k + 1]) {
      if k < 5 { assert Next(before[k], steps0[k], before[k + 1]); }
    }
  }

  lemma ShiftAt(qs: Queues, a: Where, n: nat, b: Where, c: Where)
    requires n <= |At(qs, a)| && a != b
    ensures At(Shift(qs, a, n, b), c) ==
            if c == b then At(qs, b) + At(qs, a)[..n] else if c == a then At(qs, a)[n..] else At(qs, c)
  {
  }

  /** Moving a prefix by way of an empty place. */
  lemma ThereAndOn(qs: Queues, a: Where, n: nat, f: Where, b: Where, c: Where)
    requires n <= |At(qs, a)| && f != a && f != b && At(qs, f) == []
    ensures var qs1 := Shift(qs, a, n, f);
            At(Shift(qs1, f, |At(qs1, f)|, b), c) ==
            if c == f then []
            else (if c == a then At(qs, a)[n..] else At(qs, c)) + (if c == b then At(qs, a)[..n] else [])
  {
    var qs1 := Shift(qs, a, n, f);
    ShiftAt(qs, a, n, f, c);
    ShiftAt(qs, a, n, f, f);
    ShiftAt(qs, a, n, f, b);
    ShiftAt(qs1, f, |At(qs1, f)|, b, c);
    hide Shift;
    hide At;
  }

  lemma MovedOn(st: State, g: int, target: int, count: nat, c: Where)
    requires g in st.guards && target in st.guards && At(st.queues, Flight(target)) == []
    ensures var q, st' := At(st.queues, Queue(st.guards[g].entry)), Extend(Drain(st, g, target, count), target);
            var n := Min(count, |q|);
            && At(st'.queues, c) ==
               (if c == Flight(target) then []
                else (if c == Queue(st.guards[g].entry) then q[n..] else At(st.queues, c))
                     + (if c == Queue(st.guards[target].entry) then q[..n] else []))
            && st'.blocked == st.blocked
  {
    var a, b := Queue(st.guards[g].entry), Queue(st.guards[target].entry);
    ThereAndOn(st.queues, a, Min(count, |At(st.queues, a)|), Flight(target), b, c);
    hide Shift;
    hide Moved;
    hide At;
  }

  lemma WakeAt(st: State, g: int, count: nat, mask: bv32, c: Where)
    requires g in st.guards
    ensures var a, st' := Queue(st.guards[g].entry), WakeUp(st, g, count, mask);
            && At(st'.queues, c) == (if c == a then Wake(At(st.queues, a), count, mask).1 else At(st.queues, c))
            && st'.blocked == st.blocked - Tasks(Wake(At(st.queues, a), count, mask).0) && st'.guards == st.guards
  {
    hide Wake;
  }

  /** The queues after a requeue that nothing interrupts: the wake, and, if its quota was
      filled, the drain and the extension. */
  function Requeuing(st: State, g: int, target: int, value: nat, value2: nat): State
    requires g in st.guards && target in st.guards
  {
    var st1 := WakeUp(st, g, value, ALL);
    if |Wake(At(st.queues, Queue(st.guards[g].entry)), value, ALL).0| == value
    then Extend(Drain(st1, g, target, value2), target) else st1
  }

  /** They wake and move what the two queues alone say, and touch no other queue. */
  lemma RequeueSteps(st: State, g: int, target: int, value: nat, value2: nat, c: Where)
    requires g in st.guards && target in st.guards && At(st.queues, Flight(target)) == []
    ensures var a, b := Queue(st.guards[g].entry), Queue(st.guards[target].entry);
            var r, st' := Requeue(At(st.queues, a), At(st.queues, b), a == b, value, value2),
                          Requeuing(st, g, target, value, value2);
            && At(st'.queues, c) == (if c == a then r.src else if c == b then r.dst else At(st.queues, c))
            && st'.blocked == st.blocked - Tasks(r.woken)
  {
    var a, st1 := Queue(st.guards[g].entry), WakeUp(st, g, value, ALL);
    hide Wake;
    hide WakeUp;
    hide At;
    WakeAt(st, g, value, ALL, a);
    WakeAt(st, g, value, ALL, c);
    WakeAt(st, g, value, ALL, Flight(target));
    hide Extend;
    hide Drain;
    MovedOn(st1, g, target, value2, c);
  }

  // ---------------------------------------------------------------------- sweeping

  /** How many of the steps fetched the table of a shared region. */
  function Fetches(steps: seq<Step>): nat {
    if steps == [] then 0
    else Fetches(steps[..|steps| - 1]) +
         if steps[|steps| - 1].StepAcquire? && steps[|steps| - 1].owner.Region? then 1 else 0
  }

  /** What a step does to the registry of shared tables. */
  lemma NextRegions(st: State, step: Step, st': State)
    requires Next(st, step, st')
    ensures if step.StepAcquire? && step.owner.Region?
            then st'.shared == GetOrInsertTable(st.shared, InUse(st), step.owner.ptr, step.table).0
            else st'.shared == st.shared
  {
    hide GetOrInsertTable;
    hide InUse;
    hide Wake;
    hide WouldRemove;
    hide Shift;
    hide Moved;
  }

  lemma {:induction false} RunCounts(states: seq<State>, steps: seq<Step>, n: nat)
    requires Run(states, steps) && n < |states|
    ensures states[n].shared.operations == Fetches(steps[..n]) % 100
  {
    hide Next;
    if n > 0 {
      RunCounts(states, steps, n - 1);
      assert steps[..n][..n - 1] == steps[..n - 1];
      NextRegions(states[n - 1], steps[n - 1], states[n]);
    }
  }

  /** A running call has the table, or an entry in it is wanted. */
  ghost predicate Busy(st: State, t: int) {
    || (exists h :: h in st.handles && st.handles[h] == t)
    || (exists s :: s in st.slots && s.table == t && Wanted(st, st.slots[s]))
  }

  /** Dropping a handle frees its table of it: the table stays busy exactly if another handle
      has it or an entry in it is wanted. */
  lemma DropHandleBusyIff(st: State, h: int, t: int)
    ensures Busy(DropHandle(st, h), t) <==>
            || (exists k :: k in st.handles && k != h && st.handles[k] == t)
            || (exists s :: s in st.slots && s.table == t && Wanted(st, st.slots[s]))
  {
    var st' := DropHandle(st, h);
    assert forall e :: Wanted(st', e) == Wanted(st, e) by {
      forall e ensures Wanted(st', e) == Wanted(st, e) { assert GuardsOf(st', e) == GuardsOf(st, e); }
    }
    hide Wanted;
    if k :| k in st.handles && k != h && st.handles[k] == t { assert k in st'.handles; }
    if k :| k in st'.handles && st'.handles[k] == t { assert k in st.handles && k != h; }
  }

  lemma BusyIff(st: State, t: int)
    requires Needed(st)
    ensures Busy(st, t) <==> t in InUse(st)
  {
    if t in InUse(st) && !(exists h :: h in st.handles && st.handles[h] == t) {
      var s :| s in st.slots && s.table == t;
      assert Wanted(st, st.slots[s]);
    }
  }

  lemma FetchesNext(steps: seq<Step>, n: nat)
    requires n < |steps|
    ensures Fetches(steps[..n + 1]) ==
            Fetches(steps[..n]) + if steps[n].StepAcquire? && steps[n].owner.Region? then 1 else 0
  {
    assert steps[..n + 1][..n] == steps[..n];
  }

  lemma StepSwept(st: State, step: Step, ts: Tables, r: int)
    requires Needed(st) && (step.StepAcquire? ==> step.owner != Region(r))
    requires ts == if step.StepAcquire? && step.owner.Region?
                   then GetOrInsertTable(st.shared, InUse(st), step.owner.ptr, step.table).0 else st.shared
    ensures r in ts.regions <==>
            && r in st.shared.regions
            && (step.StepAcquire? && step.owner.Region? && st.shared.operations == 99 ==>
                  Busy(st, st.shared.regions[r]))
    ensures r in ts.regions ==> ts.regions[r] == st.shared.regions[r]
  {
    hide Needed;
    hide Busy;
    hide InUse;
    if r in st.shared.regions { BusyIff(st, st.shared.regions[r]); }
    if step.StepAcquire? && step.owner.Region? { Swept(st.shared, InUse(st), step.owner.ptr, step.table, r); }
    hide GetOrInsertTable;
  }

  lemma Swept(ts: Tables, inUse: set<int>, ptr: int, spare: int, r: int)
    requires r != ptr
    ensures var after := GetOrInsertTable(ts, inUse, ptr, spare).0.regions;
            && (r in after <==> r in ts.regions && (ts.operations == 99 ==> ts.regions[r] in inUse))
            && (r in after ==> after[r] == ts.regions[r])
  {
  }

  /** In every run each hundredth fetch of a shared table drops exactly the other regions
      whose tables are not busy, and no other step drops any. */
  lemma SweepIff(states: seq<State>, steps: seq<Step>, n: nat, ptr: int)
    requires Run(states, steps) && n < |steps|
    requires steps[n].StepAcquire? ==> steps[n].owner != Region(ptr)
    ensures var before, after := states[n].shared.regions, states[n + 1].shared.regions;
            && (ptr in after <==>
                  && ptr in before
                  && (Fetches(steps[..n + 1]) > Fetches(steps[..n]) && Fetches(steps[..n + 1]) % 100 == 0 ==>
                        Busy(states[n], before[ptr])))
            && (ptr in after ==> after[ptr] == before[ptr])
  {
    hide Next;
    hide Needed;
    hide Busy;
    hide InUse;
    RunCounts(states, steps, n);
    RunNeeded(states, steps, n);
    NextRegions(states[n], steps[n], states[n + 1]);
    FetchesNext(steps, n);
    hide Run;
    hide Fetches;
    StepSwept(states[n], steps[n], states[n + 1].shared, ptr);
  }

  // ---------------------------------------------------------------------- code

  /** The registry of shared tables, as `FutexTables` updates it. */
  class FutexTables {
    var regions: map<int, int>
    var operations: nat

    method GetOrInsertShared(ptr: int, inUse: set<int>, spare: int) returns (t: int)
      modifies this
      ensures (Tables(regions, operations), t) == GetOrInsertTable(old(Tables(regions, operations)), inUse, ptr, spare)
    {
      operations := operations + 1;
      if operations == 100 {
        operations := 0;
        regions := map r | r in regions && regions[r] in inUse :: regions[r];
      }
      if ptr !in regions {
        regions := regions[ptr := spare];
      }
      t := regions[ptr];
    }
  }
}
