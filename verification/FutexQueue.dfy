/** A futex wait queue: who is woken, who is moved to another queue, who stays. */
module FutexQueue {
  import opened Base

  /** One queue entry: the waker of `task`, queued by its wait call `ticket`. */
  datatype Waiter = Waiter(task: int, ticket: int, bits: bv32)

  const ALL: bv32 := 0xFFFF_FFFF

  predicate Matches(w: Waiter, mask: bv32) {
    w.bits & mask != 0
  }

  /** `WaitQueue::wake`: scan from the front, waking up to `count` matching entries.
      Returns (woken, kept). */
  function Wake(q: seq<Waiter>, count: nat, mask: bv32): (seq<Waiter>, seq<Waiter>) {
    if q == [] then ([], [])
    else if count == 0 || !Matches(q[0], mask) then
      var r := Wake(q[1..], count, mask);
      (r.0, [q[0]] + r.1)
    else
      var r := Wake(q[1..], count - 1, mask);
      ([q[0]] + r.0, r.1)
  }

  function Select(q: seq<Waiter>, mask: bv32, hit: bool): seq<Waiter> {
    if q == [] then []
    else (if Matches(q[0], mask) == hit then [q[0]] else []) + Select(q[1..], mask, hit)
  }

  /** Up to some cut every matching entry is woken and the others stay; after the
      cut nothing is touched; and the cut is at the end unless the quota is filled. */
  lemma {:induction false} WakeCut(q: seq<Waiter>, count: nat, mask: bv32) returns (cut: nat)
    ensures cut <= |q|
    ensures Wake(q, count, mask).0 == Select(q[..cut], mask, true)
    ensures Wake(q, count, mask).1 == Select(q[..cut], mask, false) + q[cut..]
    ensures |Wake(q, count, mask).0| == Min(count, |Select(q, mask, true)|)
    ensures |Wake(q, count, mask).0| < count ==> cut == |q|
  {
    if q == [] {
      cut := 0;
    } else if count == 0 {
      cut := 0;
      WakeNone(q, mask);
      assert q[..0] == [] && q[0..] == q;
    } else {
      var c := WakeCut(q[1..], if Matches(q[0], mask) then count - 1 else count, mask);
      cut := c + 1;
      assert q[..cut][1..] == q[1..][..c];
      assert q[cut..] == q[1..][c..];
    }
  }

  lemma {:induction false} WakeNone(q: seq<Waiter>, mask: bv32)
    ensures Wake(q, 0, mask) == ([], q)
  {
    if q != [] {
      WakeNone(q[1..], mask);
      assert q == [q[0]] + q[1..];
    }
  }

  /** A wake reaches entry `i`: it matches, and fewer than `count` before it do. */
  predicate Due(q: seq<Waiter>, i: int, count: nat, mask: bv32) {
    0 <= i < |q| && Matches(q[i], mask) && |Select(q[..i], mask, true)| < count
  }

  lemma DueNext(q: seq<Waiter>, i: nat, count: nat, mask: bv32)
    requires q != [] && count > 0
    ensures Due(q, i + 1, count, mask) == Due(q[1..], i, if Matches(q[0], mask) then count - 1 else count, mask)
  {
    if i < |q[1..]| { assert q[..i + 1][1..] == q[1..][..i]; }
  }

  lemma DueFirst(q: seq<Waiter>, count: nat, mask: bv32)
    requires q != [] && count > 0
    ensures Due(q, 0, count, mask) == Matches(q[0], mask)
  {
  }

  /** The entries that a wake takes are exactly those it reaches. */
  lemma {:induction false} WokenIff(q: seq<Waiter>, count: nat, mask: bv32, w: Waiter)
    ensures w in Wake(q, count, mask).0 <==> exists i :: Due(q, i, count, mask) && q[i] == w
  {
    if count == 0 {
      WakeNone(q, mask);
    } else if q != [] {
      var hit := Matches(q[0], mask);
      var c := if hit then count - 1 else count;
      WokenIff(q[1..], c, mask, w);
      DueFirst(q, count, mask);
      forall i: nat ensures Due(q, i + 1, count, mask) == Due(q[1..], i, c, mask) { DueNext(q, i, count, mask); }
      WokenStep(q, count, c, mask, w);
    }
  }

  lemma WokenStep(q: seq<Waiter>, count: nat, c: nat, mask: bv32, w: Waiter)
    requires q != [] && forall i: nat :: Due(q, i + 1, count, mask) == Due(q[1..], i, c, mask)
    ensures (exists i :: Due(q, i, count, mask) && q[i] == w) <==>
            (Due(q, 0, count, mask) && q[0] == w) || exists i :: Due(q[1..], i, c, mask) && q[1..][i] == w
  {
    hide Select;
    if i :| Due(q, i, count, mask) && q[i] == w && i > 0 {
      assert Due(q, (i - 1) + 1, count, mask);
      assert Due(q[1..], i - 1, c, mask) && q[1..][i - 1] == w;
    }
    if i :| Due(q[1..], i, c, mask) && q[1..][i] == w {
      assert Due(q, i + 1, count, mask) && q[i + 1] == w;
    }
  }

  /** A bitset meets a mask exactly if some bit is in both. */
  lemma MatchesIff(w: Waiter, mask: bv32)
    ensures Matches(w, mask) <==> exists m :: Common(w.bits, mask, m)
  {
    hide Common;
    if Matches(w, mask) {
      LowestBit(w.bits, mask);
    } else if m :| Common(w.bits, mask, m) {
      CommonBit(w.bits, mask, m);
    }
  }

  /** Every entry is woken or kept, exactly once. */
  lemma {:induction false} WakeSplits(q: seq<Waiter>, count: nat, mask: bv32)
    ensures var (woken, kept) := Wake(q, count, mask);
            multiset(woken) + multiset(kept) == multiset(q)
  {
    if q != [] {
      WakeSplits(q[1..], if count == 0 || !Matches(q[0], mask) then count else count - 1, mask);
      assert q == [q[0]] + q[1..];
    }
  }

  // ------------------------------------------------------------------- requeue

  datatype Requeued = Requeued(woken: seq<Waiter>, moved: seq<Waiter>, src: seq<Waiter>, dst: seq<Waiter>)

  /** FUTEX_REQUEUE on two queues, or on one queue given twice: wake up to `value`,
      and only if that quota was filled move up to `value2` of the rest. */
  function Requeue(src: seq<Waiter>, dst: seq<Waiter>, same: bool, value: nat, value2: nat): Requeued {
    var (woken, kept) := Wake(src, value, ALL);
    var n := if |woken| == value then Min(value2, |kept|) else 0;
    var moved, rest := kept[..n], kept[n..];
    if same then Requeued(woken, moved, rest + moved, rest + moved)
    else Requeued(woken, moved, rest, dst + moved)
  }

  /** In terms of the source queue: up to some cut all matching entries are woken.  What
      is left, in its old order, is the line; its first entries go in order to the tail of
      the target, which may be the line itself, and only if the wake quota was filled. */
  lemma RequeueOrder(src: seq<Waiter>, dst: seq<Waiter>, same: bool, value: nat, value2: nat) returns (cut: nat)
    ensures cut <= |src| && (|Select(src, ALL, true)| < value ==> cut == |src|)
    ensures var r := Requeue(src, dst, same, value, value2);
            var line := Select(src[..cut], ALL, false) + src[cut..];
            var n := if |Select(src, ALL, true)| >= value then Min(value2, |line|) else 0;
            && r.woken == Select(src[..cut], ALL, true) && |r.woken| == Min(value, |Select(src, ALL, true)|)
            && r.moved == line[..n]
            && r.src == line[n..] + (if same then line[..n] else [])
            && r.dst == if same then r.src else dst + line[..n]
  {
    cut := WakeCut(src, value, ALL);
  }

  lemma {:induction false} WakeFront(q: seq<Waiter>, count: nat, mask: bv32)
    requires forall w :: w in q ==> Matches(w, mask)
    ensures Wake(q, count, mask).0 == q[..Min(count, |q|)] && Wake(q, count, mask).1 == q[Min(count, |q|)..]
  {
    if count == 0 {
      WakeNone(q, mask);
    } else if q != [] {
      WakeFront(q[1..], count - 1, mask);
    }
  }

  /** When every entry can be woken, the queue is cut in three: the first `value` entries
      are woken, the next `value2` are moved, the rest stays; also on one queue. */
  lemma RequeueCuts(src: seq<Waiter>, dst: seq<Waiter>, same: bool, value: nat, value2: nat)
    requires forall w :: w in src ==> Matches(w, ALL)
    ensures var r := Requeue(src, dst, same, value, value2);
            var a := Min(value, |src|);
            var b := a + Min(value2, |src| - a);
            && r.woken == src[..a] && r.moved == src[a..b]
            && r.src == src[b..] + (if same then src[a..b] else [])
            && r.dst == if same then r.src else dst + src[a..b]
  {
    WakeFront(src, value, ALL);
  }

  /** Every entry of both queues is woken, moved or kept exactly once. */
  lemma RequeueConserves(src: seq<Waiter>, dst: seq<Waiter>, same: bool, value: nat, value2: nat)
    ensures var r := Requeue(src, dst, same, value, value2);
            multiset(r.woken) + multiset(r.src) + (if same then multiset{} else multiset(r.dst)) ==
            multiset(src) + if same then multiset{} else multiset(dst)
  {
    WakeSplits(src, value, ALL);
    hide Wake;
    var kept, r := Wake(src, value, ALL).1, Requeue(src, dst, same, value, value2);
    assert kept == r.moved + kept[|r.moved|..];
  }

  // ---------------------------------------------------------------------- code

  datatype Result = Ok(count: nat) | EAGAIN | EINVAL | EFAULT

  /** Counts from here on are negative as signed numbers, and refused. */
  const LIMIT := 0x8000_0000

  class WaitQueue {
    var queue: seq<Waiter>

    /** The condition is tested and the waiter queued under one lock. */
    method WaitIf(w: Waiter, condition: bool) returns (waits: bool)
      modifies this
      ensures waits == condition
      ensures queue == old(queue) + if condition then [w] else []
    {
      waits := condition;
      if condition {
        queue := queue + [w];
      }
    }

    /** The closure given to `retain`, entry by entry. */
    method WakeUp(count: nat, mask: bv32) returns (woke: nat, ghost woken: seq<Waiter>)
      modifies this
      ensures woken == Wake(old(queue), count, mask).0 && queue == Wake(old(queue), count, mask).1 && woke == |woken|
    {
      woke, woken := 0, [];
      var kept: seq<Waiter> := [];
      assert queue[0..] == queue;
      for i := 0 to |queue|
        invariant queue == old(queue) && woke == |woken| <= count
        invariant Wake(queue, count, mask).0 == woken + Wake(queue[i..], count - woke, mask).0
        invariant Wake(queue, count, mask).1 == kept + Wake(queue[i..], count - woke, mask).1
      {
        assert queue[i..][1..] == queue[i + 1..];
        if woke >= count || !Matches(queue[i], mask) {
          kept := kept + [queue[i]];
        } else {
          woken := woken + [queue[i]];
          woke := woke + 1;
        }
      }
      queue := kept;
    }

    /** Drain from the front, then extend the target, which may be this very queue. */
    method MoveTo(count: nat, target: WaitQueue) returns (n: nat, ghost moved: seq<Waiter>)
      modifies this, target
      ensures n == Min(count, |old(queue)|) && moved == old(queue)[..n]
      ensures target != this ==> queue == old(queue)[n..] && target.queue == old(target.queue) + moved
      ensures target == this ==> queue == old(queue)[n..] + moved
    {
      n := if count <= |queue| then count else |queue|;
      var tasks := queue[..n];
      moved := tasks;
      queue := queue[n..];
      if tasks != [] {
        target.queue := target.queue + tasks;
      }
    }
  }

  /** The FUTEX_REQUEUE and FUTEX_CMP_REQUEUE branches.  `futex` is null if the source key
      has no futex; `word` is None if the futex word cannot be read. */
  method SysRequeue(futex: WaitQueue?, target: WaitQueue, cmp: bool, word: Option<nat>,
                    value: nat, value2: nat, value3: nat)
    returns (r: Result)
    modifies if futex == null then {} else {futex}, target
    ensures r.EINVAL? <==> value >= LIMIT || (value2 >= LIMIT && !(cmp && word != Some(value3)))
    ensures r.EFAULT? <==> value < LIMIT && cmp && word.None?
    ensures r.EAGAIN? <==> value < LIMIT && cmp && word.Some? && word.value != value3
    ensures !r.Ok? || futex == null ==> target.queue == old(target.queue) && (r.Ok? ==> r.count == 0)
    ensures !r.Ok? && futex != null ==> futex.queue == old(futex.queue)
    ensures r.Ok? && futex != null ==>
              var q := Requeue(old(futex.queue), old(target.queue), target == futex, value, value2);
              && futex.queue == q.src && target.queue == q.dst
              && r.count == |q.woken| + |q.moved|
  {
    if value >= LIMIT { return EINVAL; }
    if cmp {
      if word.None? { return EFAULT; }
      if word.value != value3 { return EAGAIN; }
    }
    if value2 >= LIMIT { return EINVAL; }
    var count := 0;
    if futex != null {
      ghost var woken, moved;
      count, woken := futex.WakeUp(value, ALL);
      if count == value {
        var n;
        n, moved := futex.MoveTo(value2, target);
        count := count + n;
      }
    }
    r := Ok(count);
  }
}
