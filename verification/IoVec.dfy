/** The scatter/gather cursor: a list of user buffers, some perhaps empty, read and
    written as if they were one flat buffer.  User memory is a map from the mapped
    addresses to bytes; buffers may overlap. */
module IoVec {
  import opened Base

  datatype Iov = Iov(base: int, len: int)

  type Memory = map<int, Byte>

  const MAX_IOV := 1024
  const USIZE := 0x1_0000_0000_0000_0000

  /** The addresses of one buffer, and of all buffers one after another. */
  function Span(base: int, len: nat): (s: seq<int>)
    ensures |s| == len
  {
    seq(len, i => base + i)
  }

  predicate NonNegative(iovs: seq<Iov>) {
    forall i :: 0 <= i < |iovs| ==> iovs[i].len >= 0
  }

  function Flat(iovs: seq<Iov>): seq<int>
    requires NonNegative(iovs)
  {
    if iovs == [] then [] else Span(iovs[0].base, iovs[0].len) + Flat(iovs[1..])
  }

  lemma {:induction false} FlatJoin(a: seq<Iov>, b: seq<Iov>)
    requires NonNegative(a) && NonNegative(b)
    ensures NonNegative(a + b) && Flat(a + b) == Flat(a) + Flat(b)
  {
    hide Span;
    if a == [] {
      assert a + b == b;
    } else {
      FlatJoin(a[1..], b);
      assert (a + b)[1..] == a[1..] + b;
    }
  }

  lemma FlatOne(v: Iov)
    requires v.len >= 0
    ensures Flat([v]) == Span(v.base, v.len)
  {
    hide Span;
    assert [v][1..] == [];
  }

  /** The buffer at index `k` lies in the flat address list after those before it. */
  lemma FlatSplit(iovs: seq<Iov>, k: nat)
    requires NonNegative(iovs) && k < |iovs|
    ensures Flat(iovs[..k + 1]) == Flat(iovs[..k]) + Span(iovs[k].base, iovs[k].len)
    ensures Flat(iovs) == Flat(iovs[..k + 1]) + Flat(iovs[k + 1..])
  {
    hide Span;
    hide Flat;
    assert iovs[..k + 1] == iovs[..k] + [iovs[k]];
    FlatJoin(iovs[..k], [iovs[k]]);
    FlatOne(iovs[k]);
    assert iovs == iovs[..k + 1] + iovs[k + 1..];
    FlatJoin(iovs[..k + 1], iovs[k + 1..]);
  }

  /** A stretch of one buffer is the same stretch of the flat address list. */
  lemma FlatWindow(iovs: seq<Iov>, k: nat, offset: nat, len: nat)
    requires NonNegative(iovs) && k < |iovs| && offset + len <= iovs[k].len
    ensures var pos := |Flat(iovs[..k])| + offset;
            pos + len <= |Flat(iovs)| && Flat(iovs)[pos..pos + len] == Span(iovs[k].base + offset, len)
  {
    FlatSplit(iovs, k);
    hide Flat;
    var before, after := Flat(iovs[..k]), Flat(iovs[k + 1..]);
    var span := Span(iovs[k].base, iovs[k].len);
    assert Flat(iovs) == before + span + after;
    assert Flat(iovs)[|before| + offset..|before| + offset + len] == span[offset..offset + len];
  }

  // ------------------------------------------------------------ memory transfers

  predicate Mapped(mem: Memory, addrs: seq<int>) {
    forall i :: 0 <= i < |addrs| ==> addrs[i] in mem
  }

  function Gather(mem: Memory, addrs: seq<int>): (b: seq<Byte>)
    requires Mapped(mem, addrs)
    ensures |b| == |addrs|
  {
    seq(|addrs|, i requires 0 <= i < |addrs| => mem[addrs[i]])
  }

  /** Store byte after byte; where addresses repeat the later byte stays. */
  function Scatter(mem: Memory, addrs: seq<int>, b: seq<Byte>): Memory
    requires |b| == |addrs|
  {
    if b == [] then mem else Scatter(mem, addrs[..|b| - 1], b[..|b| - 1])[addrs[|b| - 1] := b[|b| - 1]]
  }

  lemma {:induction false} ScatterJoin(mem: Memory, a: seq<int>, x: seq<Byte>, b: seq<int>, y: seq<Byte>)
    requires |a| == |x| && |b| == |y|
    ensures Scatter(Scatter(mem, a, x), b, y) == Scatter(mem, a + b, x + y)
    decreases |y|
  {
    if y == [] {
      assert a + b == a && x + y == x;
    } else {
      var n := |y| - 1;
      ScatterJoin(mem, a, x, b[..n], y[..n]);
      assert (a + b)[..|x| + n] == a + b[..n] && (x + y)[..|x| + n] == x + y[..n];
    }
  }

  lemma {:induction false} ScatterAt(mem: Memory, addrs: seq<int>, b: seq<Byte>, i: nat)
    requires |b| == |addrs| && NoDup(addrs) && i < |b|
    ensures addrs[i] in Scatter(mem, addrs, b) && Scatter(mem, addrs, b)[addrs[i]] == b[i]
    decreases |b|
  {
    var n := |b| - 1;
    if i < n {
      ScatterAt(mem, addrs[..n], b[..n], i);
    }
  }

  /** What is written through the cursor is read back through it, when the buffers do
      not overlap. */
  lemma ScatterThenGather(mem: Memory, addrs: seq<int>, b: seq<Byte>)
    requires |b| == |addrs| && NoDup(addrs)
    ensures Mapped(Scatter(mem, addrs, b), addrs) && Gather(Scatter(mem, addrs, b), addrs) == b
  {
    forall i | 0 <= i < |b|
      ensures addrs[i] in Scatter(mem, addrs, b) && Scatter(mem, addrs, b)[addrs[i]] == b[i]
    {
      ScatterAt(mem, addrs, b, i);
    }
  }

  lemma GatherJoin(mem: Memory, a: seq<int>, b: seq<int>)
    requires Mapped(mem, a) && Mapped(mem, b)
    ensures Mapped(mem, a + b) && Gather(mem, a + b) == Gather(mem, a) + Gather(mem, b)
  {
  }

  /** Two requests in a row move as much as one request for both. */
  lemma RequestsAdd(total: nat, pos: nat, n1: nat, n2: nat)
    requires pos <= total
    ensures var k1 := Min(n1, total - pos);
            k1 + Min(n2, total - (pos + k1)) == Min(n1 + n2, total - pos)
  {
  }

  /** The bytes that a request for `n` moves from position `pos` on. */
  function Served(flat: seq<int>, pos: nat, n: nat): seq<int>
    requires pos <= |flat|
  {
    flat[pos..pos + Min(n, |flat| - pos)]
  }

  /** Two reads in a row get the same bytes as one read for both. */
  lemma ReadsJoin(mem: Memory, flat: seq<int>, pos: nat, n1: nat, n2: nat)
    requires pos <= |flat| && Mapped(mem, Served(flat, pos, n1 + n2))
    ensures var mid := pos + |Served(flat, pos, n1)|;
            && Mapped(mem, Served(flat, pos, n1)) && Mapped(mem, Served(flat, mid, n2))
            && Gather(mem, Served(flat, pos, n1)) + Gather(mem, Served(flat, mid, n2)) ==
               Gather(mem, Served(flat, pos, n1 + n2))
  {
    RequestsAdd(|flat|, pos, n1, n2);
    var first, mid := Served(flat, pos, n1), pos + |Served(flat, pos, n1)|;
    var second := Served(flat, mid, n2);
    assert first + second == Served(flat, pos, n1 + n2);
    forall i | 0 <= i < |first| ensures first[i] in mem { assert (first + second)[i] in mem; }
    forall i | 0 <= i < |second| ensures second[i] in mem { assert (first + second)[|first| + i] in mem; }
    GatherJoin(mem, first, second);
  }

  /** How many of the first addresses are mapped. */
  function MappedLen(mem: Memory, addrs: seq<int>): (n: nat)
    ensures n <= |addrs| && Mapped(mem, addrs[..n]) && (n < |addrs| ==> addrs[n] !in mem)
  {
    if addrs == [] || addrs[0] !in mem then 0
    else
      assert forall k :: 0 <= k <= |addrs| - 1 ==> addrs[..k + 1][1..] == addrs[1..][..k];
      1 + MappedLen(mem, addrs[1..])
  }

  lemma MappedUpTo(mem: Memory, addrs: seq<int>, k: nat)
    requires k <= MappedLen(mem, addrs)
    ensures Mapped(mem, addrs[..k])
  {
    assert addrs[..k] == addrs[..MappedLen(mem, addrs)][..k];
  }

  /** The first `n` bytes of `b` have been stored at the addresses from `pos` on. */
  ghost predicate Stored(mem: Memory, flat: seq<int>, pos: nat, b: seq<Byte>, n: nat, mem': Memory) {
    && pos + n <= |flat| && n <= |b| && mem'.Keys == mem.Keys
    && Mapped(mem, flat[pos..pos + n]) && mem' == Scatter(mem, flat[pos..pos + n], b[..n])
  }

  lemma StoredNone(mem: Memory, flat: seq<int>, pos: nat, b: seq<Byte>)
    requires pos <= |flat|
    ensures Stored(mem, flat, pos, b, 0, mem)
  {
    assert flat[pos..pos] == [] && b[..0] == [];
  }

  lemma StoredMore(mem: Memory, flat: seq<int>, pos: nat, b: seq<Byte>, n: nat, mem': Memory, k: nat)
    requires Stored(mem, flat, pos, b, n, mem') && pos + n + k <= |flat| && n + k <= |b|
    requires Mapped(mem', flat[pos + n..pos + n + k])
    ensures Stored(mem, flat, pos, b, n + k, Scatter(mem', flat[pos + n..pos + n + k], b[n..n + k]))
  {
    hide Scatter;
    var done, chunk, part := flat[pos..pos + n], flat[pos + n..pos + n + k], b[n..n + k];
    assert done + chunk == flat[pos..pos + n + k] && b[..n] + part == b[..n + k];
    ScatterJoin(mem, done, b[..n], chunk, part);
    ScatterKeys(mem', chunk, part);
  }

  lemma StoredFails(mem: Memory, flat: seq<int>, pos: nat, b: seq<Byte>, n: nat, mem': Memory, k: nat, all: nat)
    requires Stored(mem, flat, pos, b, n, mem') && n + k <= all && pos + all <= |flat|
    requires !Mapped(mem', flat[pos + n..pos + n + k])
    ensures !Mapped(mem, flat[pos..pos + all])
  {
    assert flat[pos..pos + n] + flat[pos + n..pos + n + k] == flat[pos..pos + n + k];
    UnmappedPart(mem, flat[pos..pos + n], flat[pos + n..pos + n + k], flat[pos..pos + all]);
  }

  // ---------------------------------------------------------------------- code

  datatype Result = Ok(count: nat) | EFAULT

  class Cursor {
    const iovs: seq<Iov>
    var start: nat
    var offset: nat
    var len: nat

    ghost predicate Valid()
      reads this
    {
      && NonNegative(iovs) && start <= |iovs|
      && (start < |iovs| ==> offset <= iovs[start].len) && (start == |iovs| ==> offset == 0)
      && Pos() <= |Flat(iovs)|
      && len == (|Flat(iovs)| - Pos()) % USIZE
    }

    /** The position in the flat buffer. */
    ghost function Pos(): nat
      requires NonNegative(iovs) && start <= |iovs|
      reads this
    {
      assert NonNegative(iovs[..start]);
      |Flat(iovs[..start])| + offset
    }

    constructor (iovs: seq<Iov>, len: nat)
      requires NonNegative(iovs) && len == |Flat(iovs)| % USIZE
      ensures Valid() && this.iovs == iovs && Pos() == 0
    {
      this.iovs, this.len := iovs, len;
      start, offset := 0, 0;
      new;
      assert iovs[..0] == [];
      if |iovs| > 0 { assert iovs[0].len >= 0; }
    }

    /** `skip_empty` moves to a buffer with bytes left, without moving in the flat one. */
    method SkipEmpty()
      requires Valid()
      modifies this`start, this`offset
      ensures Valid() && Pos() == old(Pos())
      ensures start == |iovs| || offset < iovs[start].len
    {
      while start < |iovs|
        invariant Valid() && Pos() == old(Pos())
        decreases |iovs| - start
      {
        if iovs[start].len > offset { break; }
        FlatSplit(iovs, start);
        offset := 0;
        start := start + 1;
      }
    }

    /** `remaining`: exact as long as the buffers' total length fits the counter. */
    method Remaining() returns (n: nat)
      requires Valid()
      ensures n == (|Flat(iovs)| - Pos()) % USIZE
      ensures |Flat(iovs)| < USIZE ==> n == |Flat(iovs)| - Pos()
    {
      n := len;
    }

    /** Bookkeeping after `n` bytes of the current buffer have been moved. */
    method Advance(n: nat)
      requires Valid() && start < |iovs| && offset + n <= iovs[start].len
      modifies this`offset, this`len
      ensures Valid() && Pos() == old(Pos()) + n
    {
      FlatWindow(iovs, start, offset, n);
      hide Flat;
      offset := offset + n;
      len := (len - n) % USIZE;
      SumModulo(|Flat(iovs)| - old(Pos()), n);
    }

    /** The addresses that one round of either loop moves: within one buffer, and none
        only if nothing is wanted or nothing is left. */
    method NextChunk(want: nat) returns (chunk: seq<int>)
      requires Valid()
      modifies this`start, this`offset
      ensures Valid() && Pos() == old(Pos()) && Pos() + |chunk| <= |Flat(iovs)|
      ensures chunk == Flat(iovs)[Pos()..Pos() + |chunk|] && |chunk| <= want
      ensures chunk == [] ==> want == 0 || Pos() == |Flat(iovs)|
      ensures chunk != [] ==> start < |iovs| && offset + |chunk| <= iovs[start].len
    {
      SkipEmpty();
      hide Flat;
      if start >= |iovs| {
        assert iovs[..start] == iovs;
        return [];
      }
      var left := iovs[start].len - offset;
      var len := if left < want then left else want;
      FlatWindow(iovs, start, offset, len);
      chunk := Span(iovs[start].base + offset, len);
    }

    /** `Read for IoVectorBufIo`: as many bytes as asked for, or as remain, from the flat
        position on; it fails exactly if one of them is not mapped, and then the cursor
        has moved over mapped bytes only. */
    method ReadInto(mem: Memory, n: nat) returns (r: Result, bytes: seq<Byte>)
      requires Valid()
      modifies this
      ensures Valid() && old(Pos()) <= Pos()
      ensures var pos, k := old(Pos()), Min(n, |Flat(iovs)| - old(Pos()));
              && (r.Ok? <==> Mapped(mem, Flat(iovs)[pos..pos + k]))
              && (r.Ok? ==> r.count == k && Pos() == pos + k && bytes == Gather(mem, Flat(iovs)[pos..pos + k]))
              && (r.EFAULT? ==> Pos() <= pos + k && Mapped(mem, Flat(iovs)[pos..Pos()]))
    {
      hide Flat;
      ghost var pos := Pos();
      bytes := [];
      while true
        invariant Valid() && Pos() == pos + |bytes| && |bytes| <= n
        invariant Mapped(mem, Flat(iovs)[pos..pos + |bytes|]) && bytes == Gather(mem, Flat(iovs)[pos..pos + |bytes|])
        decreases n - |bytes|
      {
        var chunk := NextChunk(n - |bytes|);
        if chunk == [] { break; }
        ghost var done := Flat(iovs)[pos..pos + |bytes|];
        assert done + chunk == Flat(iovs)[pos..pos + |bytes| + |chunk|];
        if !Mapped(mem, chunk) {
          UnmappedPart(mem, done, chunk, Flat(iovs)[pos..pos + Min(n, |Flat(iovs)| - pos)]);
          return EFAULT, bytes;
        }
        GatherJoin(mem, done, chunk);
        bytes := bytes + Gather(mem, chunk);
        Advance(|chunk|);
      }
      r := Ok(|bytes|);
    }

    /** `Write for IoVectorBufIo`: the source's bytes, as many as there is room for, go to
        the flat position on; it fails exactly if one of the addresses is not mapped.
        `partial` is how much of a failing piece the copy may store before it faults;
        `n` is how many bytes were stored altogether. */
    method WriteFrom(mem: Memory, buf: seq<Byte>, partial: nat) returns (r: Result, mem': Memory, ghost n: nat)
      requires Valid()
      modifies this
      ensures Valid() && old(Pos()) <= Pos()
      ensures var pos, k := old(Pos()), Min(|buf|, |Flat(iovs)| - old(Pos()));
              && n <= k && Stored(mem, Flat(iovs), pos, buf, n, mem')
              && (r.Ok? <==> Mapped(mem, Flat(iovs)[pos..pos + k]))
              && (r.Ok? ==> r.count == n == k && Pos() == pos + k)
              && (r.EFAULT? ==> Pos() <= pos + n)
    {
      hide Flat;
      hide Scatter;
      hide Stored;
      hide Mapped;
      ghost var pos := Pos();
      ghost var k := Min(|buf|, |Flat(iovs)| - pos);
      StoredNone(mem, Flat(iovs), pos, buf);
      var count := 0;
      mem' := mem;
      while true
        invariant Valid() && Pos() == pos + count && count <= |buf|
        invariant Stored(mem, Flat(iovs), pos, buf, count, mem')
        decreases |buf| - count
      {
        var chunk := NextChunk(|buf| - count);
        if chunk == [] { break; }
        if !Mapped(mem', chunk) {
          StoredFails(mem, Flat(iovs), pos, buf, count, mem', |chunk|, k);
          var some := if partial < MappedLen(mem', chunk) then partial else MappedLen(mem', chunk);
          MappedUpTo(mem', chunk, some);
          assert chunk[..some] == Flat(iovs)[pos + count..pos + count + some];
          StoredMore(mem, Flat(iovs), pos, buf, count, mem', some);
          return EFAULT, Scatter(mem', chunk[..some], buf[count..count + some]), count + some;
        }
        StoredMore(mem, Flat(iovs), pos, buf, count, mem', |chunk|);
        mem' := Scatter(mem', chunk, buf[count..count + |chunk|]);
        Advance(|chunk|);
        count := count + |chunk|;
      }
      assert count == k;
      assert Mapped(mem, Flat(iovs)[pos..pos + k]) by { StoredMapped(mem, Flat(iovs), pos, buf, count, mem'); }
      r, n := Ok(count), count;
    }
  }

  lemma StoredMapped(mem: Memory, flat: seq<int>, pos: nat, b: seq<Byte>, n: nat, mem': Memory)
    requires Stored(mem, flat, pos, b, n, mem')
    ensures pos + n <= |flat| && Mapped(mem, flat[pos..pos + n])
  {
  }

  lemma SumModulo(x: int, n: int)
    ensures (x % USIZE - n) % USIZE == (x - n) % USIZE
    ensures (x % USIZE + n) % USIZE == (x + n) % USIZE
  {
  }

  lemma UnmappedPart(mem: Memory, a: seq<int>, b: seq<int>, all: seq<int>)
    requires !Mapped(mem, b) && a + b <= all
    ensures !Mapped(mem, all)
  {
    var i :| 0 <= i < |b| && b[i] !in mem;
    assert all[|a| + i] == (a + b)[|a| + i] == b[i];
  }

  lemma {:induction false} ScatterKeys(mem: Memory, addrs: seq<int>, b: seq<Byte>)
    requires |b| == |addrs| && Mapped(mem, addrs)
    ensures Scatter(mem, addrs, b).Keys == mem.Keys
    decreases |b|
  {
    if b != [] {
      ScatterKeys(mem, addrs[..|b| - 1], b[..|b| - 1]);
    }
  }

  datatype NewResult = Made(cursor: Cursor) | NewFault | NewInvalid

  /** The descriptor at index `i` can be read and its length is not negative. */
  predicate Usable(descs: seq<Option<Iov>>, i: nat)
    requires i < |descs|
  {
    descs[i].Some? && descs[i].value.len >= 0
  }

  /** The first descriptor from `from` on that is not usable, or the end. */
  function FirstUnusable(descs: seq<Option<Iov>>, from: nat): (i: nat)
    requires from <= |descs|
    ensures from <= i <= |descs| && (i < |descs| ==> !Usable(descs, i))
    ensures forall j :: from <= j < i ==> Usable(descs, j)
    decreases |descs| - from
  {
    if from == |descs| || !Usable(descs, from) then from else FirstUnusable(descs, from + 1)
  }

  /** `IoVectorBuf::new` followed by `into_io`; a descriptor that cannot be read is None. */
  method NewCursor(descs: seq<Option<Iov>>) returns (r: NewResult)
    ensures var i := FirstUnusable(descs, 0);
            && (r.Made? <==> |descs| <= MAX_IOV && i == |descs|)
            && (r.NewFault? <==> |descs| <= MAX_IOV && i < |descs| && descs[i].None?)
    ensures r.Made? ==>
              && fresh(r.cursor) && r.cursor.Valid() && r.cursor.Pos() == 0 && |r.cursor.iovs| == |descs|
              && forall i :: 0 <= i < |descs| ==> descs[i] == Some(r.cursor.iovs[i])
  {
    if |descs| > MAX_IOV { return NewInvalid; }
    var len, iovs := 0, [];
    assert Flat([]) == [];
    hide Flat;
    hide FirstUnusable;
    for i := 0 to |descs|
      invariant NonNegative(iovs) && len == |Flat(iovs)| % USIZE && |iovs| == i <= FirstUnusable(descs, 0)
      invariant forall j :: 0 <= j < i ==> descs[j] == Some(iovs[j])
    {
      assert i < FirstUnusable(descs, 0) <==> Usable(descs, i);
      if descs[i].None? { return NewFault; }
      var v := descs[i].value;
      if v.len < 0 { return NewInvalid; }
      FlatOne(v);
      FlatJoin(iovs, [v]);
      SumModulo(|Flat(iovs)|, v.len);
      iovs := iovs + [v];
      len := (len + v.len) % USIZE;
    }
    var c := new Cursor(iovs, len);
    r := Made(c);
  }
}
