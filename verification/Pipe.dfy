/** A pipe: a ring buffer that its writers fill and its readers empty, and that can
    be replaced by one of another size while both are at work.  One invocation of a
    poll closure is one step. */
module Pipe {
  import opened Base

  const PAGE := 4096

  /** The smallest positive multiple of the page size that holds `n` bytes. */
  function PageRound(n: nat): (r: nat)
    ensures r % PAGE == 0 && r >= n && r >= PAGE && (r > PAGE ==> r - PAGE < n)
  {
    var pages := (n + PAGE - 1) / PAGE;
    (if pages == 0 then 1 else pages) * PAGE
  }

  // -------------------------------------------------- a ring laid out in a buffer

  function Wrap(i: nat, cap: nat): nat {
    if i < cap then i else i - cap
  }

  /** The byte `i` places after index `start` of ring buffer `d`. */
  function At(d: seq<Byte>, start: nat, i: nat): Byte
    requires start < |d| && i < |d|
  {
    d[Wrap(start + i, |d|)]
  }

  /** Where the first of the two occupied slices ends. */
  function Split(cap: nat, start: nat, len: nat): nat {
    if start + len <= cap then start + len else cap
  }

  /** The `len` bytes of `d` from index `start` on, oldest first: the two slices that
      `as_slices` gives, joined. */
  function Unroll(d: seq<Byte>, start: nat, len: nat): (s: seq<Byte>)
    requires start < |d| && len <= |d|
    ensures |s| == len
  {
    var split := Split(|d|, start, len);
    d[start..split] + d[..len - (split - start)]
  }

  lemma UnrollAt(d: seq<Byte>, start: nat, len: nat, i: nat)
    requires start < |d| && i < len <= |d|
    ensures Unroll(d, start, len)[i] == At(d, start, i)
  {
  }

  /** `advance_read_index` drops the oldest bytes. */
  lemma UnrollDrop(d: seq<Byte>, start: nat, len: nat, k: nat)
    requires start < |d| && k <= len <= |d|
    ensures Wrap(start + k, |d|) < |d| && Unroll(d, Wrap(start + k, |d|), len - k) == Unroll(d, start, len)[k..]
  {
    hide Unroll;
    var s' := Wrap(start + k, |d|);
    forall i | 0 <= i < len - k ensures Unroll(d, s', len - k)[i] == Unroll(d, start, len)[k..][i] {
      UnrollAt(d, s', len - k, i);
      UnrollAt(d, start, len, k + i);
    }
  }

  /** Bytes stored in the vacant places after the contents extend the contents. */
  lemma UnrollExtend(d: seq<Byte>, d': seq<Byte>, start: nat, len: nat, src: seq<Byte>)
    requires |d'| == |d| && start < |d| && len + |src| <= |d|
    requires forall i :: 0 <= i < len ==> At(d', start, i) == At(d, start, i)
    requires forall i :: len <= i < len + |src| ==> At(d', start, i) == src[i - len]
    ensures Unroll(d', start, len + |src|) == Unroll(d, start, len) + src
  {
    hide Unroll;
    hide At;
    var s := Unroll(d, start, len) + src;
    forall i | 0 <= i < len + |src| ensures Unroll(d', start, len + |src|)[i] == s[i] {
      UnrollAt(d', start, len + |src|, i);
      if i < len { UnrollAt(d, start, len, i); }
    }
  }

  /** `d` with the first `n` bytes of `src` in the first vacant slice and the next `m`
      at the beginning of the buffer. */
  ghost predicate Filled(d: seq<Byte>, d': seq<Byte>, at: nat, n: nat, m: nat, src: seq<Byte>)
    requires n + m <= |src|
  {
    |d'| == |d| && forall k :: 0 <= k < |d| ==>
      d'[k] == if at <= k < at + n then src[k - at] else if k < m then src[n + k] else d[k]
  }

  lemma FilledExtends(d: seq<Byte>, d': seq<Byte>, start: nat, len: nat, n: nat, m: nat, src: seq<Byte>)
    requires start < |d| && len + n + m <= |d| && n + m == |src|
    requires var at := Wrap(start + len, |d|); Filled(d, d', at, n, m, src) && (m > 0 ==> at + n == |d|)
    requires start + len < |d| ==> start + len + n <= |d|
    ensures Unroll(d', start, len + |src|) == Unroll(d, start, len) + src
  {
    hide Unroll;
    UnrollExtend(d, d', start, len, src);
  }

  class Ring {
    var data: array<Byte>
    var start: nat
    var len: nat

    ghost predicate Valid()
      reads this
    {
      0 < data.Length && start < data.Length && len <= data.Length
    }

    ghost function Contents(): (s: seq<Byte>)
      requires Valid()
      reads this, data
      ensures |s| == len
    {
      Unroll(data[..], start, len)
    }

    constructor (capacity: nat)
      requires capacity > 0
      ensures Valid() && fresh(data) && data.Length == capacity && Contents() == []
    {
      data := new Byte[capacity](_ => 0);
      start, len := 0, 0;
    }

    method Slices() returns (left: seq<Byte>, right: seq<Byte>)
      requires Valid()
      ensures left + right == Contents()
    {
      var split := Split(data.Length, start, len);
      left, right := data[..][start..split], data[..][..len - (split - start)];
    }

    /** The read closure: the first slice, and if that was taken whole the second. */
    method TakeUpTo(n: nat) returns (bytes: seq<Byte>)
      requires Valid()
      modifies this`start, this`len
      ensures Valid()
      ensures bytes == old(Contents())[..Min(n, old(len))]
      ensures Contents() == old(Contents())[Min(n, old(len))..]
    {
      hide Unroll;
      var left, right := Slices();
      bytes := if n < |left| then left[..n] else left;
      if |bytes| >= |left| {
        bytes := bytes + if n - |left| < |right| then right[..n - |left|] else right;
      }
      UnrollDrop(data[..], start, len, |bytes|);
      start := Wrap(start + |bytes|, data.Length);
      len := len - |bytes|;
    }

    method Blit(at: nat, bytes: seq<Byte>)
      requires at + |bytes| <= data.Length
      modifies data
      ensures forall k :: 0 <= k < data.Length ==>
        data[k] == if at <= k < at + |bytes| then bytes[k - at] else old(data[k])
    {
      forall j | 0 <= j < |bytes| { data[at + j] := bytes[j]; }
    }

    method Fill(at: nat, n: nat, m: nat, src: seq<Byte>)
      requires n + m <= |src| && m <= at && at + n <= data.Length
      modifies data
      ensures Filled(old(data[..]), data[..], at, n, m, src)
    {
      Blit(at, src[..n]);
      Blit(0, src[n..n + m]);
    }

    /** The write closure: the first vacant slice, and if that was filled the second. */
    method PutUpTo(src: seq<Byte>) returns (count: nat)
      requires Valid()
      modifies this`len, data
      ensures Valid()
      ensures count == Min(|src|, data.Length - old(len))
      ensures Contents() == old(Contents()) + src[..count]
    {
      hide Unroll;
      hide Filled;
      ghost var before := data[..];
      var wrapped := start + len >= data.Length;
      var at := Wrap(start + len, data.Length);
      var room := (if wrapped then start else data.Length) - at;
      var n := if |src| < room then |src| else room;
      var m := if n < room || wrapped then 0 else if |src| - n < start then |src| - n else start;
      count := n + m;
      Fill(at, n, m, src[..count]);
      FilledExtends(before, data[..], start, len, n, m, src[..count]);
      len := len + count;
    }

    /** `Pipe::resize`: the contents are copied to a new ring, or nothing changes. */
    method Resize(n: nat) returns (ok: bool)
      requires Valid()
      modifies this
      ensures Valid() && Contents() == old(Contents())
      ensures ok == !(PageRound(n) < old(len) && PageRound(n) != old(data.Length))
      ensures data.Length == if ok then PageRound(n) else old(data.Length)
    {
      hide Unroll;
      hide PageRound;
      var size := PageRound(n);
      if size == data.Length { return true; }
      if size < len { return false; }
      var left, right := Slices();
      var ring := new Ring(size);
      var a := ring.PutUpTo(left);
      var b := ring.PutUpTo(right);
      data, start, len := ring.data, ring.start, ring.len;
      ok := true;
    }
  }

  // ---------------------------------------------------------------- reads, writes

  datatype Shared = Shared(contents: seq<Byte>, cap: nat, reader: bool, writer: bool)

  /** A `write` call in progress: what it has to write and how much was accepted. */
  datatype WriteCall = WriteCall(src: seq<Byte>, total: nat, nonblocking: bool)

  datatype ReadResult = Bytes(bytes: seq<Byte>) | Eof | ReadAgain
  datatype WriteResult = Done(n: nat) | Epipe | WriteAgain

  function ReadPoll(p: Shared, n: nat): (Shared, ReadResult) {
    var k := Min(n, |p.contents|);
    (p.(contents := p.contents[k..]),
     if k > 0 then Bytes(p.contents[..k]) else if !p.writer then Eof else ReadAgain)
  }

  /** The bytes that one invocation of the write closure stores: what is left of the
      source, up to the room in the ring. */
  function Chunk(p: Shared, c: WriteCall): seq<Byte> {
    var left := if c.total <= |c.src| then c.src[c.total..] else [];
    var room := if |p.contents| <= p.cap then p.cap - |p.contents| else 0;
    left[..Min(|left|, room)]
  }

  function WritePoll(p: Shared, c: WriteCall): (Shared, WriteCall, WriteResult) {
    if !p.reader then (p, c, Epipe)
    else
      var written := Chunk(p, c);
      var c' := c.(total := c.total + |written|);
      (p.(contents := p.contents + written), c',
       if written != [] && (c'.total == |c.src| || c.nonblocking) then Done(c'.total) else WriteAgain)
  }

  function ResizeTo(p: Shared, n: nat): (Shared, bool) {
    var size := PageRound(n);
    if size == p.cap then (p, true)
    else if size < |p.contents| then (p, false)
    else (p.(cap := size), true)
  }

  // ------------------------------------------------------------------------ runs

  /** A byte that the pipe accepted, and the call it came from. */
  datatype Sent = Sent(call: int, byte: Byte)

  datatype Sys = Sys(pipe: Shared, calls: map<int, WriteCall>, accepted: seq<Sent>, delivered: seq<Byte>)

  datatype Step =
    | StepRead(n: nat)
    | StepBegin(call: int, src: seq<Byte>, nonblocking: bool)
    | StepWrite(call: int)
    | StepResize(n: nat)
    | StepCloseReader
    | StepCloseWriter

  function Tag(c: int, b: seq<Byte>): (r: seq<Sent>)
    ensures |r| == |b|
  {
    seq(|b|, i requires 0 <= i < |b| => Sent(c, b[i]))
  }

  /** All bytes accepted, in order. */
  function AllOf(a: seq<Sent>): seq<Byte> {
    if a == [] then [] else AllOf(a[..|a| - 1]) + [a[|a| - 1].byte]
  }

  /** The bytes accepted from call `c`, in order. */
  function FromCall(a: seq<Sent>, c: int): seq<Byte> {
    if a == [] then []
    else FromCall(a[..|a| - 1], c) + if a[|a| - 1].call == c then [a[|a| - 1].byte] else []
  }

  ghost predicate Next(s: Sys, step: Step, s': Sys) {
    match step
    case StepRead(n) =>
      var (p, r) := ReadPoll(s.pipe, n);
      s.pipe.reader && n > 0 && s' == s.(pipe := p, delivered := s.delivered + if r.Bytes? then r.bytes else [])
    case StepBegin(c, src, nb) =>
      s.pipe.writer && c !in s.calls && s' == s.(calls := s.calls[c := WriteCall(src, 0, nb)])
    case StepWrite(c) =>
      && s.pipe.writer && c in s.calls
      && var (p, call, r) := WritePoll(s.pipe, s.calls[c]);
         var sent := if s.pipe.reader then Chunk(s.pipe, s.calls[c]) else [];
         s' == s.(pipe := p, calls := s.calls[c := call], accepted := s.accepted + Tag(c, sent))
    case StepResize(n) => s' == s.(pipe := ResizeTo(s.pipe, n).0)
    case StepCloseReader => s' == s.(pipe := s.pipe.(reader := false))
    case StepCloseWriter => s' == s.(pipe := s.pipe.(writer := false))
  }

  ghost predicate CallsOk(s: Sys) {
    forall c :: if c in s.calls
                then && s.calls[c].total <= |s.calls[c].src|
                     && FromCall(s.accepted, c) == s.calls[c].src[..s.calls[c].total]
                else FromCall(s.accepted, c) == []
  }

  /** Read plus buffered is accepted, the buffer fits, and every call's bytes were
      accepted in order, from the first on. */
  ghost predicate Inv(s: Sys) {
    && s.delivered + s.pipe.contents == AllOf(s.accepted)
    && |s.pipe.contents| <= s.pipe.cap
    && CallsOk(s)
  }

  lemma {:induction false} TagAppend(a: seq<Sent>, c: int, b: seq<Byte>, d: int)
    ensures AllOf(a + Tag(c, b)) == AllOf(a) + b
    ensures FromCall(a + Tag(c, b), d) == FromCall(a, d) + if c == d then b else []
    decreases |b|
  {
    var t := a + Tag(c, b);
    if b == [] {
      assert t == a;
    } else {
      var n := |b| - 1;
      TagAppend(a, c, b[..n], d);
      assert t[..|t| - 1] == a + Tag(c, b[..n]);
      assert t[|t| - 1] == Sent(c, b[n]);
      assert b == b[..n] + [b[n]];
    }
  }

  lemma ReadInv(s: Sys, n: nat, s': Sys)
    requires Inv(s) && Next(s, StepRead(n), s')
    ensures Inv(s')
  {
    hide FromCall;
    hide AllOf;
    var k := Min(n, |s.pipe.contents|);
    assert s.pipe.contents == s.pipe.contents[..k] + s.pipe.contents[k..];
  }

  lemma WriteInv(s: Sys, c: int, s': Sys)
    requires Inv(s) && Next(s, StepWrite(c), s')
    ensures Inv(s')
  {
    hide FromCall;
    hide AllOf;
    var call := s.calls[c];
    var sent := if s.pipe.reader then Chunk(s.pipe, call) else [];
    forall d ensures AllOf(s'.accepted) == AllOf(s.accepted) + sent
             ensures FromCall(s'.accepted, d) == FromCall(s.accepted, d) + if c == d then sent else []
    {
      TagAppend(s.accepted, c, sent, d);
    }
    TagAppend(s.accepted, c, sent, c);
    assert s'.calls[c].src[..s'.calls[c].total] == call.src[..call.total] + sent;
  }

  lemma NextInv(s: Sys, step: Step, s': Sys)
    requires Inv(s) && Next(s, step, s')
    ensures Inv(s')
  {
    match step
    case StepRead(n) => ReadInv(s, n, s');
    case StepWrite(c) => WriteInv(s, c, s');
    case _ =>
  }

  /** `Pipe::new`: both ends open, 64 KiB. */
  const INITIAL := Sys(Shared([], 65536, true, true), map[], [], [])

  ghost predicate Run(states: seq<Sys>, steps: seq<Step>) {
    && |states| == |steps| + 1 && states[0] == INITIAL
    && forall k :: 0 <= k < |steps| ==> Next(states[k], steps[k], states[k + 1])
  }

  /** For every interleaving: bytes read so far followed by the buffered bytes are the
      bytes accepted from writers, and the buffer never exceeds its capacity. */
  lemma {:induction false} RunConserves(states: seq<Sys>, steps: seq<Step>, n: nat)
    requires Run(states, steps) && n < |states|
    ensures Inv(states[n])
  {
    hide Inv;
    hide Next;
    if n > 0 {
      RunConserves(states, steps, n - 1);
      NextInv(states[n - 1], steps[n - 1], states[n]);
    } else {
      InitialInv();
    }
  }

  lemma InitialInv()
    ensures Inv(INITIAL)
  {
  }

  /** End of file is reported only once the writer is gone and every accepted byte has
      been read, and from then on nothing more is ever accepted or delivered. */
  lemma {:induction false} EofIsFinal(states: seq<Sys>, steps: seq<Step>, n: nat, m: nat, want: nat)
    requires Run(states, steps) && n <= m < |states|
    requires want > 0 && ReadPoll(states[n].pipe, want).1.Eof?
    ensures !states[m].pipe.writer && states[m].pipe.contents == []
    ensures states[m].delivered == AllOf(states[n].accepted) && states[m].accepted == states[n].accepted
    decreases m
  {
    hide AllOf;
    RunConserves(states, steps, n);
    if n < m {
      EofIsFinal(states, steps, n, m - 1, want);
      assert Next(states[m - 1], steps[m - 1], states[m]);
    }
  }

  // --------------------------------------------------------------- what a poll means

  /** An end is open exactly while nobody has closed it. */
  lemma {:induction false} RunEnds(states: seq<Sys>, steps: seq<Step>, n: nat)
    requires Run(states, steps) && n < |states|
    ensures states[n].pipe.reader <==> StepCloseReader !in steps[..n]
    ensures states[n].pipe.writer <==> StepCloseWriter !in steps[..n]
  {
    if n > 0 {
      RunEnds(states, steps, n - 1);
      assert Next(states[n - 1], steps[n - 1], states[n]);
      assert steps[..n] == steps[..n - 1] + [steps[n - 1]];
    }
  }

  /** In every state of every run: a read gets the bytes that were accepted next, as many as
      it wants or there are; it reports end of file exactly if all accepted bytes were read
      and the writer has been closed, and otherwise asks to be called again. */
  lemma ReadIff(states: seq<Sys>, steps: seq<Step>, n: nat, want: nat)
    requires Run(states, steps) && n < |states| && want > 0
    ensures var all, done := AllOf(states[n].accepted), |states[n].delivered|;
            var r := ReadPoll(states[n].pipe, want).1;
            && done <= |all| && all[..done] == states[n].delivered
            && (r.Eof? <==> done == |all| && StepCloseWriter in steps[..n])
            && (r.ReadAgain? <==> done == |all| && StepCloseWriter !in steps[..n])
            && (r.Bytes? ==> r.bytes == all[done..done + Min(want, |all| - done)])
  {
    RunConserves(states, steps, n);
    RunEnds(states, steps, n);
    hide Run;
    hide AllOf;
    hide CallsOk;
    var all, contents := AllOf(states[n].accepted), states[n].pipe.contents;
    assert all[|states[n].delivered|..] == contents;
  }

  /** In every state of every run: a write fails exactly if the reader has been closed.  It is
      done exactly if something is stored and then either all of the source has been accepted
      or the call does not block; its result is how much of the source was accepted over all
      its polls, which is a prefix. */
  lemma WriteIff(states: seq<Sys>, steps: seq<Step>, n: nat, c: int)
    requires Run(states, steps) && n < |steps| && steps[n] == StepWrite(c)
    ensures c in states[n].calls
    ensures var call, r := states[n].calls[c], WritePoll(states[n].pipe, states[n].calls[c]).2;
            var before, after := FromCall(states[n].accepted, c), FromCall(states[n + 1].accepted, c);
            && |before| <= |after| <= |call.src| && after == call.src[..|after|]
            && |states[n].pipe.contents| <= states[n].pipe.cap
            && |after| - |before| == (if r.Epipe? then 0
                                      else Min(|call.src| - |before|, states[n].pipe.cap - |states[n].pipe.contents|))
            && (r.Epipe? <==> StepCloseReader in steps[..n])
            && (r.Done? <==> |before| < |after| && (after == call.src || call.nonblocking))
            && (r.Done? ==> r.n == |after|)
  {
    RunConserves(states, steps, n);
    RunConserves(states, steps, n + 1);
    RunEnds(states, steps, n);
    assert Next(states[n], steps[n], states[n + 1]);
    hide Run;
    hide AllOf;
    hide FromCall;
    hide Tag;
  }

  /** In every run a resize succeeds exactly if the bytes in the ring fit the new size, which
      is the smallest positive number of whole pages that holds `size`; then that is the
      capacity, and otherwise nothing changes. */
  lemma ResizeIff(states: seq<Sys>, steps: seq<Step>, n: nat, size: nat)
    requires Run(states, steps) && n < |steps| && steps[n] == StepResize(size)
    ensures var p, ok := states[n].pipe, ResizeTo(states[n].pipe, size).1;
            && (ok <==> |p.contents| <= PageRound(size))
            && states[n + 1] == states[n].(pipe := p.(cap := if ok then PageRound(size) else p.cap))
  {
    RunConserves(states, steps, n);
    assert Next(states[n], steps[n], states[n + 1]);
    hide PageRound;
    hide AllOf;
    hide CallsOk;
  }

  // ------------------------------------------------- the read closure's two looks

  lemma {:induction false} AllOfSize(a: seq<Sent>)
    ensures |AllOf(a)| == |a|
  {
    if a != [] {
      AllOfSize(a[..|a| - 1]);
    }
  }

  /** A write that stores something: the reader is there, and there is room and source left. */
  predicate Stores(s: Sys, step: Step) {
    step.StepWrite? && step.call in s.calls && s.pipe.reader && Chunk(s.pipe, s.calls[step.call]) != []
  }

  lemma NextStores(s: Sys, step: Step, s': Sys)
    requires Next(s, step, s')
    ensures s.accepted <= s'.accepted
    ensures |s'.accepted| > |s.accepted| <==> Stores(s, step)
    ensures !step.StepRead? ==> s'.delivered == s.delivered
  {
    hide Chunk;
  }

  lemma {:induction false} StoresBetween(states: seq<Sys>, steps: seq<Step>, n: nat, m: nat)
    requires Run(states, steps) && n <= m < |states|
    ensures |states[m].accepted| >= |states[n].accepted|
    ensures |states[m].accepted| > |states[n].accepted| <==> exists k :: n <= k < m && Stores(states[k], steps[k])
    ensures (forall k :: n <= k < m ==> !steps[k].StepRead?) ==> states[m].delivered == states[n].delivered
    decreases m
  {
    hide Stores;
    if n < m {
      StoresBetween(states, steps, n, m - 1);
      assert Next(states[m - 1], steps[m - 1], states[m]);
      hide Next;
      NextStores(states[m - 1], steps[m - 1], states[m]);
    }
  }

  /** The read closure looks at the ring and then whether the writer is gone.  If it found
      the ring empty at `n` and reports end of file at `m`, bytes are left unread exactly
      if more were accepted in between than other readers took: with no other reader,
      exactly if a write in between stored something. */
  lemma EofLate(states: seq<Sys>, steps: seq<Step>, n: nat, m: nat)
    requires Run(states, steps) && n <= m < |states| && states[n].pipe.contents == [] && !states[m].pipe.writer
    ensures states[m].pipe.contents != [] <==>
            |states[m].accepted| - |states[n].accepted| > |states[m].delivered| - |states[n].delivered|
    ensures (forall k :: n <= k < m ==> !steps[k].StepRead?) ==>
            (states[m].pipe.contents != [] <==> exists k :: n <= k < m && Stores(states[k], steps[k]))
  {
    hide Stores;
    hide AllOf;
    RunConserves(states, steps, n);
    RunConserves(states, steps, m);
    AllOfSize(states[n].accepted);
    AllOfSize(states[m].accepted);
    StoresBetween(states, steps, n, m);
  }

  /** That happens: between the two looks a writer writes a byte and closes. */
  lemma EofRace() returns (states: seq<Sys>, steps: seq<Step>)
    ensures Run(states, steps) && |states| == 4
    ensures states[1].pipe.contents == [] && !states[3].pipe.writer && states[3].pipe.contents == [65]
  {
    var s1 := INITIAL.(calls := map[0 := WriteCall([65], 0, false)]);
    var s2 := Sys(Shared([65], 65536, true, true), map[0 := WriteCall([65], 1, false)], [Sent(0, 65)], []);
    var s3 := s2.(pipe := s2.pipe.(writer := false));
    states, steps := [INITIAL, s1, s2, s3], [StepBegin(0, [65], false), StepWrite(0), StepCloseWriter];
    assert Chunk(s1.pipe, s1.calls[0]) == [65];
    assert Tag(0, [65]) == [Sent(0, 65)];
    assert Next(INITIAL, steps[0], s1) && Next(s1, steps[1], s2) && Next(s2, steps[2], s3);
  }

  // ---------------------------------------------------------------------- code

  /** The state shared by the two ends, with the closures that `read` and `write`
      hand to their pollers. */
  class PipeShared {
    const ring: Ring
    var reader: bool
    var writer: bool

    constructor ()
      ensures fresh(ring) && fresh(ring.data) && ring.Valid() && Value() == INITIAL.pipe
    {
      ring := new Ring(65536);
      reader, writer := true, true;
    }

    ghost function Value(): Shared
      requires ring.Valid()
      reads this, ring, ring.data
    {
      Shared(ring.Contents(), ring.data.Length, reader, writer)
    }

    method ReadClosure(n: nat) returns (r: ReadResult)
      requires ring.Valid()
      modifies ring`start, ring`len
      ensures ring.Valid() && Value() == ReadPoll(old(Value()), n).0 && r == ReadPoll(old(Value()), n).1
    {
      hide Unroll;
      var bytes := ring.TakeUpTo(n);
      r := if |bytes| > 0 then Bytes(bytes) else if !writer then Eof else ReadAgain;
    }

    method WriteClosure(c: WriteCall) returns (c': WriteCall, r: WriteResult)
      requires ring.Valid() && c.total <= |c.src|
      modifies ring`len, ring.data
      ensures ring.Valid() && (Value(), c', r) == WritePoll(old(Value()), c)
    {
      hide Unroll;
      if !reader { return c, Epipe; }
      var written := ring.PutUpTo(c.src[c.total..]);
      assert c.src[c.total..][..written] == Chunk(old(Value()), c);
      c' := c.(total := c.total + written);
      r := WriteAgain;
      if written > 0 && (c'.total == |c.src| || c.nonblocking) {
        r := Done(c'.total);
      }
    }

    method ResizeRing(n: nat) returns (ok: bool)
      requires ring.Valid()
      modifies ring
      ensures ring.Valid() && (Value(), ok) == ResizeTo(old(Value()), n)
    {
      hide Unroll;
      hide PageRound;
      ok := ring.Resize(n);
    }
  }
}
