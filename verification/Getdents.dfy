/** getdents64: directory entries packed into a byte buffer, and a directory offset
    from which the next call resumes. */
module Getdents {
  import opened Base

  const NAME_OFFSET := 19
  const HEADER := 24
  const ALIGN := 8

  /** One record as a caller sees it. */
  datatype Dirent = Dirent(ino: nat, off: nat, kind: Byte, name: seq<Byte>)

  function RecLen(name: seq<Byte>): nat {
    (NAME_OFFSET + |name| + 1 + ALIGN - 1) / ALIGN * ALIGN
  }

  // --------------------------------------------------------- little-endian numbers

  function Pow256(k: nat): nat {
    if k == 0 then 1 else 256 * Pow256(k - 1)
  }

  /** The low `k` bytes of `n`, as a cast to a `k`-byte field keeps them. */
  function LE(n: nat, k: nat): (b: seq<Byte>)
    ensures |b| == k
    decreases k
  {
    if k == 0 then [] else [n % 256] + LE(n / 256, k - 1)
  }

  function FromLE(b: seq<Byte>): nat {
    if b == [] then 0 else b[0] + 256 * FromLE(b[1..])
  }

  /** Reading back the low `k` bytes of a number. */
  lemma {:induction false} RoundTripLE(n: nat, k: nat)
    requires n < Pow256(k)
    ensures FromLE(LE(n, k)) == n
    decreases k
  {
    if k > 0 {
      RoundTripLE(n / 256, k - 1);
      assert LE(n, k)[1..] == LE(n / 256, k - 1);
    }
  }

  lemma {:induction false} FromLEBound(b: seq<Byte>)
    ensures FromLE(b) < Pow256(|b|)
  {
    if b != [] {
      FromLEBound(b[1..]);
    }
  }

  // --------------------------------------------------------------------- records

  /** `r` is the record of `e`: the fields in their places, the name, a final NUL;
      padding bytes are whatever they are, and the length field has 16 bits. */
  ghost predicate Encodes(r: seq<Byte>, e: Dirent) {
    && |r| == RecLen(e.name)
    && r[0..8] == LE(e.ino, 8)
    && r[8..16] == LE(e.off, 8)
    && r[16..18] == LE(RecLen(e.name), 2)
    && r[18] == e.kind
    && r[NAME_OFFSET..NAME_OFFSET + |e.name|] == e.name
    && r[NAME_OFFSET + |e.name|] == 0
  }

  /** The bytes before the first NUL. */
  function CString(b: seq<Byte>): seq<Byte> {
    if b == [] || b[0] == 0 then [] else [b[0]] + CString(b[1..])
  }

  function DecodeOne(r: seq<Byte>): Dirent
    requires |r| >= HEADER
  {
    Dirent(FromLE(r[0..8]), FromLE(r[8..16]), r[18], CString(r[NAME_OFFSET..]))
  }

  /** What a caller makes of the bytes it got. */
  function DecodeAll(b: seq<Byte>): seq<Dirent>
    decreases |b|
  {
    if |b| < HEADER then []
    else
      var len := FromLE(b[16..18]);
      if len < HEADER || len > |b| then [] else [DecodeOne(b[..len])] + DecodeAll(b[len..])
  }

  /** Numbers that fit their fields, and a name without NUL. */
  predicate Fits(e: Dirent) {
    && e.ino < Pow256(8) && e.off < Pow256(8) && RecLen(e.name) < Pow256(2)
    && forall i :: 0 <= i < |e.name| ==> e.name[i] != 0
  }

  /** The least multiple of the alignment that holds the header's fields, the name and a NUL. */
  lemma RecLenBounds(name: seq<Byte>)
    ensures HEADER <= RecLen(name) && RecLen(name) % ALIGN == 0
    ensures NAME_OFFSET + |name| + 1 <= RecLen(name) < NAME_OFFSET + |name| + 1 + ALIGN
  {
  }

  /** The 16-bit length field holds the record's length exactly when that is below
      65536; a longer name leaves a record that cannot be walked over. */
  lemma LengthFieldExact(name: seq<Byte>)
    ensures FromLE(LE(RecLen(name), 2)) == RecLen(name) <==> RecLen(name) < Pow256(2)
  {
    if RecLen(name) < Pow256(2) {
      RoundTripLE(RecLen(name), 2);
    } else {
      FromLEBound(LE(RecLen(name), 2));
    }
  }

  /** A name that long, if a file system has one. */
  lemma LongName() returns (name: seq<Byte>)
    ensures (forall i :: 0 <= i < |name| ==> name[i] != 0) && FromLE(LE(RecLen(name), 2)) != RecLen(name)
  {
    name := seq(65536, _ => 97);
    LengthFieldExact(name);
    assert Pow256(2) == 65536;
  }

  lemma {:induction false} CStringStops(name: seq<Byte>, rest: seq<Byte>)
    requires forall i :: 0 <= i < |name| ==> name[i] != 0
    ensures CString(name + [0] + rest) == name
  {
    var b := name + [0] + rest;
    if name != [] {
      CStringStops(name[1..], rest);
      assert b[1..] == name[1..] + [0] + rest;
    }
  }

  lemma EncodesDecodes(r: seq<Byte>, e: Dirent)
    requires Encodes(r, e) && Fits(e)
    ensures |r| >= HEADER && FromLE(r[16..18]) == |r| && DecodeOne(r) == e
  {
    RecLenBounds(e.name);
    hide RecLen;
    hide Pow256;
    hide LE;
    hide FromLE;
    RoundTripLE(e.ino, 8);
    RoundTripLE(e.off, 8);
    RoundTripLE(RecLen(e.name), 2);
    var rest := r[NAME_OFFSET + |e.name| + 1..];
    assert r[NAME_OFFSET..] == e.name + [0] + rest;
    CStringStops(e.name, rest);
  }

  /** The buffer holds the records of `es` one after another. */
  ghost predicate Packed(b: seq<Byte>, es: seq<Dirent>)
    decreases |es|
  {
    if es == [] then b == []
    else
      var n := |es| - 1;
      var len := RecLen(es[n].name);
      |b| >= len && Packed(b[..|b| - len], es[..n]) && Encodes(b[|b| - len..], es[n])
  }

  /** The bytes are records from end to end. */
  ghost predicate Whole(b: seq<Byte>)
    decreases |b|
  {
    b == [] || (|b| >= HEADER && HEADER <= FromLE(b[16..18]) <= |b| && Whole(b[FromLE(b[16..18])..]))
  }

  lemma DecodeFirst(b: seq<Byte>, len: nat)
    requires |b| >= HEADER && len == FromLE(b[16..18]) && HEADER <= len <= |b|
    ensures DecodeAll(b) == [DecodeOne(b[..len])] + DecodeAll(b[len..])
    ensures Whole(b) == Whole(b[len..])
  {
  }

  lemma WholeFirst(b: seq<Byte>)
    requires Whole(b) && b != []
    ensures |b| >= HEADER && HEADER <= FromLE(b[16..18]) <= |b|
  {
  }

  lemma DecodeSingle(r: seq<Byte>, e: Dirent)
    requires Encodes(r, e) && Fits(e)
    ensures DecodeAll(r) == [e] && Whole(r)
  {
    EncodesDecodes(r, e);
    DecodeFirst(r, |r|);
    DecodeNone();
    assert r[..|r|] == r && r[|r|..] == [];
  }

  lemma DecodeNone()
    ensures DecodeAll([]) == [] && Whole([])
  {
  }

  /** Behind whole records, decoding starts afresh. */
  lemma {:induction false} DecodeJoin(a: seq<Byte>, b: seq<Byte>)
    requires Whole(a)
    ensures DecodeAll(a + b) == DecodeAll(a) + DecodeAll(b) && Whole(a + b) == Whole(b)
    decreases |a|
  {
    hide FromLE;
    hide DecodeAll;
    hide Whole;
    hide DecodeOne;
    if a == [] {
      DecodeNone();
      assert a + b == b;
    } else {
      WholeFirst(a);
      var len := FromLE(a[16..18]);
      assert (a + b)[16..18] == a[16..18];
      assert (a + b)[..len] == a[..len] && (a + b)[len..] == a[len..] + b;
      DecodeFirst(a, len);
      DecodeFirst(a + b, len);
      DecodeJoin(a[len..], b);
    }
  }

  lemma {:induction false} CStringClean(b: seq<Byte>)
    ensures |CString(b)| <= |b| && forall i :: 0 <= i < |CString(b)| ==> CString(b)[i] != 0
  {
    if b != [] && b[0] != 0 {
      CStringClean(b[1..]);
    }
  }

  lemma SplitMod(n: nat)
    ensures n % 65536 == n % 256 + 256 * (n / 256 % 256)
  {
    var m := n / 256;
    var low, mid, high := n % 256, m % 256, m / 256;
    assert n == 65536 * high + (low + 256 * mid);
    assert 0 <= low + 256 * mid < 65536;
  }

  lemma LowBytes(n: nat)
    ensures FromLE(LE(n, 2)) == n % 65536
  {
    SplitMod(n);
    var b, m := LE(n, 2), n / 256;
    var low, high := n % 256, m % 256;
    assert LE(m, 1) == [high] && b == [low, high];
    hide LE;
    assert b[1..] == [high] && [high][1..] == [];
    assert FromLE([high]) == high;
  }

  lemma LongArithmetic(name: seq<Byte>)
    requires RecLen(name) >= 65536
    ensures RecLen(name) % 65536 < HEADER || RecLen(name) % 65536 < NAME_OFFSET + |name|
  {
    assert RecLen(name) < NAME_OFFSET + |name| + 1 + ALIGN;
  }

  /** The first record is read with the length that its field gives. */
  lemma DecodeStart(b: seq<Byte>, len: nat, e: Dirent)
    requires |b| >= HEADER && len == FromLE(b[16..18])
    requires HEADER <= len <= |b| ==> DecodeOne(b[..len]) != e
    ensures !([e] <= DecodeAll(b))
  {
    hide FromLE;
    hide DecodeOne;
    if HEADER <= len <= |b| {
      DecodeFirst(b, len);
      assert DecodeAll(b)[0] == DecodeOne(b[..len]);
    } else {
      assert DecodeAll(b) == [];
    }
  }

  /** A record whose length does not fit its field is cut short or not walked over. */
  lemma MisreadLong(r: seq<Byte>, e: Dirent, rest: seq<Byte>)
    requires Encodes(r, e) && RecLen(e.name) >= 65536
    ensures !([e] <= DecodeAll(r + rest))
  {
    hide LE;
    hide FromLE;
    hide DecodeAll;
    var b := r + rest;
    RecLenBounds(e.name);
    LongArithmetic(e.name);
    LowBytes(RecLen(e.name));
    hide RecLen;
    var len := RecLen(e.name) % 65536;
    assert b[16..18] == r[16..18];
    if HEADER <= len <= |b| { CStringClean(b[..len][NAME_OFFSET..]); }
    DecodeStart(b, len, e);
  }

  lemma FieldDiffers(r: seq<Byte>, e: Dirent)
    requires |r| >= HEADER
    requires e.ino >= Pow256(8) || e.off >= Pow256(8) || exists i :: 0 <= i < |e.name| && e.name[i] == 0
    ensures DecodeOne(r) != e
  {
    hide FromLE;
    hide Pow256;
    FromLEBound(r[0..8]);
    FromLEBound(r[8..16]);
    CStringClean(r[NAME_OFFSET..]);
  }

  lemma UnfitField(r: seq<Byte>, e: Dirent)
    requires Encodes(r, e) && !Fits(e) && RecLen(e.name) < 65536
    ensures |r| == RecLen(e.name) >= HEADER && FromLE(r[16..18]) == |r|
    ensures e.ino >= Pow256(8) || e.off >= Pow256(8) || exists i :: 0 <= i < |e.name| && e.name[i] == 0
  {
    assert Pow256(2) == 65536;
    hide RecLen;
    hide LE;
    hide FromLE;
    hide Pow256;
    RecLenBounds(e.name);
    LengthFieldExact(e.name);
  }

  /** A record with a number or a name that does not fit decodes to something else. */
  lemma MisreadField(r: seq<Byte>, e: Dirent, rest: seq<Byte>)
    requires Encodes(r, e) && !Fits(e) && RecLen(e.name) < 65536
    ensures !([e] <= DecodeAll(r + rest))
  {
    hide Encodes;
    hide Fits;
    hide RecLen;
    hide FromLE;
    hide Pow256;
    hide DecodeAll;
    hide DecodeOne;
    UnfitField(r, e);
    FieldDiffers(r, e);
    var b := r + rest;
    assert b[16..18] == r[16..18] && b[..|r|] == r;
    DecodeStart(b, |r|, e);
  }

  /** If some entry does not fit, the entries are not read back, whatever follows. */
  lemma {:induction false} Misreads(b: seq<Byte>, es: seq<Dirent>, rest: seq<Byte>)
    requires Packed(b, es) && !AllFit(es)
    ensures !(es <= DecodeAll(b + rest))
    decreases |es|
  {
    hide Encodes;
    hide Fits;
    hide RecLen;
    hide DecodeAll;
    hide Whole;
    hide Packed;
    PackedLast(b, es);
    var n := |es| - 1;
    var cut := |b| - RecLen(es[n].name);
    assert b + rest == b[..cut] + (b[cut..] + rest);
    if AllFit(es[..n]) {
      PackedWhole(b[..cut], es[..n]);
      DecodeJoin(b[..cut], b[cut..] + rest);
      if RecLen(es[n].name) >= 65536 {
        MisreadLong(b[cut..], es[n], rest);
      } else {
        MisreadField(b[cut..], es[n], rest);
      }
      NotPrefix(es[..n], es[n], DecodeAll(b[cut..] + rest));
      assert es == es[..n] + [es[n]];
    } else {
      Misreads(b[..cut], es[..n], b[cut..] + rest);
      assert es[..n] <= es;
    }
  }

  lemma NotPrefix(a: seq<Dirent>, x: Dirent, tail: seq<Dirent>)
    requires !([x] <= tail)
    ensures !(a + [x] <= a + tail)
  {
    assert (a + [x])[|a|] == x;
    assert tail != [] ==> (a + tail)[|a|] == tail[0];
  }

  ghost predicate AllFit(es: seq<Dirent>) {
    forall i :: 0 <= i < |es| ==> Fits(es[i])
  }

  lemma {:induction false} PackedWhole(b: seq<Byte>, es: seq<Dirent>)
    requires Packed(b, es) && AllFit(es)
    ensures DecodeAll(b) == es && Whole(b)
    decreases |es|
  {
    hide Packed;
    hide Encodes;
    hide Fits;
    hide RecLen;
    hide DecodeAll;
    hide Whole;
    PackedLast(b, es);
    if es == [] {
      DecodeNone();
    } else {
      var n := |es| - 1;
      var cut := |b| - RecLen(es[n].name);
      PackedWhole(b[..cut], es[..n]);
      DecodeJoin(b[..cut], b[cut..]);
      DecodeSingle(b[cut..], es[n]);
      assert b == b[..cut] + b[cut..] && es == es[..n] + [es[n]];
    }
  }

  /** Decoding packed records gives back the entries exactly if all of them fit. */
  lemma PackedDecodes(b: seq<Byte>, es: seq<Dirent>)
    requires Packed(b, es)
    ensures DecodeAll(b) == es <==> AllFit(es)
  {
    hide Packed;
    hide DecodeAll;
    if AllFit(es) {
      PackedWhole(b, es);
    } else {
      Misreads(b, es, []);
      assert b + [] == b;
    }
  }

  // ------------------------------------------------------------------- one call

  datatype Meta = Meta(ino: nat, kind: Byte)

  /** A name in a directory, and what looking it up gives (nothing if that fails). */
  datatype Child = Child(name: seq<Byte>, meta: Option<Meta>)

  const DOT: seq<Byte> := [46]
  const DOTDOT: seq<Byte> := [46, 46]

  function Resolve(name: seq<Byte>, self: Meta, parent: Option<Meta>, found: Option<Meta>): Child {
    Child(name,
          if name == DOT then Some(self)
          else if name == DOTDOT then Some(if parent.Some? then parent.value else self)
          else found)
  }

  /** What `SimpleDir::read_dir` enumerates: itself, its parent, then its children. */
  function Listing(self: Meta, parent: Option<Meta>, names: seq<(seq<Byte>, Option<Meta>)>): (dir: seq<Child>)
    ensures |dir| == |names| + 2 && dir[0] == Child(DOT, Some(self))
    ensures dir[1] == Child(DOTDOT, Some(if parent.Some? then parent.value else self))
    ensures forall i :: 0 <= i < |names| ==> dir[i + 2].name == names[i].0
    ensures forall i :: 0 <= i < |names| && names[i].0 != DOT && names[i].0 != DOTDOT ==> dir[i + 2].meta == names[i].1
  {
    [Resolve(DOT, self, parent, None), Resolve(DOTDOT, self, parent, None)] +
    seq(|names|, i requires 0 <= i < |names| => Resolve(names[i].0, self, parent, names[i].1))
  }

  /** The record for the child at index `i`; its offset is where to resume after it. */
  function Entry(c: Child, i: nat): Dirent {
    Dirent(if c.meta.Some? then c.meta.value.ino else 0, i + 1, if c.meta.Some? then c.meta.value.kind else 0, c.name)
  }

  function Entries(dir: seq<Child>, from: nat, to: nat): seq<Dirent>
    requires from <= to <= |dir|
  {
    if from == to then [] else Entries(dir, from, to - 1) + [Entry(dir[to - 1], to - 1)]
  }

  /** How far one call gets: the index of the first child from `off` on that cannot be
      looked up or does not fit the space left. */
  function Reach(dir: seq<Child>, off: nat, space: nat): (to: nat)
    requires off <= |dir|
    ensures off <= to <= |dir|
    decreases |dir| - off
  {
    if off == |dir| || dir[off].meta.None? || RecLen(dir[off].name) > space then off
    else Reach(dir, off + 1, space - RecLen(dir[off].name))
  }

  function Size(es: seq<Dirent>): nat {
    if es == [] then 0 else Size(es[..|es| - 1]) + RecLen(es[|es| - 1].name)
  }

  datatype Result = Ok(n: nat) | EINVAL | EFAULT | LookupError

  /** The caller's buffer: its length, and whether it can be written. */
  datatype Target = Target(len: nat, writable: bool)

  /** (The call's result, the directory offset it leaves.) */
  function Call(dir: seq<Child>, off: nat, buf: Target): (Result, nat) {
    if off >= |dir| then (if buf.writable then Ok(0) else EFAULT, off)
    else
      var to := Reach(dir, off, buf.len);
      if to < |dir| && dir[to].meta.None? then (LookupError, to)
      else if to == off then (EINVAL, off)
      else (if buf.writable then Ok(Size(Entries(dir, off, to))) else EFAULT, to)
  }

  lemma {:induction false} EntriesAt(dir: seq<Child>, from: nat, end: nat)
    requires from <= end <= |dir|
    ensures |Entries(dir, from, end)| == end - from
    ensures forall i :: from <= i < end ==> Entries(dir, from, end)[i - from] == Entry(dir[i], i)
    decreases end - from
  {
    if from < end {
      EntriesAt(dir, from, end - 1);
    }
  }

  /** The bytes of a call decode to the entries it covered exactly if these fit their
      fields and have no NUL in their names. */
  lemma CallDecodes(dir: seq<Child>, from: nat, end: nat, b: seq<Byte>)
    requires from <= end <= |dir| && Packed(b, Entries(dir, from, end))
    ensures DecodeAll(b) == Entries(dir, from, end) <==> forall i :: from <= i < end ==> Fits(Entry(dir[i], i))
  {
    hide Fits;
    hide Packed;
    hide Entries;
    hide DecodeAll;
    EntriesAt(dir, from, end);
    PackedDecodes(b, Entries(dir, from, end));
    if forall i :: from <= i < end ==> Fits(Entry(dir[i], i)) {
      forall k | 0 <= k < end - from ensures Fits(Entries(dir, from, end)[k]) {
        assert Fits(Entry(dir[from + k], from + k));
      }
    }
  }

  /** The numbers of the record at index `i` fit their fields, and the name has no NUL. */
  predicate ChildFits(c: Child, i: nat) {
    && (c.meta.Some? ==> c.meta.value.ino < Pow256(8)) && i + 1 < Pow256(8) && RecLen(c.name) < Pow256(2)
    && forall j :: 0 <= j < |c.name| ==> c.name[j] != 0
  }

  /** The record has the child's inode number, kind and name. */
  predicate Shows(d: Dirent, c: Child) {
    c.meta.Some? && d.ino == c.meta.value.ino && d.kind == c.meta.value.kind && d.name == c.name
  }

  /** A caller reads the bytes as the children from `from` to `end`, in order, each with the
      offset of the child after it. */
  ghost predicate Records(b: seq<Byte>, dir: seq<Child>, from: nat, end: nat)
    requires from <= end <= |dir|
  {
    var ds := DecodeAll(b);
    && |ds| == end - from
    && forall k :: 0 <= k < |ds| ==> Shows(ds[k], dir[from + k]) && ds[k].off == from + k + 1
  }

  /** What a call returns reads as the children it covered, exactly if these fit. */
  lemma CallRecords(dir: seq<Child>, from: nat, end: nat, b: seq<Byte>)
    requires from <= end <= |dir| && Packed(b, Entries(dir, from, end))
    requires forall i :: from <= i < end ==> dir[i].meta.Some?
    ensures Records(b, dir, from, end) <==> forall i :: from <= i < end ==> ChildFits(dir[i], i)
  {
    hide Packed;
    hide Entries;
    hide DecodeAll;
    hide Pow256;
    hide RecLen;
    EntriesAt(dir, from, end);
    CallDecodes(dir, from, end, b);
    assert forall i :: from <= i < end ==> (ChildFits(dir[i], i) <==> Fits(Entry(dir[i], i)));
    var ds, es := DecodeAll(b), Entries(dir, from, end);
    assert forall k :: 0 <= k < |es| ==> es[k] == Entry(dir[from + k], from + k);
    if Records(b, dir, from, end) {
      forall k | 0 <= k < |ds| ensures ds[k] == es[k] { }
      assert ds == es;
    }
  }

  lemma {:induction false} SizeTotal(dir: seq<Child>, from: nat, end: nat)
    requires from <= end <= |dir|
    ensures Size(Entries(dir, from, end)) == Total(dir, from, end)
    decreases end - from
  {
    if from < end {
      SizeTotal(dir, from, end - 1);
      TotalLast(dir, from, end);
      var es := Entries(dir, from, end);
      assert es[..|es| - 1] == Entries(dir, from, end - 1);
    }
  }

  lemma {:induction false} TotalLast(dir: seq<Child>, from: nat, end: nat)
    requires from < end <= |dir|
    ensures Total(dir, from, end) == Total(dir, from, end - 1) + RecLen(dir[end - 1].name)
    decreases end - from
  {
    if from < end - 1 { TotalLast(dir, from + 1, end); }
  }

  lemma {:induction false} ReachMost(dir: seq<Child>, off: nat, len: nat)
    requires off <= |dir|
    ensures var end := Reach(dir, off, len);
            && Total(dir, off, end) <= len
            && (end == |dir| || dir[end].meta.None? || Total(dir, off, end) + RecLen(dir[end].name) > len)
    decreases |dir| - off
  {
    hide RecLen;
    if off < |dir| && dir[off].meta.Some? && RecLen(dir[off].name) <= len {
      ReachMost(dir, off + 1, len - RecLen(dir[off].name));
    }
  }

  /** Exactly when a call fails and how; and that it returns as many records as fit. */
  lemma CallIff(dir: seq<Child>, off: nat, buf: Target)
    requires off <= |dir|
    ensures var (r, end) := Call(dir, off, buf);
            var bad := FirstBad(dir, off);
            && (r.LookupError? <==> bad < |dir| && Total(dir, off, bad) <= buf.len)
            && (r.EINVAL? <==> off < bad && RecLen(dir[off].name) > buf.len)
            && (r.EFAULT? <==> !r.LookupError? && !r.EINVAL? && !buf.writable)
            && off <= end <= bad
            && (r.Ok? ==>
                  && r.n == Total(dir, off, end) <= buf.len && (off < |dir| ==> off < end)
                  && (end == |dir| || Total(dir, off, end) + RecLen(dir[end].name) > buf.len))
  {
    hide RecLen;
    ReachIff(dir, off, buf.len);
    ReachMost(dir, off, buf.len);
    FirstBadIs(dir, off);
    LosesIff(dir, off, buf);
    SizeTotal(dir, off, Reach(dir, off, buf.len));
    assert Reach(dir, off, buf.len) > off <==> Packs(dir, off, buf.len);
  }

  // -------------------------------------------------------------- repeated calls

  /** What successive calls with these buffers return, all together, and
      the offset they leave. */
  function Session(dir: seq<Child>, off: nat, bufs: seq<Target>): (seq<Dirent>, nat)
    requires off <= |dir|
    decreases |bufs|
  {
    if bufs == [] then ([], off)
    else
      var (r, to) := Call(dir, off, bufs[0]);
      var rest := Session(dir, to, bufs[1..]);
      ((if r.Ok? then Entries(dir, off, to) else []) + rest.0, rest.1)
  }

  lemma {:induction false} EntriesJoin(dir: seq<Child>, a: nat, b: nat, c: nat)
    requires a <= b <= c <= |dir|
    ensures Entries(dir, a, b) + Entries(dir, b, c) == Entries(dir, a, c)
    decreases c - b
  {
    if b < c {
      EntriesJoin(dir, a, b, c - 1);
      var last := [Entry(dir[c - 1], c - 1)];
      assert Entries(dir, a, b) + Entries(dir, b, c) == (Entries(dir, a, b) + Entries(dir, b, c - 1)) + last;
    }
  }

  /** The first child from `off` on that cannot be looked up, or the end. */
  function FirstBad(dir: seq<Child>, off: nat): (j: nat)
    requires off <= |dir|
    ensures off <= j <= |dir|
    decreases |dir| - off
  {
    if off == |dir| || dir[off].meta.None? then off else FirstBad(dir, off + 1)
  }

  /** The space that the records of a stretch of children take. */
  function Total(dir: seq<Child>, from: nat, end: nat): nat
    requires from <= end <= |dir|
    decreases end - from
  {
    if from == end then 0 else RecLen(dir[from].name) + Total(dir, from + 1, end)
  }

  /** A call gets as far as the first child that cannot be looked up exactly if all
      records before it fit the buffer. */
  lemma {:induction false} ReachIff(dir: seq<Child>, off: nat, len: nat)
    requires off <= |dir|
    ensures Reach(dir, off, len) <= FirstBad(dir, off)
    ensures Reach(dir, off, len) == FirstBad(dir, off) <==> Total(dir, off, FirstBad(dir, off)) <= len
    decreases |dir| - off
  {
    hide RecLen;
    if off < |dir| && dir[off].meta.Some? && RecLen(dir[off].name) <= len {
      ReachIff(dir, off + 1, len - RecLen(dir[off].name));
    }
  }

  /** Some child cannot be looked up, and the records before it, one at least, all fit. */
  predicate Stumbles(dir: seq<Child>, off: nat, len: nat)
    requires off <= |dir|
  {
    var j := FirstBad(dir, off);
    off < j < |dir| && Total(dir, off, j) <= len
  }

  /** The first child can be looked up and its record fits. */
  predicate Packs(dir: seq<Child>, off: nat, len: nat)
    requires off <= |dir|
  {
    off < |dir| && dir[off].meta.Some? && RecLen(dir[off].name) <= len
  }

  /** What makes a call lose entries: a child that cannot be looked up after some that were
      packed, or a buffer that cannot be written when some were packed. */
  predicate Loses(dir: seq<Child>, off: nat, buf: Target)
    requires off <= |dir|
  {
    Stumbles(dir, off, buf.len) || (!buf.writable && Packs(dir, off, buf.len))
  }

  /** A call returns all entries that it moves the offset past, exactly unless a child cannot
      be looked up and the buffer has room for everything before it, or something was packed
      and the buffer cannot be written. */
  lemma LosesIff(dir: seq<Child>, off: nat, buf: Target)
    requires off <= |dir|
    ensures off <= Call(dir, off, buf).1 <= FirstBad(dir, off)
    ensures var (r, end) := Call(dir, off, buf);
            (if r.Ok? then Entries(dir, off, end) else []) == Entries(dir, off, end) <==> !Loses(dir, off, buf)
  {
    hide RecLen;
    ReachIff(dir, off, buf.len);
    FirstBadIs(dir, off);
    var end := Call(dir, off, buf).1;
    EntriesAt(dir, off, end);
    assert Reach(dir, off, buf.len) > off <==> Packs(dir, off, buf.len);
  }

  lemma {:induction false} FirstBadIs(dir: seq<Child>, off: nat)
    requires off <= |dir|
    ensures FirstBad(dir, off) < |dir| ==> dir[FirstBad(dir, off)].meta.None?
    ensures forall i :: off <= i < FirstBad(dir, off) ==> dir[i].meta.Some?
    ensures forall to :: off <= to <= FirstBad(dir, off) ==> FirstBad(dir, to) == FirstBad(dir, off)
    decreases |dir| - off
  {
    if off < |dir| && dir[off].meta.Some? {
      FirstBadIs(dir, off + 1);
    }
  }

  /** It happens: a directory with one child that cannot be looked up never shows itself
      and its parent either, because the failing call has moved past them. */
  lemma LosesEntries(self: Meta, name: seq<Byte>)
    requires name != DOT && name != DOTDOT
    ensures var dir := Listing(self, None, [(name, None)]);
            var buf := Target(48, true);
            Loses(dir, 0, buf) && Call(dir, 0, buf) == (LookupError, 2) && Call(dir, 2, buf) == (LookupError, 2)
  {
    var dir := Listing(self, None, [(name, None)]);
    assert RecLen(DOT) == 24 && RecLen(DOTDOT) == 24;
    assert dir[2].meta.None?;
    assert FirstBad(dir, 2) == 2 && FirstBad(dir, 1) == 2 && FirstBad(dir, 0) == 2;
    assert Total(dir, 2, 2) == 0 && Total(dir, 1, 2) == 24 && Total(dir, 0, 2) == 48;
    assert Reach(dir, 2, 0) == 2 && Reach(dir, 1, 24) == 2 && Reach(dir, 0, 48) == 2;
  }

  /** So does an empty directory with a buffer that cannot be written. */
  lemma LosesUnwritten(self: Meta)
    ensures var dir := Listing(self, None, []);
            var buf := Target(48, false);
            Loses(dir, 0, buf) && Call(dir, 0, buf) == (EFAULT, 2) && Call(dir, 2, Target(48, true)) == (Ok(0), 2)
  {
    var dir := Listing(self, None, []);
    assert RecLen(DOT) == 24 && RecLen(DOTDOT) == 24;
    assert Reach(dir, 2, 0) == 2 && Reach(dir, 1, 24) == 2 && Reach(dir, 0, 48) == 2;
  }

  /** Some call of the session loses entries. */
  predicate SessionLoses(dir: seq<Child>, off: nat, bufs: seq<Target>)
    requires off <= |dir|
    decreases |bufs|
  {
    bufs != [] && (Loses(dir, off, bufs[0]) || (LosesIff(dir, off, bufs[0]);
                                               SessionLoses(dir, Call(dir, off, bufs[0]).1, bufs[1..])))
  }

  lemma {:induction false} SessionShort(dir: seq<Child>, off: nat, bufs: seq<Target>)
    requires off <= |dir|
    ensures off <= Session(dir, off, bufs).1 <= |dir|
    ensures |Session(dir, off, bufs).0| <= Session(dir, off, bufs).1 - off
    ensures SessionLoses(dir, off, bufs) ==> |Session(dir, off, bufs).0| < Session(dir, off, bufs).1 - off
    decreases |bufs|
  {
    hide Loses;
    if bufs != [] {
      LosesIff(dir, off, bufs[0]);
      var to := Call(dir, off, bufs[0]).1;
      EntriesAt(dir, off, to);
      hide Call;
      SessionShort(dir, to, bufs[1..]);
    }
  }

  lemma {:induction false} SessionWhole(dir: seq<Child>, off: nat, bufs: seq<Target>)
    requires off <= |dir| && !SessionLoses(dir, off, bufs)
    ensures off <= Session(dir, off, bufs).1 <= |dir|
    ensures Session(dir, off, bufs).0 == Entries(dir, off, Session(dir, off, bufs).1)
    decreases |bufs|
  {
    hide Loses;
    hide Call;
    if bufs != [] {
      LosesIff(dir, off, bufs[0]);
      var to := Call(dir, off, bufs[0]).1;
      SessionWhole(dir, to, bufs[1..]);
      EntriesJoin(dir, off, to, Session(dir, to, bufs[1..]).1);
    }
  }

  /** Whatever the buffer sizes, successive calls return consecutive entries, each one
      once and in order, none skipped: exactly if none of the calls loses entries, which
      none does if all children can be looked up and all buffers written. */
  lemma SessionConsecutive(dir: seq<Child>, off: nat, bufs: seq<Target>)
    requires off <= |dir|
    ensures off <= Session(dir, off, bufs).1 <= |dir|
    ensures Session(dir, off, bufs).0 == Entries(dir, off, Session(dir, off, bufs).1) <==> !SessionLoses(dir, off, bufs)
    ensures FirstBad(dir, off) == |dir| && Writable(bufs) ==> !SessionLoses(dir, off, bufs)
  {
    hide Session;
    hide SessionLoses;
    SessionShort(dir, off, bufs);
    EntriesAt(dir, off, Session(dir, off, bufs).1);
    if !SessionLoses(dir, off, bufs) { SessionWhole(dir, off, bufs); }
    if FirstBad(dir, off) == |dir| && Writable(bufs) { SessionSafe(dir, off, bufs); }
  }

  lemma {:induction false} SessionSafe(dir: seq<Child>, off: nat, bufs: seq<Target>)
    requires off <= |dir| && FirstBad(dir, off) == |dir| && Writable(bufs)
    ensures !SessionLoses(dir, off, bufs)
    decreases |bufs|
  {
    hide Call;
    if bufs != [] {
      LosesIff(dir, off, bufs[0]);
      FirstBadIs(dir, off);
      SessionSafe(dir, Call(dir, off, bufs[0]).1, bufs[1..]);
    }
  }

  ghost predicate Writable(bufs: seq<Target>) {
    forall j :: 0 <= j < |bufs| ==> bufs[j].writable
  }

  /** Every buffer holds any one entry. */
  ghost predicate Ample(dir: seq<Child>, bufs: seq<Target>) {
    forall i, j :: 0 <= i < |dir| && 0 <= j < |bufs| ==> RecLen(dir[i].name) <= bufs[j].len
  }

  lemma CallAdvances(dir: seq<Child>, off: nat, buf: Target)
    requires off < |dir| && off < FirstBad(dir, off) && RecLen(dir[off].name) <= buf.len
    ensures off < Call(dir, off, buf).1
  {
    hide RecLen;
    LosesIff(dir, off, buf);
    assert Reach(dir, off, buf.len) > off;
  }

  /** With buffers that hold any one entry, as many calls as entries get to the first
      child that cannot be looked up, and stay there. */
  lemma {:induction false} SessionEnds(dir: seq<Child>, off: nat, bufs: seq<Target>)
    requires off <= |dir| && Ample(dir, bufs) && |bufs| >= FirstBad(dir, off) - off
    ensures Session(dir, off, bufs).1 == FirstBad(dir, off)
    decreases |bufs|
  {
    hide Call;
    hide RecLen;
    FirstBadIs(dir, off);
    if bufs != [] {
      LosesIff(dir, off, bufs[0]);
      if off < FirstBad(dir, off) { CallAdvances(dir, off, bufs[0]); }
      SessionEnds(dir, Call(dir, off, bufs[0]).1, bufs[1..]);
    }
  }

  /** With buffers that hold any one entry, as many calls as entries return the whole
      listing exactly if all children can be looked up and no buffer that entries were
      packed for was unwritable; the calls after that return 0, or an error. */
  lemma SessionCompletes(dir: seq<Child>, off: nat, bufs: seq<Target>)
    requires off <= |dir| && Ample(dir, bufs) && |bufs| >= |dir| - off
    ensures Session(dir, off, bufs) == (Entries(dir, off, |dir|), |dir|) <==>
            FirstBad(dir, off) == |dir| && !SessionLoses(dir, off, bufs)
    ensures Writable(bufs) ==>
              (Session(dir, off, bufs) == (Entries(dir, off, |dir|), |dir|) <==> FirstBad(dir, off) == |dir|)
    ensures forall buf :: Call(dir, FirstBad(dir, off), buf) ==
                          (if FirstBad(dir, off) < |dir| then LookupError else if buf.writable then Ok(0) else EFAULT,
                           FirstBad(dir, off))
  {
    hide Session;
    hide SessionLoses;
    SessionEnds(dir, off, bufs);
    SessionConsecutive(dir, off, bufs);
    FirstBadIs(dir, off);
  }

  /** What the calls of a session wrote: each the packed records of what it covered. */
  ghost predicate Outputs(dir: seq<Child>, off: nat, bufs: seq<Target>, outs: seq<seq<Byte>>)
    requires off <= |dir|
    decreases |bufs|
  {
    && |outs| == |bufs|
    && (bufs != [] ==>
          var (r, to) := Call(dir, off, bufs[0]);
          Packed(outs[0], if r.Ok? then Entries(dir, off, to) else []) && Outputs(dir, to, bufs[1..], outs[1..]))
  }

  function Concat(outs: seq<seq<Byte>>): seq<Byte> {
    if outs == [] then [] else outs[0] + Concat(outs[1..])
  }

  lemma PackedLast(b: seq<Byte>, es: seq<Dirent>)
    requires Packed(b, es)
    ensures es == [] ==> b == []
    ensures es != [] ==>
              var n := |es| - 1;
              var cut := |b| - RecLen(es[n].name);
              cut >= 0 && Packed(b[..cut], es[..n]) && Encodes(b[cut..], es[n])
  {
    hide RecLen;
    hide Encodes;
  }

  lemma {:induction false} PackedJoin(a: seq<Byte>, es: seq<Dirent>, b: seq<Byte>, fs: seq<Dirent>)
    requires Packed(a, es) && Packed(b, fs)
    ensures Packed(a + b, es + fs)
    decreases |fs|
  {
    hide Packed;
    hide Encodes;
    hide RecLen;
    PackedLast(b, fs);
    if fs == [] {
      assert a + b == a && es + fs == es;
    } else {
      var n := |fs| - 1;
      var cut := |b| - RecLen(fs[n].name);
      PackedJoin(a, es, b[..cut], fs[..n]);
      PackedMore(a + b[..cut], es + fs[..n], b[cut..], fs[n]);
      assert a + b == a + b[..cut] + b[cut..] && es + fs == es + fs[..n] + [fs[n]];
    }
  }

  lemma {:induction false} SessionPacked(dir: seq<Child>, off: nat, bufs: seq<Target>, outs: seq<seq<Byte>>)
    requires off <= |dir| && Outputs(dir, off, bufs, outs)
    ensures Packed(Concat(outs), Session(dir, off, bufs).0)
    decreases |bufs|
  {
    hide Packed;
    hide Call;
    if bufs == [] {
      PackedNone();
    } else {
      LosesIff(dir, off, bufs[0]);
      var (r, to) := Call(dir, off, bufs[0]);
      SessionPacked(dir, to, bufs[1..], outs[1..]);
      var es := if r.Ok? then Entries(dir, off, to) else [];
      PackedJoin(outs[0], es, Concat(outs[1..]), Session(dir, to, bufs[1..]).0);
    }
  }

  /** The bytes of all calls of a session, one after another, decode to the entries that
      the session returned, exactly if these fit their fields and have no NUL. */
  lemma SessionDecodes(dir: seq<Child>, off: nat, bufs: seq<Target>, outs: seq<seq<Byte>>)
    requires off <= |dir| && Outputs(dir, off, bufs, outs)
    ensures DecodeAll(Concat(outs)) == Session(dir, off, bufs).0 <==> AllFit(Session(dir, off, bufs).0)
  {
    hide Packed;
    hide DecodeAll;
    SessionPacked(dir, off, bufs, outs);
    PackedDecodes(Concat(outs), Session(dir, off, bufs).0);
  }

  lemma {:induction false} SessionBound(dir: seq<Child>, off: nat, bufs: seq<Target>)
    requires off <= |dir|
    ensures off <= Session(dir, off, bufs).1 <= FirstBad(dir, off)
    decreases |bufs|
  {
    hide Call;
    if bufs != [] {
      LosesIff(dir, off, bufs[0]);
      FirstBadIs(dir, off);
      SessionBound(dir, Call(dir, off, bufs[0]).1, bufs[1..]);
    }
  }

  /** What a session that loses nothing returns reads as the children it has gone past,
      exactly if these fit. */
  lemma SessionRecords(dir: seq<Child>, off: nat, bufs: seq<Target>, outs: seq<seq<Byte>>)
    requires off <= |dir| && Outputs(dir, off, bufs, outs) && !SessionLoses(dir, off, bufs)
    ensures off <= Session(dir, off, bufs).1 <= |dir|
    ensures Records(Concat(outs), dir, off, Session(dir, off, bufs).1) <==>
            forall i :: off <= i < Session(dir, off, bufs).1 ==> ChildFits(dir[i], i)
  {
    hide Packed;
    hide Session;
    hide SessionLoses;
    hide Records;
    SessionConsecutive(dir, off, bufs);
    SessionPacked(dir, off, bufs, outs);
    SessionBound(dir, off, bufs);
    FirstBadIs(dir, off);
    CallRecords(dir, off, Session(dir, off, bufs).1, Concat(outs));
  }

  /** The offset in a record is where to go on after it: a session from there that loses
      nothing reads as the children that follow the record's own, exactly if these fit. */
  lemma ResumeAfter(dir: seq<Child>, from: nat, end: nat, b: seq<Byte>, i: nat, bufs: seq<Target>, outs: seq<seq<Byte>>)
    requires from <= i < end <= |dir| && Records(b, dir, from, end)
    requires var next := DecodeAll(b)[i - from].off;
             next <= |dir| ==> Outputs(dir, next, bufs, outs) && !SessionLoses(dir, next, bufs)
    ensures var next := DecodeAll(b)[i - from].off;
            && next <= |dir| && i + 1 <= Session(dir, next, bufs).1 <= |dir|
            && (Records(Concat(outs), dir, i + 1, Session(dir, next, bufs).1) <==>
                forall j :: i < j < Session(dir, next, bufs).1 ==> ChildFits(dir[j], j))
  {
    assert DecodeAll(b)[i - from].off == i + 1;
    hide DecodeAll;
    hide Records;
    SessionRecords(dir, i + 1, bufs, outs);
  }

  // ---------------------------------------------------------------------- code

  /** `bytes` written over `b` from index `at` on. */
  function Overwrite(b: seq<Byte>, at: nat, bytes: seq<Byte>): (r: seq<Byte>)
    requires at + |bytes| <= |b|
    ensures |r| == |b|
  {
    b[..at] + bytes + b[at + |bytes|..]
  }

  lemma OverwriteAt(b: seq<Byte>, at: nat, bytes: seq<Byte>, k: nat)
    requires at + |bytes| <= |b| && k < |b|
    ensures Overwrite(b, at, bytes)[k] == if at <= k < at + |bytes| then bytes[k - at] else b[k]
  {
  }

  function Header(e: Dirent, pad: seq<Byte>): (h: seq<Byte>)
    ensures |h| == NAME_OFFSET + |pad|
  {
    LE(e.ino, 8) + LE(e.off, 8) + LE(RecLen(e.name), 2) + [e.kind] + pad
  }

  lemma HeaderFields(e: Dirent, pad: seq<Byte>)
    ensures var h := Header(e, pad);
            h[0..8] == LE(e.ino, 8) && h[8..16] == LE(e.off, 8) && h[16..18] == LE(RecLen(e.name), 2) && h[18] == e.kind
  {
    hide LE;
    hide RecLen;
  }

  /** Header, name and NUL, as they end up in the buffer. */
  function Written(b: seq<Byte>, at: nat, e: Dirent, pad: seq<Byte>): (r: seq<Byte>)
    requires |pad| == HEADER - NAME_OFFSET && at + HEADER <= |b| && at + NAME_OFFSET + |e.name| + 1 <= |b|
    ensures |r| == |b|
  {
    var b1 := Overwrite(b, at, Header(e, pad));
    var b2 := Overwrite(b1, at + NAME_OFFSET, e.name);
    Overwrite(b2, at + NAME_OFFSET + |e.name|, [0])
  }

  lemma WrittenAt(b: seq<Byte>, at: nat, e: Dirent, pad: seq<Byte>, k: nat)
    requires |pad| == HEADER - NAME_OFFSET && at + HEADER <= |b| && at + NAME_OFFSET + |e.name| + 1 <= |b| && k < |b|
    ensures Written(b, at, e, pad)[k] ==
            if k < at then b[k]
            else if k < at + NAME_OFFSET then Header(e, pad)[k - at]
            else if k < at + NAME_OFFSET + |e.name| then e.name[k - at - NAME_OFFSET]
            else if k == at + NAME_OFFSET + |e.name| then 0
            else if k < at + HEADER then Header(e, pad)[k - at]
            else b[k]
  {
    hide Header;
    hide Overwrite;
    var b1 := Overwrite(b, at, Header(e, pad));
    var b2 := Overwrite(b1, at + NAME_OFFSET, e.name);
    OverwriteAt(b, at, Header(e, pad), k);
    OverwriteAt(b1, at + NAME_OFFSET, e.name, k);
    OverwriteAt(b2, at + NAME_OFFSET + |e.name|, [0], k);
  }

  /** The three writes leave the record in place and touch nothing outside it. */
  lemma WritesEncode(b: seq<Byte>, at: nat, e: Dirent, pad: seq<Byte>)
    requires at + RecLen(e.name) <= |b| && |pad| == HEADER - NAME_OFFSET
    ensures at + HEADER <= |b| && at + NAME_OFFSET + |e.name| + 1 <= |b|
    ensures var b' := Written(b, at, e, pad);
            && b'[..at] == b[..at] && b'[at + RecLen(e.name)..] == b[at + RecLen(e.name)..]
            && Encodes(b'[at..at + RecLen(e.name)], e)
  {
    RecLenBounds(e.name);
    HeaderFields(e, pad);
    hide LE;
    hide RecLen;
    hide Header;
    hide Written;
    var n, h, b', name := RecLen(e.name), Header(e, pad), Written(b, at, e, pad), NAME_OFFSET;
    forall k | 0 <= k < |b| && !(at <= k < at + n) ensures b'[k] == b[k] { WrittenAt(b, at, e, pad, k); }
    var r := b'[at..at + n];
    forall j | 0 <= j < name ensures r[j] == h[j] { WrittenAt(b, at, e, pad, at + j); }
    assert r[0..8] == h[0..8] && r[8..16] == h[8..16] && r[16..18] == h[16..18];
    forall j | 0 <= j < |e.name| ensures r[name + j] == e.name[j] { WrittenAt(b, at, e, pad, at + name + j); }
    assert r[name..name + |e.name|] == e.name;
    WrittenAt(b, at, e, pad, at + name + |e.name|);
  }

  lemma PackedMore(b: seq<Byte>, es: seq<Dirent>, r: seq<Byte>, e: Dirent)
    requires Packed(b, es) && Encodes(r, e)
    ensures Packed(b + r, es + [e])
  {
    assert (es + [e])[..|es|] == es;
    assert (b + r)[..|b|] == b && (b + r)[|b|..] == r;
  }

  lemma PackedNone()
    ensures Packed([], []) && Size([]) == 0
  {
  }

  class DirBuffer {
    var buf: array<Byte>
    var offset: nat

    ghost predicate Valid()
      reads this
    {
      offset <= buf.Length
    }

    constructor (len: nat)
      ensures Valid() && fresh(buf) && buf.Length == len && offset == 0
    {
      buf := new Byte[len](_ => 0);
      offset := 0;
    }

    method Blit(at: nat, bytes: seq<Byte>)
      requires at + |bytes| <= buf.Length
      modifies buf
      ensures buf[..] == Overwrite(old(buf[..]), at, bytes)
    {
      forall j | 0 <= j < |bytes| { buf[at + j] := bytes[j]; }
    }

    /** `write_entry`: a header of the structure's full size (`pad` is what its padding
        happens to hold), the name over its tail, and a NUL; all within the record. */
    method WriteEntry(e: Dirent, pad: seq<Byte>) returns (ok: bool)
      requires Valid() && |pad| == HEADER - NAME_OFFSET
      modifies this`offset, buf
      ensures Valid() && ok == (RecLen(e.name) <= buf.Length - old(offset))
      ensures offset == old(offset) + if ok then RecLen(e.name) else 0
      ensures buf[..][..old(offset)] == old(buf[..])[..old(offset)] && buf[..][offset..] == old(buf[..])[offset..]
      ensures ok ==> Encodes(buf[..][old(offset)..offset], e)
    {
      hide RecLen;
      hide Encodes;
      hide Overwrite;
      hide Header;
      var len := RecLen(e.name);
      if buf.Length - offset < len { return false; }
      WritesEncode(buf[..], offset, e, pad);
      Blit(offset, Header(e, pad));
      Blit(offset + NAME_OFFSET, e.name);
      Blit(offset + NAME_OFFSET + |e.name|, [0]);
      offset := offset + len;
      ok := true;
    }

    /** The sink's view: one more packed record, or no room and nothing changed. */
    method Accept(e: Dirent, pad: seq<Byte>, ghost es: seq<Dirent>) returns (ok: bool)
      requires Valid() && |pad| == HEADER - NAME_OFFSET
      requires Packed(buf[..][..offset], es) && offset == Size(es)
      modifies this`offset, buf
      ensures Valid() && ok == (RecLen(e.name) <= buf.Length - old(offset))
      ensures var es' := if ok then es + [e] else es; Packed(buf[..][..offset], es') && offset == Size(es')
      ensures offset == old(offset) + if ok then RecLen(e.name) else 0
    {
      hide Packed;
      hide RecLen;
      hide Encodes;
      ghost var before := buf[..][..offset];
      ok := WriteEntry(e, pad);
      if ok {
        ghost var record := buf[..][|before|..offset];
        assert buf[..][..offset] == before + record;
        PackedMore(before, es, record, e);
      }
    }
  }

  lemma {:induction false} SizeGrows(dir: seq<Child>, from: nat, to: nat)
    requires from <= to <= |dir|
    ensures from < to ==> Size(Entries(dir, from, to)) > 0
  {
    if from < to {
      RecLenBounds(dir[to - 1].name);
    }
  }

  class Directory {
    var offset: nat

    /** `sys_getdents64` over `read_dir`: the bytes returned are the packed records of
        the entries the offset has moved past. */
    method SysGetdents64(dir: seq<Child>, target: Target, pad: seq<Byte>) returns (r: Result, out: seq<Byte>)
      requires |pad| == HEADER - NAME_OFFSET
      modifies this
      ensures r == Call(dir, old(offset), target).0 && offset == Call(dir, old(offset), target).1
      ensures r.Ok? ==> |out| == target.len && r.n <= target.len
      ensures r.Ok? && old(offset) < |dir| ==> offset <= |dir| && Packed(out[..r.n], Entries(dir, old(offset), offset))
      ensures r.Ok? && old(offset) < |dir| ==>
                (Records(out[..r.n], dir, old(offset), offset) <==>
                 forall i :: old(offset) <= i < offset ==> ChildFits(dir[i], i))
    {
      hide Packed;
      hide RecLen;
      hide Size;
      hide Records;
      var len := target.len;
      if offset >= |dir| {
        if !target.writable { return EFAULT, []; }
        return Ok(0), seq(len, _ => 0);
      }
      var buffer := new DirBuffer(len);
      ghost var start := offset;
      PackedNone();
      var i, more, hasRemaining := offset, true, false;
      while i < |dir| && more
        invariant start <= i == offset <= |dir|
        invariant buffer.Valid() && fresh(buffer) && fresh(buffer.buf) && buffer.buf.Length == len
        invariant Packed(buffer.buf[..][..buffer.offset], Entries(dir, start, i))
        invariant buffer.offset == Size(Entries(dir, start, i))
        invariant Reach(dir, start, len) == if more then Reach(dir, i, len - buffer.offset) else i
        invariant !more ==> i < |dir| && dir[i].meta.Some?
        invariant forall j :: start <= j < i ==> dir[j].meta.Some?
        invariant hasRemaining == (i > start || !more)
        decreases |dir| - i, more
      {
        if dir[i].meta.None? {
          return LookupError, [];
        }
        hasRemaining := true;
        more := buffer.Accept(Entry(dir[i], i), pad, Entries(dir, start, i));
        if more {
          offset := i + 1;
          i := i + 1;
        }
      }
      SizeGrows(dir, start, i);
      if hasRemaining && buffer.offset == 0 {
        return EINVAL, [];
      }
      if !target.writable { return EFAULT, []; }
      r, out := Ok(buffer.offset), buffer.buf[..];
      CallRecords(dir, start, i, out[..r.n]);
    }
  }
}
