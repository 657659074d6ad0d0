/** Small vocabulary shared by the component models. */
module Base {
  datatype Option<+T> = None | Some(value: T)

  type Byte = b: int | 0 <= b < 256

  function Min(a: nat, b: nat): (r: nat)
    ensures r <= a && r <= b && (r == a || r == b)
  {
    if a <= b then a else b
  }

  /** No value occurs at two positions. */
  ghost predicate NoDup<T>(s: seq<T>) {
    forall i, j :: 0 <= i < j < |s| ==> s[i] != s[j]
  }

  /** A mask of one bit. */
  predicate OneBit(m: bv32) {
    m != 0 && m & (m - 1) == 0
  }

  /** The bit of `m` is in both. */
  predicate Common(x: bv32, y: bv32, m: bv32) {
    OneBit(m) && x & m == m && y & m == m
  }

  lemma LowestBit(x: bv32, y: bv32)
    requires x & y != 0
    ensures Common(x, y, (x & y) & (0 - (x & y)))
  {
  }

  lemma CommonBit(x: bv32, y: bv32, m: bv32)
    requires Common(x, y, m)
    ensures x & y != 0
  {
  }

  /** Two bit masks meet exactly if some bit is in both. */
  lemma CommonIff(x: bv32, y: bv32)
    ensures x & y != 0 <==> exists m :: Common(x, y, m)
  {
    hide Common;
    if x & y != 0 {
      LowestBit(x, y);
    } else if m :| Common(x, y, m) {
      CommonBit(x, y, m);
    }
  }

  /** Some element of a set, no matter which. */
  method Pick<T>(s: set<T>) returns (x: T)
    requires s != {}
    ensures x in s
  {
    x :| x in s;
  }
}
