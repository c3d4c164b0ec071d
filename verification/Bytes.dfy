/**
 Byte strings, 32-byte hashes and the lexicographic order on them.

 The program keeps hashes as 64 lower-case hexadecimal characters. The order of such
 strings is the order of the byte strings they spell, so a hash is modelled by its bytes.
 */
module Bytes {

  datatype Option<+T> = None | Some(value: T)

  type Byte = b: int | 0 <= b < 256

  type Hash = h: seq<Byte> | |h| == 32 witness seq(32, _ => 0)

  const ZERO_HASH: Hash := [0, 0, 0, 0, 0, 0, 0, 0, 0, 0, 0, 0, 0, 0, 0, 0,
                            0, 0, 0, 0, 0, 0, 0, 0, 0, 0, 0, 0, 0, 0, 0, 0]

  /** Strict lexicographic order; a proper prefix is smaller. */
  predicate Less(a: seq<Byte>, b: seq<Byte>)
  {
    b != [] && (a == [] || a[0] < b[0] || (a[0] == b[0] && Less(a[1..], b[1..])))
  }

  lemma {:induction false} LessIrreflexive(a: seq<Byte>)
    ensures !Less(a, a)
  {
    if a != [] {
      LessIrreflexive(a[1..]);
    }
  }

  lemma {:induction false} LessTransitive(a: seq<Byte>, b: seq<Byte>, c: seq<Byte>)
    requires Less(a, b) && Less(b, c)
    ensures Less(a, c)
  {
    if a != [] && a[0] == b[0] == c[0] {
      LessTransitive(a[1..], b[1..], c[1..]);
    }
  }

  lemma {:induction false} LessTotal(a: seq<Byte>, b: seq<Byte>)
    ensures Less(a, b) || a == b || Less(b, a)
  {
    if a != [] && b != [] {
      LessTotal(a[1..], b[1..]);
      assert a == [a[0]] + a[1..] && b == [b[0]] + b[1..];
    }
  }

  /** The hexadecimal digit at position `i` of a hash. */
  function HexDigit(h: Hash, i: nat): (d: int)
    requires i < 64
    ensures 0 <= d < 16
  {
    if i % 2 == 0 then h[i / 2] / 16 else h[i / 2] % 16
  }

  /** The hexadecimal form of `h` starts with `n` zeros. */
  predicate LeadingZeros(h: Hash, n: int)
  {
    n <= 64 && forall i | 0 <= i < n :: HexDigit(h, i) == 0
  }

  predicate Distinct<T(==)>(s: seq<T>)
  {
    forall i, j | 0 <= i < j < |s| :: s[i] != s[j]
  }

  function Without<T>(s: seq<T>, k: nat): (r: seq<T>)
    requires k < |s|
    ensures |r| == |s| - 1
  {
    s[..k] + s[k + 1..]
  }
}
