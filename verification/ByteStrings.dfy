/** Go's strings: bytes, and the order its sort package puts them in. */
module ByteStrings {
  import opened Sorting

  type byte = b: int | 0 <= b < 256

  type Bytes = seq<byte>

  /** Go's string order, byte by byte. */
  predicate Le(a: Bytes, b: Bytes) {
    a == [] || (b != [] && (a[0] < b[0] || (a[0] == b[0] && Le(a[1..], b[1..]))))
  }

  lemma {:induction false} LeTotal(a: Bytes, b: Bytes)
    ensures Le(a, b) || Le(b, a)
  {
    if a != [] && b != [] && a[0] == b[0] { LeTotal(a[1..], b[1..]); }
  }

  lemma {:induction false} LeTransitive(a: Bytes, b: Bytes, c: Bytes)
    requires Le(a, b) && Le(b, c)
    ensures Le(a, c)
  {
    if a != [] && a[0] == b[0] && b[0] == c[0] { LeTransitive(a[1..], b[1..], c[1..]); }
  }

  lemma {:induction false} LeAntisymmetric(a: Bytes, b: Bytes)
    requires Le(a, b) && Le(b, a)
    ensures a == b
  {
    if a != [] {
      LeAntisymmetric(a[1..], b[1..]);
      assert a == [a[0]] + a[1..] && b == [b[0]] + b[1..];
    }
  }

  /** `a` and `b` agree on `i` bytes, and there `a` ends or has the smaller byte. */
  predicate LessAt(a: Bytes, b: Bytes, i: nat) {
    i <= |a| && i <= |b| && a[..i] == b[..i] && (i == |a| || (i < |b| && a[i] < b[i]))
  }

  /** The order is that of the first byte in which two strings differ. */
  lemma {:induction false} LeIsLexicographic(a: Bytes, b: Bytes)
    ensures Le(a, b) <==> exists i: nat :: LessAt(a, b, i)
  {
    if a == [] {
      assert LessAt(a, b, 0);
    } else if b != [] {
      LeIsLexicographic(a[1..], b[1..]);
      if a[0] < b[0] { assert LessAt(a, b, 0); }
      if a[0] == b[0] && Le(a, b) {
        var i: nat :| LessAt(a[1..], b[1..], i);
        assert a[..i + 1] == [a[0]] + a[1..][..i] && b[..i + 1] == [b[0]] + b[1..][..i];
        assert LessAt(a, b, i + 1);
      }
      if i: nat :| LessAt(a, b, i) && i > 0 {
        assert a[..i][0] == b[..i][0];
        assert a[..i][1..] == a[1..][..i - 1] && b[..i][1..] == b[1..][..i - 1];
        assert LessAt(a[1..], b[1..], i - 1);
      }
    }
  }

  /** The bytes of a string of ASCII characters. */
  function Ascii(s: string): (r: Bytes)
    ensures |r| == |s|
  {
    seq(|s|, i requires 0 <= i < |s| => if s[i] as int < 128 then s[i] as byte else 63)
  }

  lemma AsciiConcat(s: string, t: string)
    ensures Ascii(s + t) == Ascii(s) + Ascii(t)
  {
  }

  lemma LeOrders()
    ensures TotalPreorder(Le) && Antisymmetric(Le) && forall x :: Le(x, x)
  {
    forall x, y ensures Le(x, y) || Le(y, x) { LeTotal(x, y); }
    forall x, y, z | Le(x, y) && Le(y, z) ensures Le(x, z) { LeTransitive(x, y, z); }
    forall x, y | Le(x, y) && Le(y, x) ensures x == y { LeAntisymmetric(x, y); }
    forall x ensures Le(x, x) { LeTotal(x, x); }
  }
}
