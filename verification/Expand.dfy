/** resthttp/resthttp.go, Expand: filling `{{rand:lo:hi}}` and `{{hex}}` by rewriting
    the first marker and scanning again from the start, against one pass from left
    to right. */
module Expand {
  import opened Options

  const RAND := "{{rand:"
  const CLOSE := "}}"
  const HEX := "{{hex}}"

  const MAX_INT64: int := 0x7FFF_FFFF_FFFF_FFFF
  const TWO_TO_THE_64: int := 0x1_0000_0000_0000_0000

  type int64 = x: int | -MAX_INT64 - 1 <= x <= MAX_INT64

  /** What Sscanf("%d:%d") stored, if anything; its own grammar is not modelled. */
  datatype Scanned = Scanned(lo: Option<int64>, hi: Option<int64>)

  type Scan = string -> Scanned

  /** The n-th raw draw; a bounded draw reduces it. */
  type Rng = nat -> nat

  // ----- searching

  predicate At(s: string, m: string, i: int) {
    0 <= i && i + |m| <= |s| && s[i..i + |m|] == m
  }

  /** The first position of `m` at or after `i`, or -1. */
  function IndexFrom(s: string, m: string, i: nat): (r: int)
    ensures r == -1 ==> forall k :: i <= k ==> !At(s, m, k)
    ensures r != -1 ==> i <= r && At(s, m, r) && forall k :: i <= k < r ==> !At(s, m, k)
    decreases |s| - i
  {
    if |s| < i then -1
    else if At(s, m, i) then i
    else if i == |s| then -1
    else IndexFrom(s, m, i + 1)
  }

  function Index(s: string, m: string): int {
    IndexFrom(s, m, 0)
  }

  predicate Within(s: string, chars: char -> bool) {
    forall i :: 0 <= i < |s| ==> chars(s[i])
  }

  /** No run of two or more characters of `chars` can sit inside `m` or on its edge. */
  predicate Guarded(m: string, chars: char -> bool) {
    && m != [] && !chars(m[0]) && !chars(m[|m| - 1])
    && forall i :: 0 < i < |m| ==> !chars(m[i - 1]) || !chars(m[i])
  }

  predicate Foreign(m: string, chars: char -> bool) {
    m != [] && forall i :: 0 <= i < |m| ==> !chars(m[i])
  }

  lemma Mismatch(s: string, m: string, k: int, p: int)
    requires 0 <= k <= p < k + |m| <= |s| && s[p] != m[p - k]
    ensures !At(s, m, k)
  {
    assert s[k..k + |m|][p - k] == s[p];
  }

  /** Inserted text that the marker cannot overlap: a completed marker never runs
      through it. */
  lemma Inert(a: string, ins: string, b: string, m: string, chars: char -> bool, k: int)
    requires Within(ins, chars) && ins != []
    requires Foreign(m, chars) || (Guarded(m, chars) && |ins| >= 2)
    ensures At(a + ins + b, m, k) ==> k + |m| <= |a| || |a| + |ins| <= k
  {
    var s, end := a + ins + b, |a| + |ins|;
    if 0 <= k < end && |a| < k + |m| <= |s| {
      assert forall p :: |a| <= p < end ==> s[p] == ins[p - |a|] && chars(s[p]);
      if |a| <= k {
        Mismatch(s, m, k, k);
      } else if k + |m| <= end {
        Mismatch(s, m, k, k + |m| - 1);
      } else {
        Mismatch(s, m, k, if chars(m[|a| - k]) then |a| + 1 else |a|);
      }
    }
  }

  /** Occurrences after `d` characters are those of the rest of the string. */
  lemma AtShift(a: string, b: string, m: string, k: int)
    requires |a| <= k
    ensures At(a + b, m, k) == At(b, m, k - |a|)
  {
    if k + |m| <= |a| + |b| {
      assert (a + b)[k..k + |m|] == b[k - |a|..k - |a| + |m|];
    }
  }

  lemma AtPrefix(a: string, b: string, m: string, k: int)
    requires k + |m| <= |a|
    ensures At(a + b, m, k) == At(a, m, k)
  {
    if 0 <= k { assert (a + b)[k..k + |m|] == a[k..k + |m|]; }
  }

  lemma IndexShift(a: string, b: string, m: string)
    requires forall k :: 0 <= k < |a| ==> !At(a + b, m, k)
    ensures Index(a + b, m) == (if Index(b, m) == -1 then -1 else |a| + Index(b, m))
  {
    var i, j := Index(a + b, m), Index(b, m);
    if i != -1 { AtShift(a, b, m, i); }
    if j != -1 { AtShift(a, b, m, |a| + j); }
  }

  /** What one rewrite leaves: no occurrence starts before the end of the inserted
      text. */
  lemma NothingBehind(s: string, m: string, i: nat, ins: string, rest: string, chars: char -> bool)
    requires i <= |s| && (forall k :: 0 <= k < i ==> !At(s, m, k))
    requires Within(ins, chars) && ins != []
    requires Foreign(m, chars) || (Guarded(m, chars) && |ins| >= 2)
    ensures forall k :: 0 <= k < i + |ins| ==> !At(s[..i] + ins + rest, m, k)
  {
    forall k | 0 <= k < i + |ins| ensures !At(s[..i] + ins + rest, m, k) {
      Inert(s[..i], ins, rest, m, chars, k);
      if k + |m| <= i {
        assert s[..i] + ins + rest == s[..i] + (ins + rest);
        AtPrefix(s[..i], ins + rest, m, k);
        AtPrefix(s[..i], s[i..], m, k);
        assert s[..i] + s[i..] == s;
      }
    }
  }

  // ----- numbers

  predicate IsDecimal(c: char) {
    c == '-' || '0' <= c <= '9'
  }

  predicate IsHexDigit(c: char) {
    '0' <= c <= '9' || 'a' <= c <= 'f'
  }

  function DigitChar(d: nat): (c: char)
    requires d < 16
    ensures IsHexDigit(c) && (d < 10 ==> '0' <= c <= '9' && c as int == '0' as int + d)
  {
    if d < 10 then ('0' as int + d) as char else ('a' as int + d - 10) as char
  }

  function Digits(n: nat): (r: string)
    ensures r != [] && forall i :: 0 <= i < |r| ==> '0' <= r[i] <= '9'
  {
    if n < 10 then [DigitChar(n)] else Digits(n / 10) + [DigitChar(n % 10)]
  }

  function Decimal(v: int): (r: string) {
    if v < 0 then "-" + Digits(-v) else Digits(v)
  }

  function DigitsValue(s: string): int {
    if s == [] then 0 else DigitsValue(s[..|s| - 1]) * 10 + (s[|s| - 1] as int - '0' as int)
  }

  function DecimalValue(s: string): int {
    if s != [] && s[0] == '-' then -DigitsValue(s[1..]) else DigitsValue(s)
  }

  lemma {:induction false} DigitsReadBack(n: nat)
    ensures DigitsValue(Digits(n)) == n
  {
    var r := Digits(n);
    if n < 10 {
      assert r[..|r| - 1] == [];
    } else {
      DigitsReadBack(n / 10);
      assert r[..|r| - 1] == Digits(n / 10);
    }
  }

  lemma DecimalReadsBack(v: int)
    ensures DecimalValue(Decimal(v)) == v
    ensures Within(Decimal(v), IsDecimal) && Decimal(v) != []
  {
    if v < 0 {
      DigitsReadBack(-v);
      assert Decimal(v)[1..] == Digits(-v);
    } else {
      DigitsReadBack(v);
    }
  }

  lemma {:induction false} DigitsAreShort(n: nat)
    ensures Digits(n)[0] == '0' <==> n == 0
    ensures n == 0 ==> |Digits(n)| == 1
  {
    if n >= 10 {
      DigitsAreShort(n / 10);
      assert Digits(n)[0] == Digits(n / 10)[0];
    }
  }

  /** Text as Go prints an integer: a sign exactly when it is negative, digits, and no zero in
      front of them but for zero itself. */
  lemma DecimalIsPlain(v: int)
    ensures var r, at := Decimal(v), if v < 0 then 1 else 0;
            && |r| > at && (r[0] == '-' <==> v < 0) && (forall i :: at <= i < |r| ==> '0' <= r[i] <= '9')
            && (r[at] == '0' <==> v == 0) && (v == 0 ==> |r| == 1)
  {
    DigitsAreShort(if v < 0 then -v else v);
  }

  /** The last `n` hexadecimal digits of `u`, leading zeros kept. */
  function HexDigits(u: nat, n: nat): (r: string)
    ensures |r| == n
  {
    if n == 0 then [] else HexDigits(u / 16, n - 1) + [DigitChar(u % 16)]
  }

  lemma {:induction false} HexDigitsWithin(u: nat, n: nat)
    ensures Within(HexDigits(u, n), IsHexDigit)
  {
    if n > 0 {
      HexDigitsWithin(u / 16, n - 1);
    }
  }

  function Pow16(n: nat): nat {
    if n == 0 then 1 else 16 * Pow16(n - 1)
  }

  lemma {:induction false} HexDigitsInjective(u: nat, v: nat, n: nat)
    requires u < Pow16(n) && v < Pow16(n) && HexDigits(u, n) == HexDigits(v, n)
    ensures u == v
  {
    if n > 0 {
      var a, b := HexDigits(u, n), HexDigits(v, n);
      assert a[..n - 1] == HexDigits(u / 16, n - 1) && b[..n - 1] == HexDigits(v / 16, n - 1);
      assert a[n - 1] == DigitChar(u % 16) && b[n - 1] == DigitChar(v % 16);
      HexDigitsInjective(u / 16, v / 16, n - 1);
    }
  }

  const WORD := 0x1_0000_0000

  /** `%08x` of a 32-bit draw. */
  function HexWord(raw: nat): string {
    HexDigits(raw % WORD, 8)
  }

  lemma HexWordShape(raw: nat)
    ensures |HexWord(raw)| == 8 && Within(HexWord(raw), IsHexDigit)
  {
    HexDigitsWithin(raw % WORD, 8);
  }

  lemma MarkersKeepApart()
    ensures Foreign(RAND, IsDecimal)
    ensures Guarded(RAND, IsHexDigit) && Guarded(HEX, IsHexDigit)
  {
  }

  // ----- one pass from left to right

  function Low(spec: string, scan: Scan): int64 {
    match scan(spec).lo case None => 1 case Some(v) => v
  }

  /** The upper end, never below the lower. */
  function High(spec: string, scan: Scan): int64 {
    var hi := match scan(spec).hi case None => 1 case Some(v) => v;
    if hi < Low(spec, scan) then Low(spec, scan) else hi
  }

  /** A sum or difference as 64 bits keep it. */
  function Wrap64(x: int): int64 {
    (x + MAX_INT64 + 1) % TWO_TO_THE_64 - MAX_INT64 - 1
  }

  /** How many integers a field may be filled with, few enough to be counted in 64 bits. */
  predicate Fits(spec: string, scan: Scan) {
    High(spec, scan) - Low(spec, scan) + 1 <= MAX_INT64
  }

  /** What the source hands to IntN is positive exactly for such a field, and is then the
      number of its integers. */
  lemma WidthIn64Bits(lo: int64, hi: int64)
    requires lo <= hi
    ensures Wrap64(Wrap64(hi - lo) + 1) > 0 <==> hi - lo + 1 <= MAX_INT64
    ensures hi - lo + 1 <= MAX_INT64 ==> Wrap64(Wrap64(hi - lo) + 1) == hi - lo + 1
  {
  }

  /** IntN over a range of integers. */
  function Bounded(lo: int, hi: int, raw: nat): (r: int)
    requires lo <= hi
    ensures lo <= r <= hi
  {
    lo + raw % (hi - lo + 1)
  }

  function Pick(spec: string, scan: Scan, raw: nat): int {
    Bounded(Low(spec, scan), High(spec, scan), raw)
  }

  /** What fills a field, unless the draw panics. */
  function Draw(spec: string, scan: Scan, raw: nat): Option<int> {
    if Fits(spec, scan) then Some(Pick(spec, scan, raw)) else None
  }

  /** Where the first complete `{{rand:...}}` starts and the text between its ends. */
  datatype Field = Field(start: nat, spec: string)

  function FirstField(s: string): (r: Option<Field>)
    ensures r.Some? ==> r.value.start + 9 + |r.value.spec| <= |s|
  {
    var i := Index(s, RAND);
    if i == -1 then None else
      var j := Index(s[i..], CLOSE);
      if j == -1 then None else
        assert j >= 7 by { CloseIsBeyond(s[i..], j); }
        Some(Field(i, s[i + 7..i + j]))
  }

  lemma CloseIsBeyond(s: string, j: int)
    requires At(s, RAND, 0) && At(s, CLOSE, j)
    ensures j >= 7
  {
    assert forall i :: 0 <= i < 7 ==> s[i] == s[0..7][i] == RAND[i] != '}';
    assert s[j] == s[j..j + 2][0];
  }

  /** The field in terms of the two searches. */
  lemma FieldScan(s: string)
    ensures var i := Index(s, RAND);
            if i == -1 then FirstField(s).None?
            else
              && 0 <= i <= |s|
              && var j := Index(s[i..], CLOSE);
                 if j == -1 then FirstField(s).None?
                 else
                   && 7 <= j && i + j + 2 <= |s| && FirstField(s) == Some(Field(i, s[i + 7..i + j]))
                   && forall k :: 0 <= k < i ==> !At(s, RAND, k)
  {
    var i := Index(s, RAND);
    if i != -1 && Index(s[i..], CLOSE) != -1 { CloseIsBeyond(s[i..], Index(s[i..], CLOSE)); }
  }

  function AfterField(s: string, f: Field): string
    requires f.start + 9 + |f.spec| <= |s|
  {
    s[f.start + 9 + |f.spec|..]
  }

  function FillRand(s: string, scan: Scan, rng: Rng, k: nat): string
    decreases |s|
  {
    match FirstField(s)
    case None => s
    case Some(f) => s[..f.start] + Decimal(Pick(f.spec, scan, rng(k))) + FillRand(AfterField(s, f), scan, rng, k + 1)
  }

  /** Every field of that pass can be drawn. */
  predicate AllFit(s: string, scan: Scan)
    decreases |s|
  {
    match FirstField(s)
    case None => true
    case Some(f) => Fits(f.spec, scan) && AllFit(AfterField(s, f), scan)
  }

  /** How many fields that pass fills. */
  function Fields(s: string): nat
    decreases |s|
  {
    match FirstField(s)
    case None => 0
    case Some(f) => 1 + Fields(AfterField(s, f))
  }

  function FillHex(s: string, rng: Rng, k: nat): string
    decreases |s|
  {
    var i := Index(s, HEX);
    if i == -1 then s else s[..i] + HexWord(rng(k)) + FillHex(s[i + 7..], rng, k + 1)
  }

  function Hexes(s: string): nat
    decreases |s|
  {
    var i := Index(s, HEX);
    if i == -1 then 0 else 1 + Hexes(s[i + 7..])
  }

  // ----- the rewriting loops

  /** No marker is left that could still be closed. */
  ghost predicate Settled(s: string) {
    forall p, q :: At(s, RAND, p) && p <= q ==> !At(s, CLOSE, q)
  }

  lemma StuckIsSettled(s: string)
    requires FirstField(s).None?
    ensures Settled(s)
  {
    var i := Index(s, RAND);
    forall p, q | At(s, RAND, p) && p <= q ensures !At(s, CLOSE, q) {
      assert i != -1 && i <= p;
      AtShift(s[..i], s[i..], CLOSE, q);
      assert s[..i] + s[i..] == s;
    }
  }

  /** Filling a hexadecimal marker cannot complete or close a `{{rand:`. */
  lemma HexKeepsSettled(s: string, i: nat, word: string)
    requires Settled(s) && At(s, HEX, i)
    requires |word| == 8 && Within(word, IsHexDigit)
    ensures Settled(s[..i] + word + s[i + 7..])
  {
    var t := s[..i] + word + s[i + 7..];
    forall p, q | At(t, RAND, p) && p <= q ensures !At(t, CLOSE, q) {
      MarkersKeepApart();
      Inert(s[..i], word, s[i + 7..], RAND, IsHexDigit, p);
      if p + 7 <= i {
        assert t == s[..i] + (word + s[i + 7..]) && s == s[..i] + s[i..];
        AtPrefix(s[..i], word + s[i + 7..], RAND, p);
        AtPrefix(s[..i], s[i..], RAND, p);
        assert s[i + 5..i + 7] == s[i..i + 7][5..7] == CLOSE;
        assert At(s, CLOSE, i + 5);
      } else {
        assert t == (s[..i] + word) + s[i + 7..] && s == s[..i + 7] + s[i + 7..];
        AtShift(s[..i] + word, s[i + 7..], RAND, p);
        AtShift(s[..i + 7], s[i + 7..], RAND, p - 1);
        AtShift(s[..i] + word, s[i + 7..], CLOSE, q);
        AtShift(s[..i + 7], s[i + 7..], CLOSE, q - 1);
      }
    }
  }

  /** Nothing before `done` has a marker, so scanning all of the string finds the
      field that scanning the rest finds. */
  lemma FieldOfTheRest(done: string, rest: string)
    requires forall p :: 0 <= p < |done| ==> !At(done + rest, RAND, p)
    ensures FirstField(done + rest) ==
            match FirstField(rest) case None => None case Some(f) => Some(Field(|done| + f.start, f.spec))
  {
    hide At, FirstField;
    IndexShift(done, rest, RAND);
    FieldScan(done + rest);
    FieldScan(rest);
    var i := Index(rest, RAND);
    if i != -1 {
      assert (done + rest)[|done| + i..] == rest[i..];
      var j := Index(rest[i..], CLOSE);
      if j != -1 {
        assert (done + rest)[|done| + i + 7..|done| + i + j] == rest[i + 7..i + j];
      }
    }
  }

  lemma RestAfter(done: string, rest: string, start: nat, end: nat, text: string)
    requires start <= end <= |rest|
    ensures (done + rest)[..|done| + start] + text + (done + rest)[|done| + end..] == (done + rest[..start] + text) + rest[end..]
    ensures |(done + rest)[..|done| + start]| + |text| == |done + rest[..start] + text|
  {
  }

  function Filled(s: string, f: Field, scan: Scan, raw: nat): string
    requires f.start + 9 + |f.spec| <= |s|
  {
    s[..f.start] + Decimal(Pick(f.spec, scan, raw)) + AfterField(s, f)
  }

  /** The body of the first loop: it breaks off, panics in IntN, or fills one field. */
  datatype Rewrite = Broke | Panicked | Rewrote(text: string)

  method FillFirst(s: string, scan: Scan, raw: nat) returns (r: Rewrite)
    ensures match FirstField(s)
            case None => r == Broke
            case Some(f) => r == if Fits(f.spec, scan) then Rewrote(Filled(s, f, scan, raw)) else Panicked
  {
    hide At, Bounded, Decimal, Wrap64;
    FieldScan(s);
    var i := Index(s, RAND);
    if i < 0 { return Broke; }
    var j := Index(s[i..], CLOSE);
    if j < 0 { return Broke; }
    var spec := s[i + |RAND|..i + j];
    var scanned := scan(spec);
    var lo: int64, hi: int64 := 1, 1;
    if scanned.lo.Some? { lo := scanned.lo.value; }
    if scanned.hi.Some? { hi := scanned.hi.value; }
    if hi < lo { hi := lo; }
    WidthIn64Bits(lo, hi);
    if Wrap64(Wrap64(hi - lo) + 1) <= 0 { return Panicked; }
    r := Rewrote(s[..i] + Decimal(Bounded(lo, hi, raw)) + s[i + j + 2..]);
  }

  ghost predicate Clear(s: string, m: string, n: nat) {
    forall p :: 0 <= p < n ==> !At(s, m, p)
  }

  /** The string so far: a part that is finished, and a rest on which the single pass
      has still to run from draw `k`. */
  ghost predicate RandInv(s0: string, scan: Scan, rng: Rng, s: string, k: nat, done: string, rest: string) {
    && s == done + rest && Clear(s, RAND, |done|)
    && FillRand(s0, scan, rng, 0) == done + FillRand(rest, scan, rng, k)
    && k + Fields(rest) == Fields(s0) && AllFit(s0, scan) == AllFit(rest, scan)
  }

  lemma Regroup(a: string, b: string, c: string, d: string)
    ensures a + (b + c + d) == (a + b + c) + d
  {
  }

  lemma FillOnce(rest: string, scan: Scan, rng: Rng, k: nat, g: Field, text: string)
    requires FirstField(rest) == Some(g) && text == Decimal(Pick(g.spec, scan, rng(k)))
    ensures FillRand(rest, scan, rng, k) == rest[..g.start] + text + FillRand(AfterField(rest, g), scan, rng, k + 1)
    ensures Fields(rest) == 1 + Fields(AfterField(rest, g))
    ensures AllFit(rest, scan) == (Fits(g.spec, scan) && AllFit(AfterField(rest, g), scan))
  {
  }

  lemma RandStep(s0: string, scan: Scan, rng: Rng, s: string, k: nat, done: string, rest: string, t: string)
    returns (done': string, rest': string)
    requires RandInv(s0, scan, rng, s, k, done, rest)
    requires FirstField(s).Some? && Fits(FirstField(s).value.spec, scan)
    requires t == Filled(s, FirstField(s).value, scan, rng(k))
    ensures RandInv(s0, scan, rng, t, k + 1, done', rest')
    ensures |rest'| < |rest|
  {
    hide FillRand, Fields, AllFit, Fits, Decimal, Pick, At, FirstField;
    FieldOfTheRest(done, rest);
    FieldScan(s);
    var f, g := FirstField(s).value, FirstField(rest).value;
    var text := Decimal(Pick(g.spec, scan, rng(k)));
    DecimalReadsBack(Pick(g.spec, scan, rng(k)));
    MarkersKeepApart();
    NothingBehind(s, RAND, f.start, text, AfterField(s, f), IsDecimal);
    RestAfter(done, rest, g.start, g.start + 9 + |g.spec|, text);
    done', rest' := done + rest[..g.start] + text, AfterField(rest, g);
    FillOnce(rest, scan, rng, k, g, text);
    Regroup(done, rest[..g.start], text, FillRand(rest', scan, rng, k + 1));
  }

  lemma RandDone(s0: string, scan: Scan, rng: Rng, s: string, k: nat, done: string, rest: string)
    requires RandInv(s0, scan, rng, s, k, done, rest) && FirstField(s).None?
    ensures s == FillRand(s0, scan, rng, 0) && k == Fields(s0) && Settled(s) && AllFit(s0, scan)
  {
    FieldOfTheRest(done, rest);
    StuckIsSettled(s);
  }

  lemma RandPanics(s0: string, scan: Scan, rng: Rng, s: string, k: nat, done: string, rest: string)
    requires RandInv(s0, scan, rng, s, k, done, rest) && FirstField(s).Some? && !Fits(FirstField(s).value.spec, scan)
    ensures !AllFit(s0, scan)
  {
    FieldOfTheRest(done, rest);
  }

  /** The first loop. It panics if and only if some field is too wide to be drawn. */
  method FillRandLoop(s0: string, scan: Scan, rng: Rng) returns (r: Option<string>, k: nat)
    ensures r.Some? <==> AllFit(s0, scan)
    ensures r.Some? ==> r.value == FillRand(s0, scan, rng, 0) && k == Fields(s0) && Settled(r.value)
  {
    var s := s0;
    k := 0;
    ghost var done, rest := "", s0;
    while true
      invariant RandInv(s0, scan, rng, s, k, done, rest)
      decreases |rest|
    {
      var t := FillFirst(s, scan, rng(k));
      if t.Broke? { break; }
      if t.Panicked? {
        RandPanics(s0, scan, rng, s, k, done, rest);
        return None, k;
      }
      done, rest := RandStep(s0, scan, rng, s, k, done, rest, t.text);
      s := t.text;
      k := k + 1;
    }
    RandDone(s0, scan, rng, s, k, done, rest);
    r := Some(s);
  }

  ghost predicate HexInv(mid: string, rng: Rng, from: nat, s: string, k: nat, done: string, rest: string) {
    && s == done + rest && Settled(s) && Clear(s, HEX, |done|)
    && FillHex(mid, rng, from) == done + FillHex(rest, rng, k)
  }

  lemma HexStep(mid: string, rng: Rng, from: nat, s: string, k: nat, done: string, rest: string, i: nat)
    returns (done': string, rest': string)
    requires HexInv(mid, rng, from, s, k, done, rest) && i == Index(s, HEX)
    ensures i + 7 <= |s| && HexInv(mid, rng, from, s[..i] + HexWord(rng(k)) + s[i + 7..], k + 1, done', rest')
    ensures |rest'| < |rest|
  {
    IndexShift(done, rest, HEX);
    var at, word := Index(rest, HEX), HexWord(rng(k));
    HexWordShape(rng(k));
    MarkersKeepApart();
    HexKeepsSettled(s, i, word);
    NothingBehind(s, HEX, i, word, s[i + 7..], IsHexDigit);
    RestAfter(done, rest, at, at + 7, word);
    done', rest' := done + rest[..at] + word, rest[at + 7..];
    Regroup(done, rest[..at], word, FillHex(rest', rng, k + 1));
    assert FillHex(rest, rng, k) == rest[..at] + word + FillHex(rest', rng, k + 1);
  }

  lemma HexDone(mid: string, rng: Rng, from: nat, s: string, k: nat, done: string, rest: string)
    requires HexInv(mid, rng, from, s, k, done, rest) && Index(s, HEX) == -1
    ensures s == FillHex(mid, rng, from) && Settled(s)
  {
    IndexShift(done, rest, HEX);
  }

  lemma HexStarts(mid: string, rng: Rng, from: nat)
    requires Settled(mid)
    ensures HexInv(mid, rng, from, mid, from, "", mid)
  {
    assert "" + mid == mid && "" + FillHex(mid, rng, from) == FillHex(mid, rng, from);
  }

  /** The second loop. */
  method FillHexLoop(mid: string, rng: Rng, from: nat) returns (s: string)
    requires Settled(mid)
    ensures s == FillHex(mid, rng, from) && Index(s, HEX) == -1 && Settled(s)
  {
    hide *;
    var k: nat := from;
    s := mid;
    ghost var done, rest := "", mid;
    HexStarts(mid, rng, from);
    while Index(s, HEX) >= 0
      invariant HexInv(mid, rng, from, s, k, done, rest)
      decreases |rest|
    {
      var i := Index(s, HEX);
      done, rest := HexStep(mid, rng, from, s, k, done, rest, i);
      s := s[..i] + HexWord(rng(k)) + s[i + 7..];
      k := k + 1;
    }
    IndexIsPosition(s, HEX);
    HexDone(mid, rng, from, s, k, done, rest);
  }

  lemma IndexIsPosition(s: string, m: string)
    ensures Index(s, m) >= -1 && (Index(s, m) == -1 ==> forall p :: !At(s, m, p))
  {
  }

  /** The loops as written: they end on every string, with a panic if and only if some
      field is too wide to be drawn, and otherwise with what one pass from left to right
      gives and nothing fillable left. */
  method Expand(s0: string, scan: Scan, rng: Rng) returns (r: Option<string>)
    ensures r.Some? <==> AllFit(s0, scan)
    ensures r.Some? ==> r.value == FillHex(FillRand(s0, scan, rng, 0), rng, Fields(s0))
    ensures r.Some? ==> (forall p :: !At(r.value, HEX, p)) && Settled(r.value)
  {
    var filled, k := FillRandLoop(s0, scan, rng);
    if filled.None? { return None; }
    hide *;
    var s := FillHexLoop(filled.value, rng, k);
    IndexIsPosition(s, HEX);
    r := Some(s);
  }

  // ----- a template that panics

  function Template(spec: string): string {
    RAND + spec + CLOSE
  }

  /** A template that is one field panics if and only if its range holds 2^63 integers or
      more. */
  lemma OneFieldTemplate(spec: string, scan: Scan)
    requires '}' !in spec
    ensures AllFit(Template(spec), scan) <==> High(spec, scan) - Low(spec, scan) < MAX_INT64
  {
    var s := Template(spec);
    assert At(s, RAND, 0);
    assert Index(s, RAND) == 0;
    assert s[0..] == s;
    assert At(s, CLOSE, 7 + |spec|);
    forall j | 0 <= j < 7 + |spec| ensures !At(s, CLOSE, j) {
      assert s[j] != '}' by { assert j >= 7 ==> s[j] == spec[j - 7]; }
      Mismatch(s, CLOSE, j, j);
    }
    assert FirstField(s) == Some(Field(0, spec)) by { assert s[7..7 + |spec|] == spec; }
    assert AfterField(s, Field(0, spec)) == "";
    NoFieldInNothing();
  }

  lemma NoFieldInNothing()
    ensures FirstField("").None?
  {
  }

  /** The widest range from zero on, `{{rand:0:9223372036854775807}}`, panics, and the next
      does not. */
  lemma WidestRangePanics(scan: Scan)
    requires scan("0:9223372036854775807") == Scanned(Some(0), Some(9223372036854775807))
    requires scan("0:9223372036854775806") == Scanned(Some(0), Some(9223372036854775806))
    ensures !AllFit(Template("0:9223372036854775807"), scan) && AllFit(Template("0:9223372036854775806"), scan)
  {
    hide AllFit, Template;
    OneFieldTemplate("0:9223372036854775807", scan);
    OneFieldTemplate("0:9223372036854775806", scan);
  }

  // ----- what is inserted

  /** What a field can be filled with: any integer of its range and no other, if the
      range is not too wide, and else nothing; and the text inserted reads back as that
      integer. */
  lemma DrawIsInRange(spec: string, scan: Scan, v: int)
    ensures (exists raw: nat :: Draw(spec, scan, raw) == Some(v)) <==>
            Fits(spec, scan) && Low(spec, scan) <= v <= High(spec, scan)
    ensures DecimalValue(Decimal(v)) == v
  {
    DecimalReadsBack(v);
    if Fits(spec, scan) && Low(spec, scan) <= v <= High(spec, scan) {
      var raw: nat := v - Low(spec, scan);
      ModSmall(raw, High(spec, scan) - Low(spec, scan) + 1);
      assert Draw(spec, scan, raw) == Some(v);
    }
  }

  lemma ModSmall(a: nat, n: nat)
    requires a < n
    ensures a % n == a
  {
  }

  /** The range of a field: one when nothing scanned, up to one when only the lower end did,
      and the lower end alone when the upper one is below it. */
  lemma RangeOfField(spec: string, scan: Scan, v: int)
    ensures var drawn := exists raw: nat :: Draw(spec, scan, raw) == Some(v);
            var lo: int := if scan(spec).lo.Some? then scan(spec).lo.value else 1;
            var top: int := if scan(spec).hi.Some? then scan(spec).hi.value else 1;
            var hi := if top < lo then lo else top;
            drawn <==> hi - lo < 0x7FFF_FFFF_FFFF_FFFF && lo <= v <= hi
  {
    DrawIsInRange(spec, scan, v);
  }

  /** What the lower-case hexadecimal digits of a string say. */
  function HexValue(s: string): int {
    if s == [] then 0
    else
      var c := s[|s| - 1];
      HexValue(s[..|s| - 1]) * 16 + (if '0' <= c <= '9' then c as int - '0' as int else c as int - 'a' as int + 10)
  }

  lemma {:induction false} HexReadsBack(u: nat, n: nat)
    requires u < Pow16(n)
    ensures HexValue(HexDigits(u, n)) == u
  {
    if n > 0 {
      var r := HexDigits(u, n);
      HexReadsBack(u / 16, n - 1);
      assert r[..n - 1] == HexDigits(u / 16, n - 1);
    }
  }

  /** A word is eight lower-case digits of the low 32 bits drawn. */
  lemma HexWordReadsBack(raw: nat)
    ensures |HexWord(raw)| == 8 && HexValue(HexWord(raw)) == raw % 0x1_0000_0000
    ensures forall i :: 0 <= i < 8 ==> '0' <= HexWord(raw)[i] <= '9' || 'a' <= HexWord(raw)[i] <= 'f'
  {
    HexWordShape(raw);
    WordIsEightDigits();
    HexReadsBack(raw % WORD, 8);
  }

  lemma WordIsEightDigits()
    ensures Pow16(8) == WORD
  {
    assert Pow16(4) == 0x1_0000;
    assert Pow16(8) == 16 * (16 * (16 * (16 * Pow16(4))));
  }

  /** One field in its place: the text before it stays, the integer drawn stands for it, and
      the pass goes on behind it with the next draw. */
  lemma FillsInPlace(a: string, spec: string, b: string, scan: Scan, rng: Rng, k: nat)
    requires '}' !in spec && forall i :: 0 <= i < |a| ==> !At(a + Template(spec) + b, RAND, i)
    ensures FillRand(a + Template(spec) + b, scan, rng, k)
         == a + Decimal(Pick(spec, scan, rng(k))) + FillRand(b, scan, rng, k + 1)
    ensures Fields(a + Template(spec) + b) == 1 + Fields(b)
  {
    var s, t := a + Template(spec) + b, Template(spec) + b;
    assert s == a + t;
    TemplateIsFirst(spec, b);
    FieldOfTheRest(a, t);
    assert FirstField(s) == Some(Field(|a|, spec));
    assert s[..|a|] == a && AfterField(s, Field(|a|, spec)) == b;
  }

  lemma TemplateIsFirst(spec: string, b: string)
    requires '}' !in spec
    ensures FirstField(Template(spec) + b) == Some(Field(0, spec))
  {
    var t := Template(spec) + b;
    assert t[..7] == RAND && At(t, RAND, 0);
    assert Index(t, RAND) == 0 && t[0..] == t;
    assert t[7 + |spec|..7 + |spec| + 2] == CLOSE;
    assert At(t, CLOSE, 7 + |spec|);
    forall j | 0 <= j < 7 + |spec| ensures !At(t, CLOSE, j) {
      assert t[j] != '}' by { assert j >= 7 ==> t[j] == spec[j - 7]; }
      Mismatch(t, CLOSE, j, j);
    }
    assert t[7..7 + |spec|] == spec;
  }

  /** And one word. */
  lemma FillsWordInPlace(a: string, b: string, rng: Rng, k: nat)
    requires forall i :: 0 <= i < |a| ==> !At(a + "{{hex}}" + b, HEX, i)
    ensures FillHex(a + "{{hex}}" + b, rng, k) == a + HexWord(rng(k)) + FillHex(b, rng, k + 1)
    ensures Hexes(a + "{{hex}}" + b) == 1 + Hexes(b)
  {
    var s := a + "{{hex}}" + b;
    assert s[|a|..|a| + 7] == HEX;
    assert At(s, HEX, |a|);
    assert Index(s, HEX) == |a|;
    assert s[..|a|] == a && s[|a| + 7..] == b;
  }

  /** A string without markers stays as it is. */
  lemma NothingToFill(s: string, scan: Scan, rng: Rng)
    requires forall i :: !At(s, RAND, i) && !At(s, HEX, i)
    ensures FillHex(FillRand(s, scan, rng, 0), rng, Fields(s)) == s && Fields(s) == Hexes(s) == 0
  {
    assert Index(s, RAND) == -1 && Index(s, HEX) == -1;
  }

  lemma SameParts(a: string, w: string, b: string, v: string, c: string)
    requires |w| == |v| && a + w + b == a + v + c
    ensures w == v && b == c
  {
    assert (a + w + b)[|a|..|a| + |w|] == w && (a + v + c)[|a|..|a| + |v|] == v;
    assert (a + w + b)[|a| + |w|..] == b && (a + v + c)[|a| + |v|..] == c;
  }

  lemma SameWord(raw: nat, other: nat)
    requires HexWord(raw) == HexWord(other)
    ensures raw % WORD == other % WORD
  {
    WordIsEightDigits();
    HexDigitsInjective(raw % WORD, other % WORD, 8);
  }

  /** The 32 bits drawn for the n-th word from draw `k` on. */
  function Word(rng: Rng, k: nat, n: nat): nat {
    rng(k + n) % WORD
  }

  /** Two writes made from one template are different as soon as one of the words
      drawn for them is. */
  lemma {:induction false} WordsKeepWritesApart(s: string, rng: Rng, k: nat, other: Rng, l: nat)
    requires FillHex(s, rng, k) == FillHex(s, other, l)
    ensures forall n: nat :: n < Hexes(s) ==> Word(rng, k, n) == Word(other, l, n)
    decreases |s|
  {
    var i := Index(s, HEX);
    if i != -1 {
      HexWordShape(rng(k));
      HexWordShape(other(l));
      SameParts(s[..i], HexWord(rng(k)), FillHex(s[i + 7..], rng, k + 1), HexWord(other(l)), FillHex(s[i + 7..], other, l + 1));
      SameWord(rng(k), other(l));
      WordsKeepWritesApart(s[i + 7..], rng, k + 1, other, l + 1);
      forall n: nat | n < Hexes(s) ensures Word(rng, k, n) == Word(other, l, n) {
        if n > 0 { assert Word(rng, k + 1, n - 1) == Word(other, l + 1, n - 1); }
      }
    }
  }
}
