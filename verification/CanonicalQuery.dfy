/** probe/s3.go: the percent-encoding and the canonical query that are both sent
    and signed (sections 2.1 and 2.3 of RFC 3986), and what a server that decodes
    them gets back. */
module CanonicalQuery {
  import opened Sorting
  import opened Sums
  import opened Options
  import opened ByteStrings

  const PERCENT: byte := 37
  const AMP: byte := 38
  const PLUS: byte := 43
  const SLASH: byte := 47
  const EQUALS: byte := 61
  const SPACE: byte := 32

  predicate Unreserved(c: byte) {
    65 <= c <= 90 || 97 <= c <= 122 || 48 <= c <= 57 || c in {45, 46, 95, 126}
  }

  function Hex(d: nat): byte
    requires d < 16
  {
    if d < 10 then 48 + d else 55 + d
  }

  function FromHex(c: byte): Option<nat> {
    if 48 <= c <= 57 then Some(c - 48)
    else if 65 <= c <= 70 then Some(c - 55)
    else if 97 <= c <= 102 then Some(c - 87)
    else None
  }

  function EncodeByte(c: byte, keepSlash: bool): Bytes {
    if Unreserved(c) || (keepSlash && c == SLASH) then [c] else [PERCENT, Hex(c / 16), Hex(c % 16)]
  }

  function Encoded(s: Bytes, keepSlash: bool): Bytes {
    if s == [] then [] else Encoded(s[..|s| - 1], keepSlash) + EncodeByte(s[|s| - 1], keepSlash)
  }

  method UriEncode(s: Bytes, keepSlash: bool) returns (r: Bytes)
    ensures r == Encoded(s, keepSlash)
  {
    r := [];
    for i := 0 to |s|
      invariant r == Encoded(s[..i], keepSlash)
    {
      assert s[..i + 1][..i] == s[..i];
      var c := s[i];
      if 65 <= c <= 90 || 97 <= c <= 122 || 48 <= c <= 57 || c == 45 || c == 46 || c == 95 || c == 126
         || (keepSlash && c == SLASH) {
        r := r + [c];
      } else {
        r := r + [PERCENT, Hex(c / 16), Hex(c % 16)];
      }
    }
    assert s[..|s|] == s;
  }

  /** Percent-decoding; in a query a plus is a space besides. */
  function Decode(s: Bytes, plus: bool): Option<Bytes> {
    if s == [] then Some([])
    else if s[0] == PERCENT then
      if |s| < 3 || FromHex(s[1]).None? || FromHex(s[2]).None? then None
      else
        match Decode(s[3..], plus)
        case None => None
        case Some(t) => Some([FromHex(s[1]).value * 16 + FromHex(s[2]).value] + t)
    else
      match Decode(s[1..], plus)
      case None => None
      case Some(t) => Some([if plus && s[0] == PLUS then SPACE else s[0]] + t)
  }

  lemma DecodeByte(c: byte, keepSlash: bool, rest: Bytes, plus: bool)
    requires Decode(rest, plus).Some?
    ensures Decode(EncodeByte(c, keepSlash) + rest, plus) == Some([c] + Decode(rest, plus).value)
  {
    var s := EncodeByte(c, keepSlash) + rest;
    if Unreserved(c) || (keepSlash && c == SLASH) {
      assert s[1..] == rest;
    } else {
      assert s[3..] == rest;
      assert c / 16 * 16 + c % 16 == c;
    }
  }

  lemma {:induction false} DecodeBefore(s: Bytes, keepSlash: bool, rest: Bytes, plus: bool)
    requires Decode(rest, plus).Some?
    ensures Decode(Encoded(s, keepSlash) + rest, plus) == Some(s + Decode(rest, plus).value)
  {
    hide EncodeByte, Decode;
    if s == [] {
      assert Encoded(s, keepSlash) + rest == rest;
      assert s + Decode(rest, plus).value == Decode(rest, plus).value;
    } else {
      var init, c := s[..|s| - 1], s[|s| - 1];
      DecodeByte(c, keepSlash, rest, plus);
      DecodeBefore(init, keepSlash, EncodeByte(c, keepSlash) + rest, plus);
      assert Encoded(s, keepSlash) + rest == Encoded(init, keepSlash) + (EncodeByte(c, keepSlash) + rest);
      assert s == init + [c];
      assert init + ([c] + Decode(rest, plus).value) == s + Decode(rest, plus).value;
    }
  }

  /** Decoding undoes encoding, for every string, in a path and in a query. */
  lemma EncodeRoundTrip(s: Bytes, keepSlash: bool, plus: bool)
    ensures Decode(Encoded(s, keepSlash), plus) == Some(s)
  {
    DecodeBefore(s, keepSlash, [], plus);
    assert Encoded(s, keepSlash) + [] == Encoded(s, keepSlash);
    assert s + [] == s;
  }

  /** The path that is signed, re-encoded from the decoded url, is the path sent. */
  lemma SignedPathIsSent(path: Bytes)
    ensures Decode(Encoded(path, true), false).Some?
    ensures Encoded(Decode(Encoded(path, true), false).value, true) == Encoded(path, true)
  {
    EncodeRoundTrip(path, true, false);
  }

  // ----- the only encoding

  /** A byte that stands for itself: a letter, a digit, one of four marks, or a slash in a path. */
  predicate Plain(c: byte, keepSlash: bool) {
    var x := c as char;
    'A' <= x <= 'Z' || 'a' <= x <= 'z' || '0' <= x <= '9' || x == '-' || x == '.' || x == '_' || x == '~'
    || (keepSlash && x == '/')
  }

  predicate UpperDigit(c: byte) {
    '0' <= c as char <= '9' || 'A' <= c as char <= 'F'
  }

  function DigitValue(c: byte): (v: nat)
    requires UpperDigit(c)
    ensures v < 16
  {
    if c as char <= '9' then c - '0' as int else c - 'A' as int + 10
  }

  /** Plain bytes and triples of a percent and two upper-case digits, and no triple where
      a plain byte would do. */
  predicate WellSpelled(r: Bytes, keepSlash: bool) {
    if r == [] then true
    else if r[0] as char == '%' then
      && |r| >= 3 && UpperDigit(r[1]) && UpperDigit(r[2])
      && !Plain(16 * DigitValue(r[1]) + DigitValue(r[2]), keepSlash) && WellSpelled(r[3..], keepSlash)
    else Plain(r[0], keepSlash) && WellSpelled(r[1..], keepSlash)
  }

  /** What a server makes of a digit, of either case. */
  lemma DigitsRead(c: byte)
    ensures UpperDigit(c) ==> FromHex(c) == Some(DigitValue(c))
    ensures 'a' <= c as char <= 'f' ==> FromHex(c) == Some(c - 'a' as int + 10)
    ensures FromHex(c).Some? <==> UpperDigit(c) || 'a' <= c as char <= 'f'
  {
  }

  lemma {:induction false} EncodedHead(c: byte, s: Bytes, keepSlash: bool)
    ensures Encoded([c] + s, keepSlash) == EncodeByte(c, keepSlash) + Encoded(s, keepSlash)
  {
    hide EncodeByte;
    var t := [c] + s;
    if s == [] {
      assert t[..|t| - 1] == [];
      assert [] + EncodeByte(c, keepSlash) == EncodeByte(c, keepSlash) == EncodeByte(c, keepSlash) + [];
    } else {
      EncodedHead(c, s[..|s| - 1], keepSlash);
      assert t[..|t| - 1] == [c] + s[..|s| - 1];
    }
  }

  lemma ByteIsWellSpelled(c: byte, rest: Bytes, keepSlash: bool)
    requires WellSpelled(rest, keepSlash)
    ensures WellSpelled(EncodeByte(c, keepSlash) + rest, keepSlash)
  {
    var r := EncodeByte(c, keepSlash) + rest;
    if Unreserved(c) || (keepSlash && c == SLASH) {
      assert r[1..] == rest;
    } else {
      assert r[3..] == rest;
      assert c / 16 * 16 + c % 16 == c;
    }
  }

  lemma {:induction false} EncodedIsWellSpelled(s: Bytes, keepSlash: bool)
    ensures WellSpelled(Encoded(s, keepSlash), keepSlash)
  {
    hide EncodeByte;
    if s != [] {
      assert s == [s[0]] + s[1..];
      EncodedHead(s[0], s[1..], keepSlash);
      EncodedIsWellSpelled(s[1..], keepSlash);
      ByteIsWellSpelled(s[0], Encoded(s[1..], keepSlash), keepSlash);
    }
  }

  lemma {:induction false} WellSpelledIsEncoded(r: Bytes, s: Bytes, keepSlash: bool)
    requires WellSpelled(r, keepSlash) && Decode(r, false) == Some(s)
    ensures r == Encoded(s, keepSlash)
  {
    if r != [] {
      var n := if r[0] == PERCENT then 3 else 1;
      var c, t := s[0], s[1..];
      assert Decode(r[n..], false) == Some(t);
      WellSpelledIsEncoded(r[n..], t, keepSlash);
      assert s == [c] + t;
      EncodedHead(c, t, keepSlash);
      OneSpelling(r, n, c, keepSlash);
      assert r == r[..n] + r[n..];
    }
  }

  lemma OneSpelling(r: Bytes, n: nat, c: byte, keepSlash: bool)
    requires r != [] && WellSpelled(r, keepSlash) && n == if r[0] == PERCENT then 3 else 1
    requires c == if n == 3 then 16 * DigitValue(r[1]) + DigitValue(r[2]) else r[0]
    ensures n <= |r| && r[..n] == EncodeByte(c, keepSlash)
  {
    if n == 3 {
      var a, b := DigitValue(r[1]), DigitValue(r[2]);
      assert c / 16 == a && c % 16 == b;
      assert r[..3] == [r[0], r[1], r[2]];
    }
  }

  /** A string is encoded in one way only: as the well-spelled string that decodes to it. */
  lemma EncodingIsTheOnly(s: Bytes, r: Bytes, keepSlash: bool)
    ensures r == Encoded(s, keepSlash) <==> Decode(r, false) == Some(s) && WellSpelled(r, keepSlash)
  {
    EncodeRoundTrip(s, keepSlash, false);
    EncodedIsWellSpelled(s, keepSlash);
    if Decode(r, false) == Some(s) && WellSpelled(r, keepSlash) { WellSpelledIsEncoded(r, s, keepSlash); }
  }

  lemma {:induction false} PlainIsKept(s: Bytes, keepSlash: bool)
    requires forall i :: 0 <= i < |s| ==> Plain(s[i], keepSlash)
    ensures Encoded(s, keepSlash) == s
  {
    if s != [] {
      hide Plain, EncodeByte;
      var n := |s| - 1;
      PlainIsKept(s[..n], keepSlash);
      ByteIsKept(s[n], keepSlash);
      assert s == s[..n] + [s[n]];
    }
  }

  lemma ByteIsKept(c: byte, keepSlash: bool)
    requires Plain(c, keepSlash)
    ensures EncodeByte(c, keepSlash) == [c]
  {
  }

  lemma {:induction false} EncodedIsPlain(s: Bytes)
    ensures AMP !in Encoded(s, false) && EQUALS !in Encoded(s, false)
  {
    if s != [] {
      EncodedIsPlain(s[..|s| - 1]);
      var e := EncodeByte(s[|s| - 1], false);
      assert forall i :: 0 <= i < |e| ==> e[i] != AMP && e[i] != EQUALS;
    }
  }

  // ----- queries

  type Query = map<Bytes, seq<Bytes>>

  function Part(k: Bytes, v: Bytes): Bytes { Encoded(k, false) + [EQUALS] + Encoded(v, false) }

  function PartsFor(k: Bytes, vs: seq<Bytes>): (r: seq<Bytes>)
    ensures |r| == |vs|
  {
    seq(|vs|, i requires 0 <= i < |vs| => Part(k, vs[i]))
  }

  function Parts(keys: seq<Bytes>, q: Query): seq<Bytes>
    requires forall k :: k in keys ==> k in q
  {
    if keys == [] then []
    else
      var n := |keys| - 1;
      Parts(keys[..n], q) + PartsFor(keys[n], Sort(q[keys[n]], Le))
  }

  function Join(parts: seq<Bytes>): Bytes {
    if parts == [] then [] else if |parts| == 1 then parts[0] else Join(parts[..|parts| - 1]) + [AMP] + parts[|parts| - 1]
  }

  /** The query's keys, each once, in order. */
  ghost predicate Listing(keys: seq<Bytes>, q: Query) {
    SortedBy(keys, Le) && Distinct(keys) && forall k :: k in keys <==> k in q
  }

  ghost predicate IsCanonical(q: Query, s: Bytes) {
    exists keys :: Listing(keys, q) && s == Join(Parts(keys, q))
  }

  method CanonicalQuery(q: Query) returns (s: Bytes)
    ensures IsCanonical(q, s)
  {
    if q == map[] {
      NothingToSend(q);
      return [];
    }
    hide Listing, PartsFor, Sort;
    var keys := SortedKeys(q);
    Listed(keys, q);
    var parts := [];
    for i := 0 to |keys|
      invariant forall k :: k in keys ==> k in q
      invariant parts == Parts(keys[..i], q)
    {
      assert keys[i] in keys && keys[..i + 1][..i] == keys[..i];
      var more := KeyParts(keys[i], q[keys[i]]);
      parts := parts + more;
    }
    assert keys[..|keys|] == keys;
    s := Join(parts);
    assert IsCanonical(q, s);
  }

  lemma Listed(keys: seq<Bytes>, q: Query)
    requires Listing(keys, q)
    ensures forall k :: k in keys ==> k in q
  {
  }

  lemma NothingToSend(q: Query)
    requires q == map[]
    ensures IsCanonical(q, [])
  {
    assert Listing([], q) && Join(Parts([], q)) == [];
  }

  method SortedKeys(q: Query) returns (keys: seq<Bytes>)
    ensures Listing(keys, q)
  {
    var unsorted := KeysOf(q);
    keys := Sort(unsorted, Le);
    LeOrders();
    SortSorts(unsorted, Le);
    SortedListing(unsorted, keys, q);
  }

  method KeyParts(k: Bytes, values: seq<Bytes>) returns (parts: seq<Bytes>)
    ensures parts == PartsFor(k, Sort(values, Le))
  {
    var vs := Sort(values, Le);
    parts := [];
    for j := 0 to |vs|
      invariant parts == PartsFor(k, vs)[..j]
    {
      var key := UriEncode(k, false);
      var value := UriEncode(vs[j], false);
      parts := parts + [key + [EQUALS] + value];
    }
  }

  lemma SortedListing(unsorted: seq<Bytes>, keys: seq<Bytes>, q: Query)
    requires Distinct(unsorted) && (forall k :: k in unsorted <==> k in q)
    requires SortedBy(keys, Le) && Permutation(keys, unsorted)
    ensures Listing(keys, q)
  {
    StaysDistinct(keys, unsorted);
  }

  /** There is only one canonical form. */
  lemma CanonicalIsUnique(q: Query, s: Bytes, t: Bytes)
    requires IsCanonical(q, s) && IsCanonical(q, t)
    ensures s == t
  {
    var a :| Listing(a, q) && s == Join(Parts(a, q));
    var b :| Listing(b, q) && t == Join(Parts(b, q));
    ListingIsUnique(a, b, q);
  }

  lemma ListingIsUnique(a: seq<Bytes>, b: seq<Bytes>, q: Query)
    requires Listing(a, q) && Listing(b, q)
    ensures a == b
  {
    forall x ensures multiset(a)[x] == multiset(b)[x] {
      OnceIn(a, x);
      OnceIn(b, x);
    }
    LeOrders();
    SortedUnique(a, b, Le);
  }

  /** The query of a list request, for any prefix. */
  function ListQuery(prefix: Bytes): Query {
    map[Ascii("list-type") := [Ascii("2")], Ascii("max-keys") := [Ascii("100")], Ascii("prefix") := [prefix]]
  }

  function ListKeys(): seq<Bytes> {
    [Ascii("list-type"), Ascii("max-keys"), Ascii("prefix")]
  }

  lemma ListKeysAreSorted(prefix: Bytes)
    ensures Listing(ListKeys(), ListQuery(prefix))
  {
    var keys := ListKeys();
    assert keys[0][0] == 108 && keys[1][0] == 109 && keys[2][0] == 112;
    assert keys[0][0] < keys[1][0] < keys[2][0];
  }

  /** What goes on the wire for it. */
  function ListOnTheWire(prefix: Bytes): Bytes {
    Ascii("list-type=2") + Ascii("&") + Ascii("max-keys=100") + Ascii("&") + (Ascii("prefix=") + Encoded(prefix, false))
  }

  /** Its one canonical form. */
  lemma ListRequest(prefix: Bytes, s: Bytes)
    ensures IsCanonical(ListQuery(prefix), s) <==> s == ListOnTheWire(prefix)
  {
    var keys, q, wire := ListKeys(), ListQuery(prefix), ListOnTheWire(prefix);
    ListKeysAreSorted(prefix);
    ListParts(keys, q, prefix);
    hide Listing, Parts, Join, ListQuery, ListOnTheWire, ListKeys;
    assert IsCanonical(q, wire);
    if IsCanonical(q, s) { CanonicalIsUnique(q, s, wire); }
  }

  lemma ListParts(keys: seq<Bytes>, q: Query, prefix: Bytes)
    requires keys == ListKeys() && q == ListQuery(prefix)
    ensures (forall k :: k in keys ==> k in q) && Join(Parts(keys, q)) == ListOnTheWire(prefix)
  {
    hide Encoded, Ascii, Part, Parts, Join;
    ListLookups(prefix);
    assert keys == [keys[0], keys[1], keys[2]];
    ThreeKeys(q, keys[0], keys[1], keys[2], Ascii("2"), Ascii("100"), prefix);
    FixedParts();
    PrefixPart(prefix);
    Ampersand();
  }

  lemma Ampersand()
    ensures Ascii("&") == [AMP] && Ascii("=") == [EQUALS]
  {
  }

  lemma ListLookups(prefix: Bytes)
    ensures forall k :: k in ListKeys() ==> k in ListQuery(prefix)
    ensures var q := ListQuery(prefix);
            q[ListKeys()[0]] == [Ascii("2")] && q[ListKeys()[1]] == [Ascii("100")] && q[ListKeys()[2]] == [prefix]
  {
    var keys := ListKeys();
    assert keys[0][0] == 108 && keys[1][0] == 109 && keys[2][0] == 112;
  }

  lemma ThreeKeys(q: Query, x: Bytes, y: Bytes, z: Bytes, a: Bytes, b: Bytes, c: Bytes)
    requires x in q && y in q && z in q && q[x] == [a] && q[y] == [b] && q[z] == [c]
    ensures Join(Parts([x, y, z], q)) == Part(x, a) + [AMP] + Part(y, b) + [AMP] + Part(z, c)
  {
    hide Part, Parts, Join;
    OneMorePart([], x, a, q);
    OneMorePart([x], y, b, q);
    OneMorePart([x, y], z, c, q);
    assert [] + [x] == [x] && [x] + [y] == [x, y] && [x, y] + [z] == [x, y, z];
    ThreeParts(Part(x, a), Part(y, b), Part(z, c));
  }

  lemma OneMorePart(init: seq<Bytes>, k: Bytes, v: Bytes, q: Query)
    requires k in q && q[k] == [v] && forall x :: x in init ==> x in q
    ensures Parts(init + [k], q) == (if init == [] then [] else Parts(init, q)) + [Part(k, v)]
  {
    assert (init + [k])[..|init|] == init;
    assert Sort([v], Le) == [v] by { assert [v][1..] == []; }
    assert PartsFor(k, [v]) == [Part(k, v)];
  }

  lemma ThreeParts(a: Bytes, b: Bytes, c: Bytes)
    ensures Join([] + [a] + [b] + [c]) == a + [AMP] + b + [AMP] + c
  {
    assert [a, b, c][..2] == [a, b] && [a, b][..1] == [a];
    assert [] + [a] + [b] + [c] == [a, b, c];
    assert Join([a]) == a;
    assert Join([a, b]) == a + [AMP] + b;
  }

  predicate PlainWord(s: string) {
    forall i :: 0 <= i < |s| ==> Plain(Ascii(s)[i], false)
  }

  lemma Word(k: string, v: string, both: string)
    requires PlainWord(k) && PlainWord(v) && both == k + "=" + v
    ensures Part(Ascii(k), Ascii(v)) == Ascii(both)
  {
    PlainIsKept(Ascii(k), false);
    PlainIsKept(Ascii(v), false);
    hide Encoded;
    assert Ascii("=") == [EQUALS];
    AsciiConcat(k, "=");
    AsciiConcat(k + "=", v);
  }

  lemma FixedParts()
    ensures Part(Ascii("list-type"), Ascii("2")) == Ascii("list-type=2")
    ensures Part(Ascii("max-keys"), Ascii("100")) == Ascii("max-keys=100")
  {
    hide Part;
    assert "list-type" + "=" + "2" == "list-type=2" && "max-keys" + "=" + "100" == "max-keys=100";
    Word("list-type", "2", "list-type=2");
    Word("max-keys", "100", "max-keys=100");
  }

  lemma PrefixPart(prefix: Bytes)
    ensures Part(Ascii("prefix"), prefix) == Ascii("prefix=") + Encoded(prefix, false)
  {
    PlainIsKept(Ascii("prefix"), false);
    hide Encoded;
    assert Ascii("=") == [EQUALS];
    AsciiConcat("prefix", "=");
    assert "prefix" + "=" == "prefix=";
  }

  // ----- reading it back

  function Split(s: Bytes): (r: seq<Bytes>)
    ensures |r| >= 1
  {
    if s == [] then [[]]
    else
      var r := Split(s[..|s| - 1]);
      var c := s[|s| - 1];
      if c == AMP then r + [[]] else r[|r| - 1 := r[|r| - 1] + [c]]
  }

  function Cut(s: Bytes): (Bytes, Bytes) {
    if s == [] then ([], [])
    else if s[0] == EQUALS then ([], s[1..])
    else var (a, b) := Cut(s[1..]); ([s[0]] + a, b)
  }

  function Values(q: Query, k: Bytes): seq<Bytes> { if k in q then q[k] else [] }

  /** One segment of a query: an empty one is nothing, and one that does not
      decode is passed over. */
  function AddSegment(q: Query, segment: Bytes): Query {
    if segment == [] then q
    else
      var (a, b) := Cut(segment);
      var k, v := Decode(a, true), Decode(b, true);
      if k.None? || v.None? then q else q[k.value := Values(q, k.value) + [v.value]]
  }

  function AddSegments(q: Query, segments: seq<Bytes>): Query {
    if segments == [] then q else AddSegment(AddSegments(q, segments[..|segments| - 1]), segments[|segments| - 1])
  }

  function ParseQuery(s: Bytes): Query { AddSegments(map[], Split(s)) }

  /** The query with every list of values sorted, and the keys with none gone. */
  function Normal(q: Query): Query {
    map k | k in q && q[k] != [] :: Sort(q[k], Le)
  }

  lemma {:induction false} SplitPlain(p: Bytes)
    requires AMP !in p
    ensures Split(p) == [p]
  {
    if p != [] {
      assert p[|p| - 1] in p;
      forall c | c in p[..|p| - 1] ensures c in p {}
      SplitPlain(p[..|p| - 1]);
      assert p == p[..|p| - 1] + [p[|p| - 1]];
    }
  }

  lemma {:induction false} SplitAfter(s: Bytes, p: Bytes)
    requires AMP !in p
    ensures Split(s + [AMP] + p) == Split(s) + [p]
    decreases |p|
  {
    var t := s + [AMP] + p;
    if p == [] {
      assert t[..|t| - 1] == s;
    } else {
      assert p[|p| - 1] in p;
      forall c | c in p[..|p| - 1] ensures c in p {}
      SplitAfter(s, p[..|p| - 1]);
      assert t[..|t| - 1] == s + [AMP] + p[..|p| - 1];
      assert p == p[..|p| - 1] + [p[|p| - 1]];
    }
  }

  lemma {:induction false} SplitJoin(parts: seq<Bytes>)
    requires parts != [] && forall p :: p in parts ==> AMP !in p
    ensures Split(Join(parts)) == parts
  {
    hide Split;
    var n := |parts| - 1;
    assert parts[n] in parts;
    if n == 0 {
      SplitPlain(parts[0]);
    } else {
      forall p | p in parts[..n] ensures p in parts {}
      SplitJoin(parts[..n]);
      SplitAfter(Join(parts[..n]), parts[n]);
    }
  }

  lemma {:induction false} CutAt(a: Bytes, b: Bytes)
    requires EQUALS !in a
    ensures Cut(a + [EQUALS] + b) == (a, b)
    decreases |a|
  {
    var s := a + [EQUALS] + b;
    if a == [] {
      assert s[1..] == b;
    } else {
      assert a[0] in a && s[1..] == a[1..] + [EQUALS] + b;
      CutAt(a[1..], b);
      assert [a[0]] + a[1..] == a;
    }
  }

  lemma PartReadsBack(q: Query, k: Bytes, v: Bytes)
    ensures AddSegment(q, Part(k, v)) == q[k := Values(q, k) + [v]]
    ensures AMP !in Part(k, v)
  {
    EncodedIsPlain(k);
    EncodedIsPlain(v);
    CutAt(Encoded(k, false), Encoded(v, false));
    EncodeRoundTrip(k, false, true);
    EncodeRoundTrip(v, false, true);
  }

  /** The values added to a key, one after another. */
  function AddValues(q: Query, k: Bytes, vs: seq<Bytes>): Query {
    if vs == [] then q else q[k := Values(q, k) + vs]
  }

  lemma AddOneMore(q: Query, k: Bytes, vs: seq<Bytes>, v: Bytes)
    ensures var r := AddValues(q, k, vs); r[k := Values(r, k) + [v]] == AddValues(q, k, vs + [v])
  {
    assert Values(q, k) + vs + [v] == Values(q, k) + (vs + [v]);
    assert vs == [] ==> vs + [v] == [v];
  }

  lemma {:induction false} KeyReadsBack(q: Query, k: Bytes, vs: seq<Bytes>)
    ensures AddSegments(q, PartsFor(k, vs)) == AddValues(q, k, vs)
    decreases |vs|
  {
    hide AddSegment, Part;
    if vs != [] {
      var n := |vs| - 1;
      KeyReadsBack(q, k, vs[..n]);
      assert PartsFor(k, vs)[..n] == PartsFor(k, vs[..n]);
      PartReadsBack(AddValues(q, k, vs[..n]), k, vs[n]);
      AddOneMore(q, k, vs[..n], vs[n]);
      assert vs == vs[..n] + [vs[n]];
    }
  }

  lemma {:induction false} AddConcat(q: Query, a: seq<Bytes>, b: seq<Bytes>)
    ensures AddSegments(q, a + b) == AddSegments(AddSegments(q, a), b)
    decreases |b|
  {
    if b == [] {
      assert a + b == a;
    } else {
      assert (a + b)[..|a + b| - 1] == a + b[..|b| - 1];
      AddConcat(q, a, b[..|b| - 1]);
    }
  }

  /** The keys of a list that have values, with the values sorted. */
  function NormalOf(keys: seq<Bytes>, q: Query): Query
    requires forall k :: k in keys ==> k in q
  {
    map k | k in keys && q[k] != [] :: Sort(q[k], Le)
  }

  lemma NormalSnoc(init: seq<Bytes>, k: Bytes, q: Query)
    requires k !in init && k in q && forall x :: x in init ==> x in q
    ensures NormalOf(init + [k], q) == AddValues(NormalOf(init, q), k, Sort(q[k], Le))
  {
    SortEmpty(q[k]);
    assert [] + Sort(q[k], Le) == Sort(q[k], Le);
  }

  lemma {:induction false} KeysReadBack(keys: seq<Bytes>, q: Query)
    requires Distinct(keys) && forall k :: k in keys ==> k in q
    ensures AddSegments(map[], Parts(keys, q)) == NormalOf(keys, q)
  {
    hide AddSegments, PartsFor, Le;
    if keys != [] {
      var n := |keys| - 1;
      var init, k := keys[..n], keys[n];
      assert keys == init + [k];
      KeysReadBack(init, q);
      AddConcat(map[], Parts(init, q), PartsFor(k, Sort(q[k], Le)));
      KeyReadsBack(NormalOf(init, q), k, Sort(q[k], Le));
      NormalSnoc(init, k, q);
    } else {
      NothingAdded();
    }
  }

  lemma NothingAdded()
    ensures AddSegments(map[], []) == map[] == AddSegments(map[], [[]])
  {
    var one: seq<Bytes> := [[]];
    assert one[..0] == [];
  }

  lemma SortEmpty(vs: seq<Bytes>)
    ensures Sort(vs, Le) == [] <==> vs == []
  {
    LeOrders();
    SortSorts(vs, Le);
  }

  lemma {:induction false} PartsArePlain(keys: seq<Bytes>, q: Query)
    requires forall k :: k in keys ==> k in q
    ensures forall p :: p in Parts(keys, q) ==> AMP !in p
  {
    if keys != [] {
      var n := |keys| - 1;
      PartsArePlain(keys[..n], q);
      forall p | p in PartsFor(keys[n], Sort(q[keys[n]], Le)) ensures AMP !in p {
        var i :| 0 <= i < |Sort(q[keys[n]], Le)| && p == Part(keys[n], Sort(q[keys[n]], Le)[i]);
        PartReadsBack(map[], keys[n], Sort(q[keys[n]], Le)[i]);
      }
    }
  }

  lemma NormalListed(keys: seq<Bytes>, q: Query)
    requires Listing(keys, q)
    ensures (forall k :: k in keys ==> k in q) && NormalOf(keys, q) == Normal(q)
  {
    hide Sort, Le;
  }

  /** The server reads back every key that has values, with its values in order. */
  lemma QueryReadsBack(q: Query, s: Bytes)
    requires IsCanonical(q, s)
    ensures ParseQuery(s) == Normal(q)
  {
    var keys :| Listing(keys, q) && s == Join(Parts(keys, q));
    KeysReadBack(keys, q);
    NothingAdded();
    NormalListed(keys, q);
    hide AddSegments, Normal, NormalOf, Listing;
    if Parts(keys, q) == [] {
      assert Split(s) == [[]];
    } else {
      PartsArePlain(keys, q);
      SplitJoin(Parts(keys, q));
    }
  }

  /** So nothing is lost but the order of a key's values, if and only if every key
      has at least one. */
  lemma QueryRoundTripIff(q: Query, s: Bytes)
    requires IsCanonical(q, s)
    ensures ParseQuery(s) == (map k | k in q :: Sort(q[k], Le)) <==> forall k :: k in q ==> q[k] != []
  {
    QueryReadsBack(q, s);
    if k :| k in q && q[k] == [] { assert k !in Normal(q); }
  }

  /** Two queries whose keys all have values are sent alike only if they are alike. */
  lemma CanonicalIsInjective(p: Query, q: Query, s: Bytes)
    requires IsCanonical(p, s) && IsCanonical(q, s)
    requires (forall k :: k in p ==> p[k] != []) && (forall k :: k in q ==> q[k] != [])
    ensures p.Keys == q.Keys && forall k :: k in p ==> Permutation(p[k], q[k])
  {
    QueryReadsBack(p, s);
    QueryReadsBack(q, s);
    assert Normal(p).Keys == p.Keys && Normal(q).Keys == q.Keys;
    LeOrders();
    forall k | k in p ensures Permutation(p[k], q[k]) {
      SortSorts(p[k], Le);
      SortSorts(q[k], Le);
      assert Normal(p)[k] == Normal(q)[k];
    }
  }

  function Valued(keys: seq<Bytes>, q: Query): seq<Bytes>
    requires forall k :: k in keys ==> k in q
  {
    if keys == [] then []
    else
      var n := |keys| - 1;
      Valued(keys[..n], q) + (if q[keys[n]] != [] then [keys[n]] else [])
  }

  lemma {:induction false} ValuedKeys(keys: seq<Bytes>, q: Query)
    requires SortedBy(keys, Le) && Distinct(keys) && forall k :: k in keys ==> k in q
    ensures var v := Valued(keys, q);
            SortedBy(v, Le) && Distinct(v) && (forall k :: k in v <==> k in keys && q[k] != [])
  {
    if keys != [] {
      var n := |keys| - 1;
      ValuedKeys(keys[..n], q);
      assert keys == keys[..n] + [keys[n]];
      var was := Valued(keys[..n], q);
      forall i | 0 <= i < |was| ensures Le(was[i], keys[n]) && was[i] != keys[n] {
        assert was[i] in keys[..n];
      }
    }
  }

  lemma {:induction false} ValuedParts(keys: seq<Bytes>, q: Query)
    requires forall k :: k in keys ==> k in q
    requires forall k :: k in Valued(keys, q) ==> k in Normal(q)
    ensures Parts(Valued(keys, q), Normal(q)) == Parts(keys, q)
  {
    if keys != [] {
      var n := |keys| - 1;
      var k := keys[n];
      forall x | x in Valued(keys[..n], q) ensures x in Valued(keys, q) {}
      ValuedParts(keys[..n], q);
      SortEmpty(q[k]);
      if q[k] == [] {
        assert PartsFor(k, Sort(q[k], Le)) == [];
        assert Valued(keys, q) == Valued(keys[..n], q);
      } else {
        assert k in Valued(keys, q);
        assert Valued(keys, q)[..|Valued(keys, q)| - 1] == Valued(keys[..n], q);
        SortTwice(q[k]);
      }
    }
  }

  lemma SortTwice(vs: seq<Bytes>)
    ensures Sort(Sort(vs, Le), Le) == Sort(vs, Le)
  {
    LeOrders();
    SortSorts(vs, Le);
    SortSorts(Sort(vs, Le), Le);
    SortedUnique(Sort(Sort(vs, Le), Le), Sort(vs, Le), Le);
  }

  /** The query that is signed, canonicalised again from the url that was sent, is
      the string that was sent. */
  lemma SignedQueryIsSent(q: Query, s: Bytes, t: Bytes)
    requires IsCanonical(q, s) && IsCanonical(ParseQuery(s), t)
    ensures t == s
  {
    QueryReadsBack(q, s);
    var keys :| Listing(keys, q) && s == Join(Parts(keys, q));
    ValuedKeys(keys, q);
    assert Listing(Valued(keys, q), Normal(q));
    ValuedParts(keys, q);
    CanonicalIsUnique(Normal(q), s, t);
  }
}
