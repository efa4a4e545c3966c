/** The JA4 fingerprint (src/cowrie/core/fingerprint.py). */
module Ja4 {
  import opened Common

  // What the fingerprint takes from src/cowrie/vendor/ja4/common.py: the GREASE values, the
  // version names, and the first twelve digits of the hash of a text.
  datatype Vendor = Vendor(grease: set<u16>, versions: map<u16, string>, sha: string -> string)

  // The arguments that are neither ciphers nor extensions.
  datatype Context = Context(
    tlsVersion: u16, hasSni: bool, alpn: Option<string>, signatureAlgorithms: seq<u16>, useQuic: bool)

  const NO_HASH := "000000000000"

  function HexDigit(n: nat): char
    requires n < 16
  {
    "0123456789abcdef"[n]
  }

  // f"{v:04x}"
  function Hex4(v: u16): (s: string)
    ensures |s| == 4
  {
    [HexDigit(v / 0x1000), HexDigit(v / 0x100 % 16), HexDigit(v / 0x10 % 16), HexDigit(v % 16)]
  }

  function Hexes(vs: seq<u16>): (s: seq<string>)
    ensures |s| == |vs| && forall i :: 0 <= i < |s| ==> |s[i]| == 4
  {
    if vs == [] then [] else [Hex4(vs[0])] + Hexes(vs[1..])
  }

  function WithoutGrease(vs: seq<u16>, grease: set<u16>): seq<u16> {
    if vs == [] then []
    else (if vs[0] in grease then [] else [vs[0]]) + WithoutGrease(vs[1..], grease)
  }

  // Python's order on strings.
  predicate LexLe(a: string, b: string) {
    a == [] || (b != [] && (a[0] < b[0] || (a[0] == b[0] && LexLe(a[1..], b[1..]))))
  }

  function Insert(x: string, s: seq<string>): seq<string> {
    if s == [] || LexLe(x, s[0]) then [x] + s else [s[0]] + Insert(x, s[1..])
  }

  // sorted()
  function Sort(s: seq<string>): seq<string> {
    if s == [] then [] else Insert(s[0], Sort(s[1..]))
  }

  // ",".join(s)
  function Join(s: seq<string>): string {
    if s == [] then "" else if |s| == 1 then s[0] else s[0] + "," + Join(s[1..])
  }

  // f"{min(n, 99):02d}"
  function TwoDigits(n: nat): (s: string)
    ensures |s| == 2
  {
    var m := Min(n, 99);
    [HexDigit(m / 10), HexDigit(m % 10)]
  }

  function AlpnCode(alpn: Option<string>): string {
    if alpn.Some? && |alpn.value| > 2 then [alpn.value[0], alpn.value[|alpn.value| - 1]]
    else if alpn.Some? && alpn.value != "" then alpn.value
    else "00"
  }

  function Sorted4(v: Vendor, values: seq<u16>): seq<string> {
    Sort(Hexes(WithoutGrease(values, v.grease)))
  }

  // The text after the extensions, when there are signature algorithms.
  function Suffix(signatureAlgorithms: seq<u16>): string {
    if signatureAlgorithms == [] then "" else "_" + Join(Hexes(signatureAlgorithms))
  }

  // `sha_encode` of what is left of the values, with a suffix; a list is joined by commas first.
  function Hashed(v: Vendor, values: seq<u16>, suffix: string): string {
    if Sorted4(v, values) == [] then NO_HASH else v.sha(Join(Sorted4(v, values)) + suffix)
  }

  function Counts(v: Vendor, ciphers: seq<u16>, extensions: seq<u16>): (s: string)
    ensures |s| == 4
  {
    TwoDigits(|WithoutGrease(ciphers, v.grease)|) + TwoDigits(|WithoutGrease(extensions, v.grease)|)
  }

  function Head(v: Vendor, c: Context): string {
    (if c.useQuic then "q" else "t")
    + (if c.tlsVersion in v.versions then v.versions[c.tlsVersion] else "00")
    + (if c.hasSni then "d" else "i")
  }

  // `generate_ja4`
  function GenerateJa4(v: Vendor, c: Context, ciphers: seq<u16>, extensions: seq<u16>): string {
    Head(v, c) + (Counts(v, ciphers, extensions) + (AlpnCode(c.alpn) + "_"
      + (Hashed(v, ciphers, "") + ("_" + Hashed(v, extensions, Suffix(c.signatureAlgorithms))))))
  }

  // ----- what the characters of a fingerprint are

  function DigitValue(d: char): nat {
    if '0' <= d <= '9' then d as int - '0' as int
    else if 'a' <= d <= 'f' then d as int - 'a' as int + 10
    else 0
  }

  lemma DigitReads(n: nat)
    requires n < 16
    ensures DigitValue(HexDigit(n)) == n
  {
  }

  // A number in four hexadecimal digits, the highest first.
  lemma HexReads(v: u16)
    ensures
      var s := Hex4(v);
      v == 0x1000 * DigitValue(s[0]) + 0x100 * DigitValue(s[1]) + 0x10 * DigitValue(s[2]) + DigitValue(s[3])
  {
    DigitReads(v / 0x1000);
    DigitReads(v / 0x100 % 16);
    DigitReads(v / 0x10 % 16);
    DigitReads(v % 16);
    DigitsSum(v);
    hide HexDigit, DigitValue;
  }

  // Two decimal digits, and 99 for anything larger.
  lemma TwoDigitsRead(n: nat)
    ensures
      var s := TwoDigits(n);
      '0' <= s[0] <= '9' && '0' <= s[1] <= '9' && 10 * DigitValue(s[0]) + DigitValue(s[1]) == Min(n, 99)
  {
    DigitReads(Min(n, 99) / 10);
    DigitReads(Min(n, 99) % 10);
  }

  // The first and the last character of a name; a name of one or two is taken as it is.
  ghost predicate NamesProtocol(code: string, alpn: Option<string>) {
    if alpn == None || alpn == Some("") then code == "00"
    else |code| == Min(|alpn.value|, 2) && code[0] == alpn.value[0] && code[|code| - 1] == alpn.value[|alpn.value| - 1]
  }

  lemma AlpnNamed(alpn: Option<string>)
    ensures NamesProtocol(AlpnCode(alpn), alpn)
  {
  }

  // A hash part: zeros for no value that counts, or else the hash of the sorted values.
  ghost predicate HashPart(part: string, v: Vendor, values: seq<u16>, suffix: string) {
    if forall x :: x in values ==> x in v.grease then part == "000000000000"
    else
      exists texts ::
        && part == v.sha(Join(texts) + suffix) && Sorted(texts)
        && multiset(texts) == multiset(Hexes(WithoutGrease(values, v.grease)))
  }

  lemma {:induction false} NothingLeft(vs: seq<u16>, grease: set<u16>)
    ensures WithoutGrease(vs, grease) == [] <==> forall x :: x in vs ==> x in grease
  {
    if vs != [] {
      NothingLeft(vs[1..], grease);
      assert forall x :: x in vs <==> x == vs[0] || x in vs[1..];
    }
  }

  lemma HashedIsPart(v: Vendor, values: seq<u16>, suffix: string)
    ensures HashPart(Hashed(v, values, suffix), v, values, suffix)
  {
    var left := Hexes(WithoutGrease(values, v.grease));
    NothingLeft(values, v.grease);
    SortSorts(left);
    SortPermutes(left);
    assert Sort(left) == [] ==> multiset(left) == multiset{};
    assert left != [] ==> left[0] in multiset(left);
    hide Join, Sorted, WithoutGrease;
  }

  /** The fingerprint character by character: the transport, the version, whether there is a
      server name, how many ciphers and extensions count, the protocol, and the two hashes. */
  lemma FingerprintReads(v: Vendor, c: Context, ciphers: seq<u16>, extensions: seq<u16>)
    returns (alpn: string, cipherPart: string, extensionPart: string)
    requires forall t :: t in v.versions ==> |v.versions[t]| == 2
    ensures
      var f := GenerateJa4(v, c, ciphers, extensions);
      var some, more := |WithoutGrease(ciphers, v.grease)|, |WithoutGrease(extensions, v.grease)|;
      && |f| >= 8 && f[8..] == alpn + "_" + cipherPart + "_" + extensionPart
      && f[0] == (if c.useQuic then 'q' else 't') && f[3] == (if c.hasSni then 'd' else 'i')
      && f[1..3] == (if c.tlsVersion in v.versions then v.versions[c.tlsVersion] else "00")
      && 10 * DigitValue(f[4]) + DigitValue(f[5]) == Min(some, 99)
      && 10 * DigitValue(f[6]) + DigitValue(f[7]) == Min(more, 99)
    ensures NamesProtocol(alpn, c.alpn) && HashPart(cipherPart, v, ciphers, "")
    ensures HashPart(extensionPart, v, extensions,
      if c.signatureAlgorithms == [] then "" else "_" + Join(Hexes(c.signatureAlgorithms)))
  {
    hide *;
    var some, more := |WithoutGrease(ciphers, v.grease)|, |WithoutGrease(extensions, v.grease)|;
    alpn := AlpnCode(c.alpn);
    cipherPart, extensionPart := Hashed(v, ciphers, ""), Hashed(v, extensions, Suffix(c.signatureAlgorithms));
    AlpnNamed(c.alpn);
    HashedIsPart(v, ciphers, "");
    HashedIsPart(v, extensions, Suffix(c.signatureAlgorithms));
    SuffixIs(c.signatureAlgorithms);
    TwoDigitsRead(some);
    TwoDigitsRead(more);
    HeadReads(v, c);
    PartsOf(v, c, ciphers, extensions);
    FieldsOf(Head(v, c), TwoDigits(some) + TwoDigits(more), alpn + "_" + cipherPart + "_" + extensionPart);
  }

  lemma SuffixIs(signatureAlgorithms: seq<u16>)
    ensures
      Suffix(signatureAlgorithms)
      == if signatureAlgorithms == [] then "" else "_" + Join(Hexes(signatureAlgorithms))
  {
  }

  lemma PartsOf(v: Vendor, c: Context, ciphers: seq<u16>, extensions: seq<u16>)
    ensures
      var some, more := |WithoutGrease(ciphers, v.grease)|, |WithoutGrease(extensions, v.grease)|;
      GenerateJa4(v, c, ciphers, extensions)
      == Head(v, c) + (TwoDigits(some) + TwoDigits(more)) + (AlpnCode(c.alpn) + "_" + Hashed(v, ciphers, "") + "_"
           + Hashed(v, extensions, Suffix(c.signatureAlgorithms)))
  {
    var one, two := Hashed(v, ciphers, ""), Hashed(v, extensions, Suffix(c.signatureAlgorithms));
    var alpn := AlpnCode(c.alpn);
    assert Counts(v, ciphers, extensions)
        == TwoDigits(|WithoutGrease(ciphers, v.grease)|) + TwoDigits(|WithoutGrease(extensions, v.grease)|);
    hide Hashed, Head, Counts, AlpnCode, TwoDigits, WithoutGrease, Suffix;
    assert alpn + "_" + one + "_" + two == alpn + ("_" + (one + ("_" + two)));
  }

  lemma HeadReads(v: Vendor, c: Context)
    requires forall t :: t in v.versions ==> |v.versions[t]| == 2
    ensures
      var h := Head(v, c);
      && |h| == 4 && h[0] == (if c.useQuic then 'q' else 't') && h[3] == (if c.hasSni then 'd' else 'i')
      && h[1..3] == (if c.tlsVersion in v.versions then v.versions[c.tlsVersion] else "00")
  {
  }

  lemma FieldsOf(head: string, counts: string, rest: string)
    requires |head| == 4 && |counts| == 4
    ensures
      var f := head + counts + rest;
      && |f| >= 8 && f[8..] == rest && f[0] == head[0] && f[3] == head[3] && f[1..3] == head[1..3]
      && f[4] == counts[0] && f[5] == counts[1] && f[6] == counts[2] && f[7] == counts[3]
  {
  }

  // ----- sorting forgets the order and nothing else

  lemma {:induction false} LexTotal(a: string, b: string)
    ensures LexLe(a, b) || LexLe(b, a)
    ensures LexLe(a, b) && LexLe(b, a) ==> a == b
  {
    if a != [] && b != [] && a[0] == b[0] {
      LexTotal(a[1..], b[1..]);
      assert a == [a[0]] + a[1..] && b == [b[0]] + b[1..];
    }
  }

  lemma {:induction false} LexTransitive(a: string, b: string, c: string)
    requires LexLe(a, b) && LexLe(b, c)
    ensures LexLe(a, c)
  {
    if a != [] && a[0] == b[0] && b[0] == c[0] {
      LexTransitive(a[1..], b[1..], c[1..]);
    }
  }

  lemma {:induction false} InsertsCommute(x: string, y: string, s: seq<string>)
    ensures Insert(x, Insert(y, s)) == Insert(y, Insert(x, s))
  {
    LexTotal(x, y);
    if s != [] {
      if LexLe(x, y) && LexLe(y, s[0]) { LexTransitive(x, y, s[0]); }
      if LexLe(y, x) && LexLe(x, s[0]) { LexTransitive(y, x, s[0]); }
      InsertsCommute(x, y, s[1..]);
    }
  }

  lemma {:induction false} SortOfMiddle(a: seq<string>, x: string, b: seq<string>)
    ensures Sort(a + [x] + b) == Insert(x, Sort(a + b))
  {
    if a == [] {
      assert [] + [x] + b == [x] + b && [] + b == b;
    } else {
      SortOfMiddle(a[1..], x, b);
      assert (a + [x] + b)[1..] == a[1..] + [x] + b;
      assert (a + b)[1..] == a[1..] + b;
      InsertsCommute(x, a[0], Sort(a[1..] + b));
    }
  }

  lemma {:induction false} InsertAdds(x: string, s: seq<string>)
    ensures multiset(Insert(x, s)) == multiset{x} + multiset(s)
  {
    if s != [] && !LexLe(x, s[0]) {
      InsertAdds(x, s[1..]);
      assert s == [s[0]] + s[1..];
    }
  }

  lemma {:induction false} SortPermutes(s: seq<string>)
    ensures multiset(Sort(s)) == multiset(s)
  {
    if s != [] {
      SortPermutes(s[1..]);
      InsertAdds(s[0], Sort(s[1..]));
      assert s == [s[0]] + s[1..];
    }
  }

  ghost predicate Sorted(s: seq<string>) {
    forall i :: 0 <= i < |s| - 1 ==> LexLe(s[i], s[i + 1])
  }

  lemma {:induction false} SortSorts(s: seq<string>)
    ensures Sorted(Sort(s))
  {
    if s != [] {
      SortSorts(s[1..]);
      InsertSorts(s[0], Sort(s[1..]));
    }
  }

  lemma {:induction false} InsertSorts(x: string, s: seq<string>)
    requires Sorted(s)
    ensures Sorted(Insert(x, s))
    ensures Insert(x, s)[0] == x || (s != [] && Insert(x, s)[0] == s[0])
  {
    if s != [] && !LexLe(x, s[0]) {
      LexTotal(x, s[0]);
      InsertSorts(x, s[1..]);
      assert s[1..] != [] ==> s[1..][0] == s[1];
    }
  }

  lemma {:induction false} HexesConcat(a: seq<u16>, b: seq<u16>)
    ensures Hexes(a + b) == Hexes(a) + Hexes(b)
  {
    hide Hex4;
    if a == [] {
      assert a + b == b;
    } else {
      HexesConcat(a[1..], b);
      assert (a + b)[1..] == a[1..] + b;
    }
  }

  lemma TakeOut<T>(x: T, t: seq<T>) returns (a: seq<T>, b: seq<T>)
    requires x in t
    ensures t == a + [x] + b && multiset(a + b) == multiset(t) - multiset{x}
  {
    var i :| 0 <= i < |t| && t[i] == x;
    a, b := t[..i], t[i + 1..];
    assert t == a + [x] + b;
    assert multiset(a + [x] + b) == multiset(a) + multiset{x} + multiset(b);
  }

  // Lists with the same values sort to the same list.
  lemma {:induction false} SortForgetsOrder(s: seq<u16>, t: seq<u16>)
    requires multiset(s) == multiset(t)
    ensures Sort(Hexes(s)) == Sort(Hexes(t))
    decreases |s|
  {
    if s == [] {
      assert |multiset(t)| == 0;
    } else {
      assert s == [s[0]] + s[1..];
      assert multiset(s) == multiset{s[0]} + multiset(s[1..]);
      assert s[0] in multiset(t);
      var a, b := TakeOut(s[0], t);
      SortForgetsOrder(s[1..], a + b);
      HexesConcat(a + [s[0]], b);
      HexesConcat(a, [s[0]]);
      HexesConcat(a, b);
      assert Hexes([s[0]]) == [Hex4(s[0])];
      SortOfMiddle(Hexes(a), Hex4(s[0]), Hexes(b));
      hide Hex4, Insert;
    }
  }

  // ----- what the fingerprint depends on

  lemma {:induction false} GreaseCount(vs: seq<u16>, grease: set<u16>, x: u16)
    ensures multiset(WithoutGrease(vs, grease))[x] == if x in grease then 0 else multiset(vs)[x]
  {
    if vs != [] {
      GreaseCount(vs[1..], grease, x);
      assert vs == [vs[0]] + vs[1..];
    }
  }

  // The lists agree on how often each value occurs, GREASE aside.
  ghost predicate SameButGrease(a: seq<u16>, b: seq<u16>, grease: set<u16>) {
    forall x :: x !in grease ==> multiset(a)[x] == multiset(b)[x]
  }

  lemma SameButGreaseMeans(a: seq<u16>, b: seq<u16>, grease: set<u16>)
    ensures SameButGrease(a, b, grease) <==> multiset(WithoutGrease(a, grease)) == multiset(WithoutGrease(b, grease))
  {
    forall x: u16
      ensures multiset(WithoutGrease(a, grease))[x] == if x in grease then 0 else multiset(a)[x]
      ensures multiset(WithoutGrease(b, grease))[x] == if x in grease then 0 else multiset(b)[x]
    {
      GreaseCount(a, grease, x);
      GreaseCount(b, grease, x);
    }
    var m, n := multiset(WithoutGrease(a, grease)), multiset(WithoutGrease(b, grease));
    CountsDecide(m, n, multiset(a), multiset(b), grease);
  }

  lemma CountsDecide(m: multiset<u16>, n: multiset<u16>, p: multiset<u16>, q: multiset<u16>, grease: set<u16>)
    requires forall x :: m[x] == if x in grease then 0 else p[x]
    requires forall x :: n[x] == if x in grease then 0 else q[x]
    ensures m == n <==> forall x :: x !in grease ==> p[x] == q[x]
  {
  }

  /** The fingerprint does not depend on the order of the ciphers or of the
      extensions, nor on any GREASE value in either list. */
  lemma Unchanged(
    v: Vendor, c: Context, ciphers: seq<u16>, extensions: seq<u16>, ciphers': seq<u16>, extensions': seq<u16>)
    requires SameButGrease(ciphers, ciphers', v.grease)
    requires SameButGrease(extensions, extensions', v.grease)
    ensures GenerateJa4(v, c, ciphers, extensions) == GenerateJa4(v, c, ciphers', extensions')
  {
    SameButGreaseMeans(ciphers, ciphers', v.grease);
    SameButGreaseMeans(extensions, extensions', v.grease);
    SortForgetsOrder(WithoutGrease(ciphers, v.grease), WithoutGrease(ciphers', v.grease));
    SortForgetsOrder(WithoutGrease(extensions, v.grease), WithoutGrease(extensions', v.grease));
    SameSize(WithoutGrease(ciphers, v.grease), WithoutGrease(ciphers', v.grease));
    SameSize(WithoutGrease(extensions, v.grease), WithoutGrease(extensions', v.grease));
    hide Sort, Hexes, WithoutGrease, Join, TwoDigits, Hex4;
  }

  lemma SameSize<T>(a: seq<T>, b: seq<T>)
    requires multiset(a) == multiset(b)
    ensures |a| == |b|
  {
    assert |multiset(a)| == |a|;
  }

  // ----- what the fingerprint tells apart

  // On two lists of one kind: the hash tells their texts apart, and reads as "no values" for neither.
  ghost predicate Separates(v: Vendor, a: seq<u16>, b: seq<u16>, suffix: string) {
    var x, y := Join(Sorted4(v, a)) + suffix, Join(Sorted4(v, b)) + suffix;
    && |v.sha(x)| == |v.sha(y)| == 12
    && v.sha(x) != NO_HASH && v.sha(y) != NO_HASH
    && (v.sha(x) == v.sha(y) ==> x == y)
  }

  lemma HexInjective(x: u16, y: u16)
    ensures Hex4(x) == Hex4(y) ==> x == y
  {
    DigitsInjective(x / 0x1000, y / 0x1000);
    DigitsInjective(x / 0x100 % 16, y / 0x100 % 16);
    DigitsInjective(x / 0x10 % 16, y / 0x10 % 16);
    DigitsInjective(x % 16, y % 16);
    if Hex4(x) == Hex4(y) {
      assert Hex4(x)[0] == Hex4(y)[0] && Hex4(x)[1] == Hex4(y)[1];
      assert Hex4(x)[2] == Hex4(y)[2] && Hex4(x)[3] == Hex4(y)[3];
      hide HexDigit;
      DigitsSum(x);
      DigitsSum(y);
    }
  }

  lemma DigitsInjective(m: nat, n: nat)
    requires m < 16 && n < 16
    ensures HexDigit(m) == HexDigit(n) ==> m == n
  {
  }

  lemma DigitsSum(x: u16)
    ensures x == 0x1000 * (x / 0x1000) + 0x100 * (x / 0x100 % 16) + 0x10 * (x / 0x10 % 16) + x % 16
  {
    assert x / 0x10 / 0x10 == x / 0x100 && x / 0x100 / 0x10 == x / 0x1000;
  }

  lemma {:induction false} HexesCount(vs: seq<u16>, x: u16)
    ensures multiset(Hexes(vs))[Hex4(x)] == multiset(vs)[x]
  {
    if vs != [] {
      HexesCount(vs[1..], x);
      HexInjective(vs[0], x);
      assert vs == [vs[0]] + vs[1..];
      hide Hex4;
    }
  }

  lemma SortRemembersValues(s: seq<u16>, t: seq<u16>)
    requires Sort(Hexes(s)) == Sort(Hexes(t))
    ensures multiset(s) == multiset(t)
  {
    SortPermutes(Hexes(s));
    SortPermutes(Hexes(t));
    forall x: u16
      ensures multiset(s)[x] == multiset(t)[x]
    {
      HexesCount(s, x);
      HexesCount(t, x);
    }
    hide Sort, Hexes, Hex4;
  }

  ghost predicate AllOfLength4(s: seq<string>) {
    forall i :: 0 <= i < |s| ==> |s[i]| == 4
  }

  lemma SortKeepsLengths(vs: seq<u16>)
    ensures AllOfLength4(Sort(Hexes(vs)))
  {
    var s := Sort(Hexes(vs));
    SortPermutes(Hexes(vs));
    forall i | 0 <= i < |s|
      ensures |s[i]| == 4
    {
      assert s[i] in multiset(s);
    }
  }

  lemma Cancel(a: string, x: string, b: string, y: string)
    requires a + x == b + y && |a| == |b|
    ensures a == b && x == y
  {
    assert forall i :: 0 <= i < |a| ==> (a + x)[i] == a[i] && (b + y)[i] == b[i];
    assert |x| == |y|;
    assert forall i :: 0 <= i < |x| ==> (a + x)[|a| + i] == x[i] && (b + y)[|a| + i] == y[i];
  }

  lemma {:induction false} JoinInjective(s: seq<string>, t: seq<string>)
    requires AllOfLength4(s) && AllOfLength4(t) && s != [] && t != []
    requires Join(s) == Join(t)
    ensures s == t
  {
    JoinLength(s);
    JoinLength(t);
    if |s| > 1 {
      assert Join(s) == s[0] + ("," + Join(s[1..])) && Join(t) == t[0] + ("," + Join(t[1..]));
      Cancel(s[0], "," + Join(s[1..]), t[0], "," + Join(t[1..]));
      Cancel(",", Join(s[1..]), ",", Join(t[1..]));
      JoinInjective(s[1..], t[1..]);
      assert s == [s[0]] + s[1..] && t == [t[0]] + t[1..];
    }
  }

  lemma {:induction false} JoinLength(s: seq<string>)
    requires AllOfLength4(s) && s != []
    ensures |Join(s)| == 5 * |s| - 1
  {
    if |s| > 1 {
      JoinLength(s[1..]);
    }
  }

  lemma HashDecides(v: Vendor, a: seq<u16>, b: seq<u16>, suffix: string)
    requires Separates(v, a, b, suffix) && Hashed(v, a, suffix) == Hashed(v, b, suffix)
    ensures SameButGrease(a, b, v.grease)
  {
    var s, t := Sorted4(v, a), Sorted4(v, b);
    SortKeepsLengths(WithoutGrease(a, v.grease));
    SortKeepsLengths(WithoutGrease(b, v.grease));
    assert s == t by {
      hide Sort, Hexes, WithoutGrease, Join, AllOfLength4, Sorted4;
      if s != [] && t != [] {
        CancelRight(Join(s), Join(t), suffix);
        JoinInjective(s, t);
      }
    }
    SortRemembersValues(WithoutGrease(a, v.grease), WithoutGrease(b, v.grease));
    SameButGreaseMeans(a, b, v.grease);
  }

  lemma CancelRight(a: string, b: string, x: string)
    requires a + x == b + x
    ensures a == b
  {
    assert |a + x| == |b + x|;
    Cancel(a, x, b, x);
  }

  // The hash tells apart the two cipher lists, and the two extension lists.
  ghost predicate SeparatesBoth(
    v: Vendor, c: Context, ciphers: seq<u16>, extensions: seq<u16>, ciphers': seq<u16>, extensions': seq<u16>)
  {
    Separates(v, ciphers, ciphers', "") && Separates(v, extensions, extensions', Suffix(c.signatureAlgorithms))
  }

  /** When the hash tells their cipher texts apart and their extension texts, the
      fingerprints of two hellos that agree in everything but ciphers and extensions are
      equal exactly when both lists agree up to order and GREASE. */
  lemma Decides(
    v: Vendor, c: Context, ciphers: seq<u16>, extensions: seq<u16>, ciphers': seq<u16>, extensions': seq<u16>)
    requires SeparatesBoth(v, c, ciphers, extensions, ciphers', extensions')
    ensures GenerateJa4(v, c, ciphers, extensions) == GenerateJa4(v, c, ciphers', extensions')
       <==> SameButGrease(ciphers, ciphers', v.grease) && SameButGrease(extensions, extensions', v.grease)
  {
    hide GenerateJa4, SameButGrease, Separates, Hashed;
    if SameButGrease(ciphers, ciphers', v.grease) && SameButGrease(extensions, extensions', v.grease) {
      Unchanged(v, c, ciphers, extensions, ciphers', extensions');
    }
    if GenerateJa4(v, c, ciphers, extensions) == GenerateJa4(v, c, ciphers', extensions') {
      SameHashes(v, c, ciphers, extensions, ciphers', extensions');
      HashDecides(v, ciphers, ciphers', "");
      HashDecides(v, extensions, extensions', Suffix(c.signatureAlgorithms));
    }
  }

  // Equal fingerprints have equal hashes: every part has the same length in both.
  lemma SameHashes(
    v: Vendor, c: Context, ciphers: seq<u16>, extensions: seq<u16>, ciphers': seq<u16>, extensions': seq<u16>)
    requires SeparatesBoth(v, c, ciphers, extensions, ciphers', extensions')
    requires GenerateJa4(v, c, ciphers, extensions) == GenerateJa4(v, c, ciphers', extensions')
    ensures Hashed(v, ciphers, "") == Hashed(v, ciphers', "")
    ensures
      var suffix := Suffix(c.signatureAlgorithms);
      Hashed(v, extensions, suffix) == Hashed(v, extensions', suffix)
  {
    var suffix := Suffix(c.signatureAlgorithms);
    var x, x' := Hashed(v, extensions, suffix), Hashed(v, extensions', suffix);
    var h, h' := Hashed(v, ciphers, ""), Hashed(v, ciphers', "");
    var k, k' := Counts(v, ciphers, extensions), Counts(v, ciphers', extensions');
    var mid := AlpnCode(c.alpn) + "_";
    assert |h| == |h'| == 12;
    hide Head, Counts, AlpnCode, Hashed, SeparatesBoth;
    Cancel(Head(v, c), k + (mid + (h + ("_" + x))), Head(v, c), k' + (mid + (h' + ("_" + x'))));
    Cancel(k, mid + (h + ("_" + x)), k', mid + (h' + ("_" + x')));
    Cancel(mid, h + ("_" + x), mid, h' + ("_" + x'));
    Cancel(h, "_" + x, h', "_" + x');
    Cancel("_", x, "_", x');
  }
}
