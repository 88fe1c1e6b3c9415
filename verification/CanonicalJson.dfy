/**
 Canonical JSON: the text of a JSON value, with the members of objects sorted.
 Strings are sequences of UTF-16 code units, numbers are doubles. How a finite
 number is written is a parameter.
 */
module CanonicalJson {
  import opened Base
  import opened Sorting

  type Unit = n: int | 0 <= n < 0x1_0000

  type Text = seq<Unit>

  /** A finite double other than negative zero, by its 64 bits; positive zero is 0. */
  type Double = n: int |
    0 <= n < 0x7FF0_0000_0000_0000 || 0x8000_0000_0000_0000 < n < 0xFFF0_0000_0000_0000

  const ZERO: Double := 0

  datatype Num = NegativeZero | Finite(value: Double) | NonFinite

  datatype Member = Member(key: Text, value: Json)

  /** The members of an object, in the order in which they were added. */
  datatype Json =
    | Null | Bool(b: bool) | Number(n: Num) | Str(s: Text) | Arr(items: seq<Json>) | Obj(members: seq<Member>)

  const QUOTE: Unit := 34
  const BACKSLASH: Unit := 92

  // Strings.

  predicate IsHigh(u: Unit) {
    0xD800 <= u < 0xDC00
  }

  predicate IsLow(u: Unit) {
    0xDC00 <= u < 0xE000
  }

  function HexDigit(d: int): Unit
    requires 0 <= d < 16
  {
    if d < 10 then 48 + d else 87 + d
  }

  /** Control characters and unpaired surrogates. */
  function HexEscape(u: Unit): Text {
    [BACKSLASH, 117, HexDigit(u / 4096), HexDigit(u / 256 % 16), HexDigit(u / 16 % 16), HexDigit(u % 16)]
  }

  function Escaped(u: Unit): Text {
    if u == 8 then [BACKSLASH, 98]
    else if u == 9 then [BACKSLASH, 116]
    else if u == 10 then [BACKSLASH, 110]
    else if u == 12 then [BACKSLASH, 102]
    else if u == 13 then [BACKSLASH, 114]
    else if u == QUOTE then [BACKSLASH, QUOTE]
    else if u == BACKSLASH then [BACKSLASH, BACKSLASH]
    else if u < 32 || IsHigh(u) || IsLow(u) then HexEscape(u)
    else [u]
  }

  /** A surrogate pair stays as it is. */
  function Quoted(s: Text): Text {
    if s == [] then []
    else if |s| > 1 && IsHigh(s[0]) && IsLow(s[1]) then s[..2] + Quoted(s[2..])
    else Escaped(s[0]) + Quoted(s[1..])
  }

  function StringText(s: Text): Text {
    [QUOTE] + Quoted(s) + [QUOTE]
  }

  // Values.

  type Numerals = Double -> Text

  /** Keys are ordered by their code units. */
  predicate KeyLeq(a: Text, b: Text) {
    a == [] || (b != [] && (a[0] < b[0] || (a[0] == b[0] && KeyLeq(a[1..], b[1..]))))
  }

  function ByKey(): (Member, Member) -> bool {
    (m: Member, n: Member) => KeyLeq(m.key, n.key)
  }

  function NumberText(f: Numerals, n: Num): Text
    requires n != NonFinite
  {
    if n == NegativeZero then [48] else f(n.value)
  }

  predicate AllFinite(v: Json) {
    match v
    case Number(n) => n != NonFinite
    case Arr(items) => forall i :: 0 <= i < |items| ==> AllFinite(items[i])
    case Obj(members) => forall i :: 0 <= i < |members| ==> AllFinite(members[i].value)
    case _ => true
  }

  function Joined(texts: seq<Text>): Text {
    if texts == [] then []
    else if |texts| == 1 then texts[0]
    else texts[0] + [44] + Joined(texts[1..])
  }

  lemma SortedMembers(members: seq<Member>)
    ensures |Sort(ByKey(), members)| == |members|
    ensures forall i :: 0 <= i < |members| ==> Sort(ByKey(), members)[i] in members
  {
    SortPermutes(ByKey(), members);
    SortMembers(ByKey(), members);
    forall i | 0 <= i < |members| ensures Sort(ByKey(), members)[i] in members {
      assert Sort(ByKey(), members)[i] in Sort(ByKey(), members);
    }
  }

  lemma FiniteMember(members: seq<Member>, m: Member)
    requires AllFinite(Obj(members)) && m in members
    ensures AllFinite(m.value)
  {
  }

  function Serialize(f: Numerals, v: Json): Text
    requires AllFinite(v)
  {
    match v
    case Null => [110, 117, 108, 108]
    case Bool(b) => if b then [116, 114, 117, 101] else [102, 97, 108, 115, 101]
    case Number(n) => NumberText(f, n)
    case Str(s) => StringText(s)
    case Arr(items) => [91] + Joined(seq(|items|, i requires 0 <= i < |items| => Serialize(f, items[i]))) + [93]
    case Obj(members) =>
      var sorted := Sort(ByKey(), members);
      SortedMembers(members);
      var entries := seq(|sorted|, i requires 0 <= i < |sorted| && sorted[i] in members =>
        FiniteMember(members, sorted[i]);
        StringText(sorted[i].key) + [58] + Serialize(f, sorted[i].value));
      [123] + Joined(entries) + [125]
  }

  datatype JsonError = NonFiniteNumber

  function Canonical(f: Numerals, v: Json): Result<Text, JsonError> {
    if AllFinite(v) then Ok(Serialize(f, v)) else Err(NonFiniteNumber)
  }

  // When two values are the same.

  predicate SameNumber(m: Num, n: Num) {
    m == n || (m == NegativeZero && n == Finite(ZERO)) || (m == Finite(ZERO) && n == NegativeZero)
  }

  /** Equal up to the order of members and the sign of zero, at every depth. */
  ghost predicate Same(v: Json, w: Json) {
    match (v, w)
    case (Number(m), Number(n)) => SameNumber(m, n)
    case (Arr(xs), Arr(ys)) => |xs| == |ys| && forall i :: 0 <= i < |xs| ==> Same(xs[i], ys[i])
    case (Obj(ms), Obj(ns)) =>
      && |ms| == |ns|
      && (forall i :: 0 <= i < |ms| ==>
            exists j :: 0 <= j < |ns| && ns[j].key == ms[i].key && Same(ms[i].value, ns[j].value))
    case _ => v == w
  }

  /** A record: no key twice, at any depth. */
  ghost predicate DistinctKeys(v: Json) {
    match v
    case Arr(items) => forall i :: 0 <= i < |items| ==> DistinctKeys(items[i])
    case Obj(members) =>
      && (forall i, j :: 0 <= i < j < |members| ==> members[i].key != members[j].key)
      && (forall i :: 0 <= i < |members| ==> DistinctKeys(members[i].value))
    case _ => true
  }

  // Normal forms.

  /** Members in the order of their keys, at every depth, and zero without a sign. */
  function Normal(v: Json): Json {
    match v
    case Number(n) => if n == NegativeZero then Number(Finite(ZERO)) else v
    case Arr(items) => Arr(seq(|items|, i requires 0 <= i < |items| => Normal(items[i])))
    case Obj(members) =>
      var sorted := Sort(ByKey(), members);
      SortedMembers(members);
      Obj(seq(|sorted|, i requires 0 <= i < |sorted| && sorted[i] in members =>
        Member(sorted[i].key, Normal(sorted[i].value))))
    case _ => v
  }

  // Keys.

  lemma {:induction false} KeysTotal(a: Text, b: Text)
    ensures KeyLeq(a, b) || KeyLeq(b, a)
    ensures KeyLeq(a, b) && KeyLeq(b, a) ==> a == b
    ensures KeyLeq(a, a)
  {
    if a != [] {
      KeysTotal(a[1..], a[1..]);
      if b != [] {
        KeysTotal(a[1..], b[1..]);
        assert a == [a[0]] + a[1..] && b == [b[0]] + b[1..];
      }
    }
  }

  lemma {:induction false} KeysTransitive(a: Text, b: Text, c: Text)
    requires KeyLeq(a, b) && KeyLeq(b, c)
    ensures KeyLeq(a, c)
  {
    if a != [] && b[0] == a[0] && c[0] == b[0] {
      KeysTransitive(a[1..], b[1..], c[1..]);
    }
  }

  lemma ByKeyIsPreorder()
    ensures TotalPreorder(ByKey())
  {
    forall m, n ensures ByKey()(m, n) || ByKey()(n, m) {
      KeysTotal(m.key, n.key);
    }
    forall l, m, n | ByKey()(l, m) && ByKey()(m, n) ensures ByKey()(l, n) {
      KeysTransitive(l.key, m.key, n.key);
    }
  }

  ghost predicate KeysDiffer(members: seq<Member>) {
    forall i, j :: 0 <= i < j < |members| ==> members[i].key != members[j].key
  }

  lemma SameKeysDiffer(s: seq<Member>, t: seq<Member>)
    requires KeysDiffer(s) && multiset(s) == multiset(t)
    ensures KeysDiffer(t)
  {
    DistinctByPermutation((m: Member) => m.key, s, t);
  }

  lemma StrictByKey(s: seq<Member>)
    requires KeysDiffer(s) && Sorted(ByKey(), s)
    ensures StrictlySorted(ByKey(), s)
  {
    forall i, j | 0 <= i < j < |s| ensures ByKey()(s[i], s[j]) && !ByKey()(s[j], s[i]) {
      KeysTotal(s[i].key, s[j].key);
    }
  }

  /** A record's members, sorted, are strictly sorted, and are the same members. */
  lemma SortedRecord(members: seq<Member>)
    requires KeysDiffer(members)
    ensures StrictlySorted(ByKey(), Sort(ByKey(), members)) && KeysDiffer(Sort(ByKey(), members))
    ensures forall m :: m in Sort(ByKey(), members) <==> m in members
  {
    hide Sort, Sorted, StrictlySorted, TotalPreorder, KeysDiffer;
    ByKeyIsPreorder();
    SortSorts(ByKey(), members);
    SortMembers(ByKey(), members);
    SortPermutes(ByKey(), members);
    SameKeysDiffer(members, Sort(ByKey(), members));
    StrictByKey(Sort(ByKey(), members));
  }

  // Two records are the same exactly if their normal forms are.

  lemma NormalArr(items: seq<Json>, i: nat)
    requires i < |items|
    ensures Normal(Arr(items)).Arr? && |Normal(Arr(items)).items| == |items|
    ensures Normal(Arr(items)).items[i] == Normal(items[i])
  {
  }

  lemma NormalObj(members: seq<Member>)
    requires KeysDiffer(members)
    ensures var n := Normal(Obj(members));
            && n.Obj? && |n.members| == |members|
            && StrictlySorted(ByKey(), n.members)
            && (forall m :: m in n.members <==> exists i :: 0 <= i < |members| && m == NormalMember(members[i]))
  {
    var sorted := Sort(ByKey(), members);
    SortedMembers(members);
    SortedRecord(members);
    var n := Normal(Obj(members));
    assert |n.members| == |sorted| && forall i :: 0 <= i < |sorted| ==> n.members[i] == NormalMember(sorted[i]);
    hide Sort, Normal, NormalMember, KeysDiffer;
    StillStrict(sorted, n.members);
    NormalFrom(members, sorted, n.members);
  }

  lemma StillStrict(sorted: seq<Member>, normal: seq<Member>)
    requires StrictlySorted(ByKey(), sorted)
    requires |normal| == |sorted| && forall i :: 0 <= i < |sorted| ==> normal[i] == NormalMember(sorted[i])
    ensures StrictlySorted(ByKey(), normal)
  {
    hide KeyLeq, Normal;
    forall i, j | 0 <= i < j < |sorted| ensures ByKey()(normal[i], normal[j]) && !ByKey()(normal[j], normal[i]) {
      assert ByKey()(sorted[i], sorted[j]) && !ByKey()(sorted[j], sorted[i]);
    }
  }

  lemma NormalFrom(members: seq<Member>, sorted: seq<Member>, normal: seq<Member>)
    requires forall m :: m in sorted <==> m in members
    requires |normal| == |sorted| && forall i :: 0 <= i < |sorted| ==> normal[i] == NormalMember(sorted[i])
    ensures forall m :: m in normal <==> exists i :: 0 <= i < |members| && m == NormalMember(members[i])
  {
    hide NormalMember;
    forall m ensures m in normal <==> exists i :: 0 <= i < |members| && m == NormalMember(members[i]) {
      if m in normal {
        var k :| 0 <= k < |sorted| && normal[k] == m;
        assert sorted[k] in sorted;
        var i :| 0 <= i < |members| && members[i] == sorted[k];
      }
      if i :| 0 <= i < |members| && m == NormalMember(members[i]) {
        assert members[i] in sorted;
        var k :| 0 <= k < |sorted| && sorted[k] == members[i];
        assert normal[k] == m;
      }
    }
  }

  function NormalMember(m: Member): Member {
    Member(m.key, Normal(m.value))
  }

  /** The members of each object correspond, by key and normal value. */
  ghost predicate Correspond(ms: seq<Member>, ns: seq<Member>) {
    forall i :: 0 <= i < |ms| ==> exists j :: 0 <= j < |ns| && NormalMember(ns[j]) == NormalMember(ms[i])
  }

  /** Among as many members with different keys, one correspondence is enough. */
  lemma CorrespondBack(ms: seq<Member>, ns: seq<Member>)
    requires KeysDiffer(ms) && KeysDiffer(ns) && |ms| == |ns| && Correspond(ms, ns)
    ensures Correspond(ns, ms)
  {
    var p := Keys(ms);
    var q := Keys(ns);
    KeysCount(ms);
    KeysCount(ns);
    forall k | k in p ensures k in q {
      var i :| 0 <= i < |ms| && ms[i].key == k;
      var j :| 0 <= j < |ns| && NormalMember(ns[j]) == NormalMember(ms[i]);
      assert ns[j].key == k;
    }
    SubsetOfSize(p, q);
    hide Normal;
    forall j | 0 <= j < |ns| ensures exists i :: 0 <= i < |ms| && NormalMember(ms[i]) == NormalMember(ns[j]) {
      assert ns[j].key in q;
      var i :| 0 <= i < |ms| && ms[i].key == ns[j].key;
      var l :| 0 <= l < |ns| && NormalMember(ns[l]) == NormalMember(ms[i]);
      assert l == j;
    }
  }

  ghost function Keys(ms: seq<Member>): (keys: set<Text>)
    ensures forall k :: k in keys <==> exists i :: 0 <= i < |ms| && ms[i].key == k
  {
    if ms == [] then {} else Keys(ms[..|ms| - 1]) + {ms[|ms| - 1].key}
  }

  lemma {:induction false} KeysCount(ms: seq<Member>)
    requires KeysDiffer(ms)
    ensures |Keys(ms)| == |ms|
  {
    if ms != [] {
      KeysCount(ms[..|ms| - 1]);
    }
  }

  lemma SubsetOfSize<T>(p: set<T>, q: set<T>)
    requires p <= q && |p| == |q|
    ensures p == q
  {
    assert q == p + (q - p);
    assert |q| == |p| + |q - p|;
  }

  lemma NormalObjects(ms: seq<Member>, ns: seq<Member>)
    requires KeysDiffer(ms) && KeysDiffer(ns)
    ensures Normal(Obj(ms)) == Normal(Obj(ns)) <==> |ms| == |ns| && Correspond(ms, ns)
  {
    NormalObj(ms);
    NormalObj(ns);
    var s, t := Normal(Obj(ms)).members, Normal(Obj(ns)).members;
    hide Normal, NormalMember, StrictlySorted;
    if s == t {
      forall i | 0 <= i < |ms| ensures exists j :: 0 <= j < |ns| && NormalMember(ns[j]) == NormalMember(ms[i]) {
        assert NormalMember(ms[i]) in s;
        assert NormalMember(ms[i]) in t;
      }
    }
    if |ms| == |ns| && Correspond(ms, ns) {
      CorrespondBack(ms, ns);
      StrictlySortedUnique(ByKey(), s, t);
    }
  }

  /** Normal forms decide sameness. */
  lemma {:induction false} NormalDecidesSame(v: Json, w: Json)
    requires DistinctKeys(v) && DistinctKeys(w)
    ensures Normal(v) == Normal(w) <==> Same(v, w)
    decreases v
  {
    match (v, w) {
      case (Arr(xs), Arr(ys)) => SameArrays(xs, ys);
      case (Obj(ms), Obj(ns)) => SameObjects(ms, ns);
      case _ =>
    }
  }

  lemma SameArrays(xs: seq<Json>, ys: seq<Json>)
    requires DistinctKeys(Arr(xs)) && DistinctKeys(Arr(ys))
    ensures Normal(Arr(xs)) == Normal(Arr(ys)) <==> Same(Arr(xs), Arr(ys))
    decreases Arr(xs), 0
  {
    forall i | 0 <= i < |xs| && i < |ys| ensures Normal(xs[i]) == Normal(ys[i]) <==> Same(xs[i], ys[i]) {
      NormalDecidesSame(xs[i], ys[i]);
    }
    forall i | 0 <= i < |xs| ensures Normal(Arr(xs)).items[i] == Normal(xs[i]) {
      NormalArr(xs, i);
    }
    forall i | 0 <= i < |ys| ensures Normal(Arr(ys)).items[i] == Normal(ys[i]) {
      NormalArr(ys, i);
    }
    var s, t := Normal(Arr(xs)).items, Normal(Arr(ys)).items;
    if Normal(Arr(xs)) == Normal(Arr(ys)) {
      assert |xs| == |s| == |t| == |ys|;
      forall i | 0 <= i < |xs| ensures Same(xs[i], ys[i]) {
        assert s[i] == t[i];
      }
    }
    if Same(Arr(xs), Arr(ys)) {
      assert s == t;
    }
  }

  lemma SameObjects(ms: seq<Member>, ns: seq<Member>)
    requires DistinctKeys(Obj(ms)) && DistinctKeys(Obj(ns))
    ensures Normal(Obj(ms)) == Normal(Obj(ns)) <==> Same(Obj(ms), Obj(ns))
    decreases Obj(ms), 0
  {
    assert KeysDiffer(ms) && KeysDiffer(ns);
    forall i, j | 0 <= i < |ms| && 0 <= j < |ns|
      ensures Normal(ms[i].value) == Normal(ns[j].value) <==> Same(ms[i].value, ns[j].value)
    {
      NormalDecidesSame(ms[i].value, ns[j].value);
    }
    NormalObjects(ms, ns);
    hide Normal;
  }

  // Reading a string back.

  function HexValue(u: Unit): int {
    if 48 <= u < 58 then u - 48 else if 97 <= u < 103 then u - 87 else 0
  }

  function FromHex(a: Unit, b: Unit, c: Unit, d: Unit): int {
    HexValue(a) * 4096 + HexValue(b) * 256 + HexValue(c) * 16 + HexValue(d)
  }

  function Unescaped(u: Unit): Unit {
    if u == 98 then 8
    else if u == 116 then 9
    else if u == 110 then 10
    else if u == 102 then 12
    else if u == 114 then 13
    else u
  }

  /** The contents of a string and what follows its closing quote. */
  ghost function Scan(t: Text): (Text, Text) {
    if t == [] then ([], [])
    else if t[0] == QUOTE then ([], t[1..])
    else if t[0] == BACKSLASH && |t| > 5 && t[1] == 117 then
      var u := FromHex(t[2], t[3], t[4], t[5]);
      var (s, rest) := Scan(t[6..]);
      (if 0 <= u < 0x1_0000 then [u] + s else s, rest)
    else if t[0] == BACKSLASH && |t| > 1 then
      var (s, rest) := Scan(t[2..]);
      ([Unescaped(t[1])] + s, rest)
    else
      var (s, rest) := Scan(t[1..]);
      ([t[0]] + s, rest)
  }

  lemma HexDigits(u: Unit)
    ensures FromHex(HexDigit(u / 4096), HexDigit(u / 256 % 16), HexDigit(u / 16 % 16), HexDigit(u % 16)) == u
  {
    HexDigitBack(u / 4096);
    HexDigitBack(u / 256 % 16);
    HexDigitBack(u / 16 % 16);
    HexDigitBack(u % 16);
    hide HexValue, HexDigit;
    assert u / 256 == u / 16 / 16 && u / 4096 == u / 256 / 16;
  }

  lemma HexDigitBack(d: int)
    requires 0 <= d < 16
    ensures HexValue(HexDigit(d)) == d
  {
  }

  lemma ScanHex(u: Unit, k: Text)
    ensures Scan(HexEscape(u) + k) == ([u] + Scan(k).0, Scan(k).1)
  {
    HexDigits(u);
    hide FromHex, HexDigit;
    ScanFromHex(HexDigit(u / 4096), HexDigit(u / 256 % 16), HexDigit(u / 16 % 16), HexDigit(u % 16), k);
    hide Scan;
  }

  lemma ScanFromHex(a: Unit, b: Unit, c: Unit, d: Unit, k: Text)
    requires 0 <= FromHex(a, b, c, d) < 0x1_0000
    ensures Scan([BACKSLASH, 117, a, b, c, d] + k) == ([FromHex(a, b, c, d)] + Scan(k).0, Scan(k).1)
  {
    hide FromHex, Unescaped;
    var t := [BACKSLASH, 117, a, b, c, d] + k;
    assert t[6..] == k;
  }

  lemma ScanRaw(u: Unit, k: Text)
    requires u != QUOTE && u != BACKSLASH
    ensures Scan([u] + k) == ([u] + Scan(k).0, Scan(k).1)
  {
    assert ([u] + k)[1..] == k;
  }

  lemma ScanShort(u: Unit, k: Text)
    requires u != 117
    ensures Scan([BACKSLASH, u] + k) == ([Unescaped(u)] + Scan(k).0, Scan(k).1)
  {
    assert ([BACKSLASH, u] + k)[2..] == k;
  }

  lemma ScanEscaped(u: Unit, k: Text)
    ensures Scan(Escaped(u) + k) == ([u] + Scan(k).0, Scan(k).1)
  {
    ScanHex(u, k);
    hide Scan, HexDigit;
    if Escaped(u) == [u] {
      ScanRaw(u, k);
    } else if |Escaped(u)| == 2 {
      ScanShort(Escaped(u)[1], k);
    }
  }

  /** Quoting loses nothing: control characters, quotes, pairs and lone surrogates are all read back. */
  lemma {:induction false} QuotedIsReadBack(s: Text, k: Text)
    ensures Scan(Quoted(s) + [QUOTE] + k) == (s, k)
    decreases |s|
  {
    hide Scan, Escaped;
    if s == [] {
      assert Quoted(s) + [QUOTE] + k == [QUOTE] + k;
      ScanEnd(k);
    } else if |s| > 1 && IsHigh(s[0]) && IsLow(s[1]) {
      QuotedIsReadBack(s[2..], k);
      var rest := Quoted(s[2..]) + [QUOTE] + k;
      assert Quoted(s) + [QUOTE] + k == [s[0]] + ([s[1]] + rest);
      ScanRaw(s[1], rest);
      ScanRaw(s[0], [s[1]] + rest);
      assert s == [s[0]] + ([s[1]] + s[2..]);
    } else {
      QuotedIsReadBack(s[1..], k);
      var rest := Quoted(s[1..]) + [QUOTE] + k;
      assert Quoted(s) + [QUOTE] + k == Escaped(s[0]) + rest;
      ScanEscaped(s[0], rest);
      assert s == [s[0]] + s[1..];
    }
  }

  lemma ScanEnd(k: Text)
    ensures Scan([QUOTE] + k) == ([], k)
  {
    assert ([QUOTE] + k)[1..] == k;
  }

  // The text of a normal form, followed by more text.

  function StringThen(s: Text, k: Text): Text {
    [QUOTE] + (Quoted(s) + [QUOTE] + k)
  }

  ghost function TextThen(f: Numerals, v: Json, k: Text): Text
    requires AllFinite(v)
    decreases v
  {
    match v
    case Null => [110] + ([117, 108, 108] + k)
    case Bool(b) => if b then [116] + ([114, 117, 101] + k) else [102] + ([97, 108, 115, 101] + k)
    case Number(n) => NumberText(f, n) + k
    case Str(s) => StringThen(s, k)
    case Arr(items) => [91] + ItemsThen(f, items, [93] + k)
    case Obj(members) => [123] + MembersThen(f, members, [125] + k)
  }

  ghost function ItemsThen(f: Numerals, items: seq<Json>, k: Text): Text
    requires forall i :: 0 <= i < |items| ==> AllFinite(items[i])
    decreases items
  {
    if items == [] then k
    else if |items| == 1 then TextThen(f, items[0], k)
    else TextThen(f, items[0], [44] + ItemsThen(f, items[1..], k))
  }

  ghost function MembersThen(f: Numerals, members: seq<Member>, k: Text): Text
    requires forall i :: 0 <= i < |members| ==> AllFinite(members[i].value)
    decreases members
  {
    if members == [] then k
    else
      var m := members[0];
      StringThen(m.key,
                 [58] + TextThen(f, m.value, if |members| == 1 then k else [44] + MembersThen(f, members[1..], k)))
  }

  /** Finite numbers have texts of their own, made of digits, signs, points and exponents. */
  ghost predicate AreNumerals(f: Numerals) {
    && (forall r :: |f(r)| > 0 && forall i :: 0 <= i < |f(r)| ==> InNumeral(f(r)[i]))
    && (forall q, r :: f(q) == f(r) ==> q == r)
    && f(ZERO) == [48]
  }

  function Decimal(n: nat): Text {
    if n < 10 then [48 + n] else Decimal(n / 10) + [48 + n % 10]
  }

  function Decimals(): Numerals {
    (d: Double) => Decimal(d)
  }

  lemma {:induction false} DecimalIsNumeral(n: nat)
    ensures |Decimal(n)| > 0 && forall i :: 0 <= i < |Decimal(n)| ==> InNumeral(Decimal(n)[i])
  {
    if n >= 10 {
      DecimalIsNumeral(n / 10);
    }
  }

  lemma {:induction false} DecimalDecides(m: nat, n: nat)
    requires Decimal(m) == Decimal(n)
    ensures m == n
  {
    DecimalIsNumeral(m / 10);
    DecimalIsNumeral(n / 10);
    if m >= 10 && n >= 10 {
      SplitLast(Decimal(m / 10), Decimal(n / 10), 48 + m % 10, 48 + n % 10);
      DecimalDecides(m / 10, n / 10);
    }
  }

  lemma SplitLast(a: Text, b: Text, x: Unit, y: Unit)
    requires a + [x] == b + [y]
    ensures a == b && x == y
  {
    assert (a + [x])[|a|] == x && (b + [y])[|b|] == y;
    assert a == (a + [x])[..|a|] && b == (b + [y])[..|b|];
  }

  /** There is a way to write numbers as AreNumerals asks. */
  lemma DecimalsAreNumerals()
    ensures AreNumerals(Decimals())
  {
    forall d: Double
      ensures |Decimals()(d)| > 0 && forall i :: 0 <= i < |Decimals()(d)| ==> InNumeral(Decimals()(d)[i])
    {
      DecimalIsNumeral(d);
    }
    forall c: Double, d: Double | Decimals()(c) == Decimals()(d) ensures c == d {
      DecimalDecides(c, d);
    }
  }

  predicate InNumeral(u: Unit) {
    48 <= u < 58 || u == 43 || u == 45 || u == 46 || u == 69 || u == 101
  }

  /** What may follow a value. */
  predicate Delimited(k: Text) {
    k == [] || k[0] == 44 || k[0] == 93 || k[0] == 125
  }

  /** Finite numbers, and no signed zero. */
  predicate Plain(v: Json) {
    match v
    case Number(n) => n.Finite?
    case Arr(items) => forall i :: 0 <= i < |items| ==> Plain(items[i])
    case Obj(members) => forall i :: 0 <= i < |members| ==> Plain(members[i].value)
    case _ => true
  }

  lemma {:induction false} PlainIsFinite(v: Json)
    requires Plain(v)
    ensures AllFinite(v)
  {
    match v {
      case Arr(items) => forall i | 0 <= i < |items| ensures AllFinite(items[i]) { PlainIsFinite(items[i]); }
      case Obj(members) =>
        forall i | 0 <= i < |members| ensures AllFinite(members[i].value) { PlainIsFinite(members[i].value); }
      case _ =>
    }
  }

  lemma NumeralAsLong(a: Text, b: Text, x: Text, y: Text)
    requires a + x == b + y && Delimited(x) && forall i :: 0 <= i < |b| ==> InNumeral(b[i])
    ensures |a| >= |b|
  {
    assert forall i :: 0 <= i < |b| ==> (b + y)[i] == b[i];
    assert x != [] ==> (a + x)[|a|] == x[0];
  }

  lemma SplitNumerals(a: Text, b: Text, x: Text, y: Text)
    requires a + x == b + y && Delimited(x) && Delimited(y) && |a| > 0 && |b| > 0
    requires (forall i :: 0 <= i < |a| ==> InNumeral(a[i])) && (forall i :: 0 <= i < |b| ==> InNumeral(b[i]))
    ensures a == b && x == y
  {
    NumeralAsLong(a, b, x, y);
    NumeralAsLong(b, a, y, x);
    assert a == (a + x)[..|a|] && b == (b + y)[..|b|];
    assert x == (a + x)[|a|..] && y == (b + y)[|b|..];
  }

  lemma SplitString(s: Text, t: Text, x: Text, y: Text)
    requires StringThen(s, x) == StringThen(t, y)
    ensures s == t && x == y
  {
    SplitHead(QUOTE, QUOTE, Quoted(s) + [QUOTE] + x, Quoted(t) + [QUOTE] + y);
    QuotedIsReadBack(s, x);
    QuotedIsReadBack(t, y);
  }

  lemma SplitHead(a: Unit, b: Unit, x: Text, y: Text)
    requires [a] + x == [b] + y
    ensures a == b && x == y
  {
    assert ([a] + x)[0] == a && ([b] + y)[0] == b;
    assert ([a] + x)[1..] == x && ([b] + y)[1..] == y;
  }

  lemma SplitKnown(p: Text, x: Text, y: Text)
    requires p + x == p + y
    ensures x == y
  {
    assert (p + x)[|p|..] == x && (p + y)[|p|..] == y;
  }

  /** The kind of a value shows in the first unit of its text. */
  ghost predicate Shows(v: Json, u: Unit) {
    match v
    case Null => u == 110
    case Bool(b) => u == if b then 116 else 102
    case Number(_) => InNumeral(u)
    case Str(_) => u == QUOTE
    case Arr(_) => u == 91
    case Obj(_) => u == 123
  }

  lemma FirstUnit(f: Numerals, v: Json, k: Text)
    requires AreNumerals(f) && AllFinite(v)
    ensures var t := TextThen(f, v, k); |t| > 0 && Shows(v, t[0]) && t[0] != 93
  {
    hide ItemsThen, MembersThen, Quoted;
  }

  /** Texts followed by delimited text determine their values, and what follows. */
  lemma {:induction false} TextDecides(f: Numerals, v: Json, w: Json, x: Text, y: Text)
    requires AreNumerals(f) && Plain(v) && Plain(w) && Delimited(x) && Delimited(y)
    requires AllFinite(v) && AllFinite(w) && TextThen(f, v, x) == TextThen(f, w, y)
    ensures v == w && x == y
    decreases v
  {
    FirstUnit(f, v, x);
    FirstUnit(f, w, y);
    match (v, w) {
      case (Null, Null) =>
        SplitHead(110, 110, [117, 108, 108] + x, [117, 108, 108] + y);
        SplitKnown([117, 108, 108], x, y);
      case (Bool(b), Bool(c)) => SplitBools(f, b, c, x, y);
      case (Number(m), Number(n)) => SplitNumerals(f(m.value), f(n.value), x, y);
      case (Str(s), Str(t)) => SplitString(s, t, x, y);
      case (Arr(vs), Arr(ws)) =>
        SplitHead(91, 91, ItemsThen(f, vs, [93] + x), ItemsThen(f, ws, [93] + y));
        ItemsDecide(f, vs, ws, x, y);
      case (Obj(ms), Obj(ns)) =>
        SplitHead(123, 123, MembersThen(f, ms, [125] + x), MembersThen(f, ns, [125] + y));
        MembersDecide(f, ms, ns, x, y);
      case _ => assert false;
    }
  }

  lemma SplitBools(f: Numerals, b: bool, c: bool, x: Text, y: Text)
    requires TextThen(f, Bool(b), x) == TextThen(f, Bool(c), y)
    ensures b == c && x == y
  {
    var t, u: Text := [114, 117, 101], [97, 108, 115, 101];
    SplitHead(if b then 116 else 102, if c then 116 else 102, (if b then t else u) + x, (if c then t else u) + y);
    SplitKnown(if b then t else u, x, y);
  }

  lemma {:induction false} ItemsDecide(f: Numerals, vs: seq<Json>, ws: seq<Json>, x: Text, y: Text)
    requires AreNumerals(f)
    requires forall i :: 0 <= i < |vs| ==> Plain(vs[i]) && AllFinite(vs[i])
    requires forall i :: 0 <= i < |ws| ==> Plain(ws[i]) && AllFinite(ws[i])
    requires ItemsThen(f, vs, [93] + x) == ItemsThen(f, ws, [93] + y)
    ensures vs == ws && x == y
    decreases vs
  {
    hide AreNumerals, Plain, AllFinite, TextThen;
    NoItemsTogether(f, vs, ws, x, y);
    if vs == [] {
      SplitHead(93, 93, x, y);
    } else {
      var k := if |vs| == 1 then [93] + x else [44] + ItemsThen(f, vs[1..], [93] + x);
      var l := if |ws| == 1 then [93] + y else [44] + ItemsThen(f, ws[1..], [93] + y);
      TextDecides(f, vs[0], ws[0], k, l);
      if |vs| == 1 || |ws| == 1 {
        assert k[0] == l[0];
        SplitHead(93, 93, x, y);
        assert vs == [vs[0]] && ws == [ws[0]];
      } else {
        SplitHead(44, 44, ItemsThen(f, vs[1..], [93] + x), ItemsThen(f, ws[1..], [93] + y));
        ItemsDecide(f, vs[1..], ws[1..], x, y);
        assert vs == [vs[0]] + vs[1..] && ws == [ws[0]] + ws[1..];
      }
    }
  }

  lemma NoItemsTogether(f: Numerals, vs: seq<Json>, ws: seq<Json>, x: Text, y: Text)
    requires AreNumerals(f)
    requires forall i :: 0 <= i < |vs| ==> AllFinite(vs[i])
    requires forall i :: 0 <= i < |ws| ==> AllFinite(ws[i])
    requires ItemsThen(f, vs, [93] + x) == ItemsThen(f, ws, [93] + y)
    ensures vs == [] <==> ws == []
  {
    if vs != [] {
      ItemsStart(f, vs, [93] + x);
    }
    if ws != [] {
      ItemsStart(f, ws, [93] + y);
    }
    hide TextThen, AllFinite, AreNumerals, ItemsThen;
    NoItems(f, [93] + x);
    NoItems(f, [93] + y);
  }

  lemma NoItems(f: Numerals, k: Text)
    ensures ItemsThen(f, [], k) == k
  {
  }

  lemma ItemsStart(f: Numerals, vs: seq<Json>, k: Text)
    requires AreNumerals(f) && vs != [] && forall i :: 0 <= i < |vs| ==> AllFinite(vs[i])
    ensures |ItemsThen(f, vs, k)| > 0 && ItemsThen(f, vs, k)[0] != 93
  {
    hide TextThen, AreNumerals, AllFinite;
    FirstUnit(f, vs[0], if |vs| == 1 then k else [44] + ItemsThen(f, vs[1..], k));
  }

  lemma {:induction false} MembersDecide(f: Numerals, ms: seq<Member>, ns: seq<Member>, x: Text, y: Text)
    requires AreNumerals(f)
    requires forall i :: 0 <= i < |ms| ==> Plain(ms[i].value) && AllFinite(ms[i].value)
    requires forall i :: 0 <= i < |ns| ==> Plain(ns[i].value) && AllFinite(ns[i].value)
    requires MembersThen(f, ms, [125] + x) == MembersThen(f, ns, [125] + y)
    ensures ms == ns && x == y
    decreases ms
  {
    hide AreNumerals, Plain, AllFinite, TextThen, Quoted, StringThen;
    NoMembersTogether(f, ms, ns, x, y);
    if ms == [] {
      SplitHead(125, 125, x, y);
    } else {
      var k := AfterMember(f, ms, [125] + x);
      var l := AfterMember(f, ns, [125] + y);
      SplitString(ms[0].key, ns[0].key, [58] + TextThen(f, ms[0].value, k), [58] + TextThen(f, ns[0].value, l));
      SplitHead(58, 58, TextThen(f, ms[0].value, k), TextThen(f, ns[0].value, l));
      TextDecides(f, ms[0].value, ns[0].value, k, l);
      hide MembersThen;
      assert ms[0] == ns[0];
      if |ms| == 1 || |ns| == 1 {
        assert k[0] == l[0];
        SplitHead(125, 125, x, y);
        assert ms == [ms[0]] && ns == [ns[0]];
      } else {
        SplitHead(44, 44, MembersThen(f, ms[1..], [125] + x), MembersThen(f, ns[1..], [125] + y));
        MembersDecide(f, ms[1..], ns[1..], x, y);
        assert ms == [ms[0]] + ms[1..] && ns == [ns[0]] + ns[1..];
      }
    }
  }

  /** What follows the value of the first member. */
  ghost function AfterMember(f: Numerals, ms: seq<Member>, k: Text): Text
    requires ms != [] && forall i :: 0 <= i < |ms| ==> AllFinite(ms[i].value)
  {
    if |ms| == 1 then k else [44] + MembersThen(f, ms[1..], k)
  }

  lemma NoMembersTogether(f: Numerals, ms: seq<Member>, ns: seq<Member>, x: Text, y: Text)
    requires forall i :: 0 <= i < |ms| ==> AllFinite(ms[i].value)
    requires forall i :: 0 <= i < |ns| ==> AllFinite(ns[i].value)
    requires MembersThen(f, ms, [125] + x) == MembersThen(f, ns, [125] + y)
    ensures ms == [] <==> ns == []
  {
    if ms != [] {
      MembersStart(f, ms, [125] + x);
    }
    if ns != [] {
      MembersStart(f, ns, [125] + y);
    }
    hide MembersThen, AllFinite;
    NoMembers(f, [125] + x);
    NoMembers(f, [125] + y);
  }

  lemma NoMembers(f: Numerals, k: Text)
    ensures MembersThen(f, [], k) == k
  {
  }

  lemma MembersStart(f: Numerals, ms: seq<Member>, k: Text)
    requires ms != [] && forall i :: 0 <= i < |ms| ==> AllFinite(ms[i].value)
    ensures |MembersThen(f, ms, k)| > 0 && MembersThen(f, ms, k)[0] == QUOTE
  {
    hide TextThen, AllFinite, Quoted;
  }

  // What is written is the text of the normal form.

  function NormalItems(items: seq<Json>): seq<Json> {
    seq(|items|, i requires 0 <= i < |items| => Normal(items[i]))
  }

  function NormalMembers(members: seq<Member>): seq<Member> {
    seq(|members|, i requires 0 <= i < |members| => NormalMember(members[i]))
  }

  function ItemTexts(f: Numerals, items: seq<Json>): seq<Text>
    requires forall i :: 0 <= i < |items| ==> AllFinite(items[i])
  {
    seq(|items|, i requires 0 <= i < |items| => Serialize(f, items[i]))
  }

  function MemberTexts(f: Numerals, members: seq<Member>): seq<Text>
    requires forall i :: 0 <= i < |members| ==> AllFinite(members[i].value)
  {
    seq(|members|, i requires 0 <= i < |members| =>
      StringText(members[i].key) + [58] + Serialize(f, members[i].value))
  }

  lemma {:induction false} NormalIsPlain(v: Json)
    requires AllFinite(v)
    ensures Plain(Normal(v)) && AllFinite(Normal(v))
    decreases v
  {
    match v {
      case Arr(items) =>
        forall i | 0 <= i < |items| ensures Plain(Normal(items[i])) { NormalIsPlain(items[i]); }
      case Obj(members) =>
        SortedMembers(members);
        var sorted := Sort(ByKey(), members);
        forall i | 0 <= i < |sorted| ensures Plain(Normal(sorted[i].value)) {
          FiniteMember(members, sorted[i]);
          NormalIsPlain(sorted[i].value);
        }
      case _ =>
    }
    PlainIsFinite(Normal(v));
  }

  lemma SerializeArr(f: Numerals, items: seq<Json>)
    requires AllFinite(Arr(items))
    ensures Serialize(f, Arr(items)) == [91] + Joined(ItemTexts(f, items)) + [93]
    ensures Normal(Arr(items)) == Arr(NormalItems(items))
  {
  }

  lemma SerializeObj(f: Numerals, members: seq<Member>)
    requires AllFinite(Obj(members))
    ensures var sorted := Sort(ByKey(), members);
            && (forall i :: 0 <= i < |sorted| ==> sorted[i] in members && AllFinite(sorted[i].value))
            && Serialize(f, Obj(members)) == [123] + Joined(MemberTexts(f, sorted)) + [125]
            && Normal(Obj(members)) == Obj(NormalMembers(sorted))
  {
    var sorted := Sort(ByKey(), members);
    SortedMembers(members);
    forall i | 0 <= i < |sorted| ensures AllFinite(sorted[i].value) {
      FiniteMember(members, sorted[i]);
    }
    hide Sort;
    assert Normal(Obj(members)).members == NormalMembers(sorted);
    var entries := seq(|sorted|, i requires 0 <= i < |sorted| && sorted[i] in members =>
      FiniteMember(members, sorted[i]);
      StringText(sorted[i].key) + [58] + Serialize(f, sorted[i].value));
    assert entries == MemberTexts(f, sorted);
  }

  lemma {:induction false} SerializesNormal(f: Numerals, v: Json, k: Text)
    requires AllFinite(v)
    requires f(ZERO) == [48]
    ensures AllFinite(Normal(v))
    ensures Serialize(f, v) + k == TextThen(f, Normal(v), k)
    decreases v, 1, 0
  {
    NormalIsPlain(v);
    match v {
      case Arr(items) =>
        ItemsSerialize(f, v, items, [93] + k);
        ArrSerializes(f, items, k);
      case Obj(members) =>
        SerializeObj(f, members);
        MembersSerialize(f, v, Sort(ByKey(), members), [125] + k);
        ObjSerializes(f, members, k);
      case Str(s) => assert StringText(s) + k == StringThen(s, k);
      case _ =>
    }
  }

  lemma ArrSerializes(f: Numerals, items: seq<Json>, k: Text)
    requires AllFinite(Arr(items)) && f(ZERO) == [48] && AllFinite(Normal(Arr(items)))
    requires forall i :: 0 <= i < |items| ==> AllFinite(NormalItems(items)[i])
    requires Joined(ItemTexts(f, items)) + ([93] + k) == ItemsThen(f, NormalItems(items), [93] + k)
    ensures Serialize(f, Arr(items)) + k == TextThen(f, Normal(Arr(items)), k)
  {
    SerializeArr(f, items);
    Associates([91], Joined(ItemTexts(f, items)), [93], k);
    hide Serialize, Normal, Joined;
  }

  lemma ObjSerializes(f: Numerals, members: seq<Member>, k: Text)
    requires AllFinite(Obj(members)) && f(ZERO) == [48] && AllFinite(Normal(Obj(members)))
    requires forall m :: m in Sort(ByKey(), members) ==> AllFinite(m.value)
    requires var sorted := Sort(ByKey(), members);
             && (forall i :: 0 <= i < |sorted| ==> AllFinite(NormalMembers(sorted)[i].value))
             && Joined(MemberTexts(f, sorted)) + ([125] + k) == MembersThen(f, NormalMembers(sorted), [125] + k)
    ensures Serialize(f, Obj(members)) + k == TextThen(f, Normal(Obj(members)), k)
  {
    SerializeObj(f, members);
    Associates([123], Joined(MemberTexts(f, Sort(ByKey(), members))), [125], k);
    hide Serialize, Normal, Joined, Sort;
  }

  lemma {:induction false} ItemsSerialize(f: Numerals, v: Json, items: seq<Json>, k: Text)
    requires f(ZERO) == [48] && v.Arr? && forall i :: 0 <= i < |items| ==> items[i] in v.items && AllFinite(items[i])
    ensures forall i :: 0 <= i < |items| ==> AllFinite(NormalItems(items)[i])
    ensures Joined(ItemTexts(f, items)) + k == ItemsThen(f, NormalItems(items), k)
    decreases v, 0, |items|
  {
    forall i | 0 <= i < |items| ensures AllFinite(Normal(items[i])) {
      NormalIsPlain(items[i]);
    }
    hide Serialize, Normal, AllFinite, TextThen, Joined;
    if items == [] {
      NothingJoined(k);
    } else {
      var rest := items[1..];
      ItemsSerialize(f, v, rest, k);
      assert NormalItems(items)[1..] == NormalItems(rest);
      assert ItemTexts(f, items)[1..] == ItemTexts(f, rest);
      JoinedHead(ItemTexts(f, items), k);
      SerializesNormal(f, items[0], if |items| == 1 then k else [44] + (Joined(ItemTexts(f, rest)) + k));
    }
  }

  lemma {:induction false} MembersSerialize(f: Numerals, v: Json, members: seq<Member>, k: Text)
    requires f(ZERO) == [48] && v.Obj?
    requires forall i :: 0 <= i < |members| ==> members[i] in v.members && AllFinite(members[i].value)
    ensures forall i :: 0 <= i < |members| ==> AllFinite(NormalMembers(members)[i].value)
    ensures Joined(MemberTexts(f, members)) + k == MembersThen(f, NormalMembers(members), k)
    decreases v, 0, |members|
  {
    forall i | 0 <= i < |members| ensures AllFinite(Normal(members[i].value)) {
      NormalIsPlain(members[i].value);
    }
    hide Serialize, Normal, AllFinite, TextThen, Quoted, Joined, StringText, StringThen;
    if members == [] {
      NothingJoined(k);
    } else {
      var rest, m := members[1..], members[0];
      MembersSerialize(f, v, rest, k);
      assert NormalMembers(members)[1..] == NormalMembers(rest);
      assert MemberTexts(f, members)[1..] == MemberTexts(f, rest);
      JoinedHead(MemberTexts(f, members), k);
      var after := if |members| == 1 then k else [44] + (Joined(MemberTexts(f, rest)) + k);
      SerializesNormal(f, m.value, after);
      MemberHead(m.key, Serialize(f, m.value), after);
    }
  }

  lemma NothingJoined(k: Text)
    ensures Joined([]) + k == k
  {
  }

  lemma JoinedHead(texts: seq<Text>, k: Text)
    requires texts != []
    ensures Joined(texts) + k == texts[0] + (if |texts| == 1 then k else [44] + (Joined(texts[1..]) + k))
  {
    if |texts| > 1 {
      Associates(texts[0], [44], Joined(texts[1..]), k);
    }
  }

  lemma Associates(a: Text, b: Text, c: Text, d: Text)
    ensures a + b + c + d == a + (b + (c + d))
  {
    assert a + b + (c + d) == a + (b + (c + d));
  }

  lemma MemberHead(key: Text, t: Text, k: Text)
    ensures (StringText(key) + [58] + t) + k == StringThen(key, [58] + (t + k))
  {
    var q := Quoted(key);
    assert ([QUOTE] + q + [QUOTE] + [58] + t) + k == [QUOTE] + (q + [QUOTE] + ([58] + (t + k)));
  }

  /**
   Canonical text is injective up to what does not matter, and does not see what does not matter: two records have the
   same text if and only if they are equal up to the order of members and the sign of zero, at every depth.
   */
  lemma TextsAgreeExactly(f: Numerals, v: Json, w: Json)
    requires AreNumerals(f) && AllFinite(v) && AllFinite(w) && DistinctKeys(v) && DistinctKeys(w)
    ensures Serialize(f, v) == Serialize(f, w) <==> Same(v, w)
  {
    SerializesNormal(f, v, []);
    SerializesNormal(f, w, []);
    NormalIsPlain(v);
    NormalIsPlain(w);
    NormalDecidesSame(v, w);
    hide Serialize, Normal, Same, TextThen, Plain, AllFinite, DistinctKeys;
    assert Serialize(f, v) + [] == Serialize(f, v) && Serialize(f, w) + [] == Serialize(f, w);
    if Serialize(f, v) == Serialize(f, w) {
      TextDecides(f, Normal(v), Normal(w), [], []);
    }
  }

  lemma {:induction false} NormalIsAsFinite(v: Json)
    ensures AllFinite(Normal(v)) ==> AllFinite(v)
    decreases v
  {
    match v {
      case Arr(items) =>
        forall i | 0 <= i < |items| ensures AllFinite(Normal(items[i])) ==> AllFinite(items[i]) {
          NormalIsAsFinite(items[i]);
          NormalArr(items, i);
        }
        if AllFinite(Normal(v)) {
          forall i | 0 <= i < |items| ensures AllFinite(items[i]) {
            NormalArr(items, i);
          }
        }
      case Obj(members) =>
        SortedMembers(members);
        SortMembers(ByKey(), members);
        var sorted := Sort(ByKey(), members);
        if AllFinite(Normal(v)) {
          forall i | 0 <= i < |members| ensures AllFinite(members[i].value) {
            assert members[i] in sorted;
            var k :| 0 <= k < |sorted| && sorted[k] == members[i];
            assert Normal(v).members[k].value == Normal(members[i].value);
            NormalIsAsFinite(members[i].value);
          }
        }
      case _ =>
    }
  }

  /** Reordering members or signing a zero, anywhere, changes neither the text nor whether there is one. */
  lemma SameMeansSameAnswer(f: Numerals, v: Json, w: Json)
    requires AreNumerals(f) && DistinctKeys(v) && DistinctKeys(w)
    ensures Same(v, w) ==> Canonical(f, v) == Canonical(f, w)
    ensures Canonical(f, v) == Canonical(f, w) && Canonical(f, v).Ok? ==> Same(v, w)
  {
    if AllFinite(v) && AllFinite(w) {
      TextsAgreeExactly(f, v, w);
    } else if Same(v, w) {
      NormalDecidesSame(v, w);
      NormalIsAsFinite(v);
      NormalIsAsFinite(w);
      hide Normal, Same;
      if AllFinite(v) {
        NormalIsPlain(v);
      }
      if AllFinite(w) {
        NormalIsPlain(w);
      }
    }
  }
}
