/**
 What canonical text looks like, character by character and member by member,
 said without the functions that write it.
 */
module CanonicalForm {
  import opened Base
  import opened Sorting
  import opened CanonicalJson

  /** The code units of a text in the ASCII range. */
  function Units(s: string): Text {
    seq(|s|, i requires 0 <= i < |s| => s[i] as int % 0x80)
  }

  const HEX := "0123456789abcdef"

  // Strings.

  /** A surrogate without its other half beside it. */
  predicate Lone(s: Text, i: nat)
    requires i < |s|
  {
    || (0xD800 <= s[i] <= 0xDBFF && (i + 1 == |s| || !(0xDC00 <= s[i + 1] <= 0xDFFF)))
    || (0xDC00 <= s[i] <= 0xDFFF && (i == 0 || !(0xD800 <= s[i - 1] <= 0xDBFF)))
  }

  /** What stands for the unit at i between the quotes. */
  function Piece(s: Text, i: nat): Text
    requires i < |s|
  {
    match s[i]
    case 0x22 => Units("\\\"")
    case 0x5C => Units("\\\\")
    case 0x08 => Units("\\b")
    case 0x09 => Units("\\t")
    case 0x0A => Units("\\n")
    case 0x0C => Units("\\f")
    case 0x0D => Units("\\r")
    case u =>
      if u <= 0x1F || Lone(s, i) then
        Units("\\u" + [HEX[u / 0x1000], HEX[u / 0x100 % 0x10], HEX[u / 0x10 % 0x10], HEX[u % 0x10]])
      else [u]
  }

  function Body(s: Text, i: nat): Text
    requires i <= |s|
    decreases |s| - i
  {
    if i == |s| then [] else Piece(s, i) + Body(s, i + 1)
  }

  function InQuotes(s: Text): Text {
    Units("\"") + Body(s, 0) + Units("\"")
  }

  lemma HexUnit(d: int)
    requires 0 <= d < 16
    ensures HEX[d] as int == HexDigit(d) && HexDigit(d) < 0x80
  {
  }

  lemma HexUnits(u: Unit)
    ensures Units("\\u" + [HEX[u / 0x1000], HEX[u / 0x100 % 0x10], HEX[u / 0x10 % 0x10], HEX[u % 0x10]])
         == HexEscape(u)
  {
    HexUnit(u / 0x1000);
    HexUnit(u / 0x100 % 0x10);
    HexUnit(u / 0x10 % 0x10);
    HexUnit(u % 0x10);
    hide HexDigit;
  }

  lemma ShortUnits()
    ensures Units("\\\"") == [92, 34] && Units("\\\\") == [92, 92]
    ensures Units("\\b") == [92, 98] && Units("\\t") == [92, 116] && Units("\\n") == [92, 110]
    ensures Units("\\f") == [92, 102] && Units("\\r") == [92, 114]
  {
  }

  lemma EscapesAsPiece(s: Text, i: nat)
    requires i < |s| && ((0xD800 <= s[i] <= 0xDFFF) ==> Lone(s, i))
    ensures Piece(s, i) == Escaped(s[i])
  {
    ShortUnits();
    HexUnits(s[i]);
    hide HexEscape, Units;
  }

  lemma PairPieces(s: Text, i: nat)
    requires i + 1 < |s| && 0xD800 <= s[i] <= 0xDBFF && 0xDC00 <= s[i + 1] <= 0xDFFF
    ensures Piece(s, i) == [s[i]] && Piece(s, i + 1) == [s[i + 1]]
  {
    hide Units;
  }

  /** Quoting writes piece by piece, once a pair is not split. */
  lemma {:induction false} QuotesPieces(s: Text, i: nat)
    requires i <= |s|
    requires 0 < i < |s| ==> !(0xD800 <= s[i - 1] <= 0xDBFF && 0xDC00 <= s[i] <= 0xDFFF)
    ensures Quoted(s[i..]) == Body(s, i)
    decreases |s| - i
  {
    hide Piece, Escaped;
    if i < |s| {
      var t := s[i..];
      if |t| > 1 && IsHigh(t[0]) && IsLow(t[1]) {
        assert t[2..] == s[i + 2..] && t[..2] == [s[i]] + [s[i + 1]];
        PairPieces(s, i);
        QuotesPieces(s, i + 2);
        assert Body(s, i) == [s[i]] + ([s[i + 1]] + Body(s, i + 2));
      } else {
        assert t[1..] == s[i + 1..];
        EscapesAsPiece(s, i);
        QuotesPieces(s, i + 1);
      }
    }
  }

  lemma QuotesExactly(s: Text)
    ensures StringText(s) == InQuotes(s)
  {
    assert s[0..] == s;
    QuotesPieces(s, 0);
    assert Units("\"") == [34];
  }

  // Values.

  /** a comes before b: at the first unit in which they differ it has the smaller one, or it ends there. */
  predicate Before(a: Text, b: Text) {
    exists k :: 0 <= k <= |a| && k <= |b| && DifferAt(a, b, k)
  }

  predicate DifferAt(a: Text, b: Text, k: nat)
    requires k <= |a| && k <= |b|
  {
    a[..k] == b[..k] && ((k == |a| && k < |b|) || (k < |a| && k < |b| && a[k] < b[k]))
  }

  function Commas(texts: seq<Text>): Text {
    if |texts| == 0 then []
    else if |texts| == 1 then texts[0]
    else Commas(texts[..|texts| - 1]) + Units(",") + texts[|texts| - 1]
  }

  /** order lists each member of the object once, with keys ascending by their units. */
  ghost predicate Orders(order: seq<Member>, members: seq<Member>) {
    && multiset(order) == multiset(members)
    && forall i, j :: 0 <= i < j < |order| ==> Before(order[i].key, order[j].key)
  }

  /** t is the canonical text of v. */
  ghost predicate Writes(f: Numerals, v: Json, t: Text)
    decreases v
  {
    match v
    case Null => t == Units("null")
    case Bool(true) => t == Units("true")
    case Bool(false) => t == Units("false")
    case Number(NegativeZero) => t == Units("0")
    case Number(Finite(value)) => t == f(value)
    case Number(NonFinite) => false
    case Str(s) => t == InQuotes(s)
    case Arr(items) =>
      exists texts: seq<Text> ::
        && t == Units("[") + Commas(texts) + Units("]")
        && |texts| == |items|
        && forall i :: 0 <= i < |items| ==> Writes(f, items[i], texts[i])
    case Obj(members) =>
      exists order: seq<Member>, texts: seq<Text> ::
        && t == Units("{") + Commas(Entries(order, texts)) + Units("}")
        && |texts| == |order|
        && Orders(order, members)
        && forall i :: 0 <= i < |order| ==> order[i] in members && Writes(f, order[i].value, texts[i])
  }

  function Entries(order: seq<Member>, texts: seq<Text>): seq<Text> {
    seq(if |order| <= |texts| then |order| else |texts|, i requires 0 <= i < |order| && i < |texts| =>
      InQuotes(order[i].key) + Units(":") + texts[i])
  }

  // The functions write that.

  lemma {:induction false} JoinedLast(texts: seq<Text>)
    requires |texts| > 1
    ensures Joined(texts) == Joined(texts[..|texts| - 1]) + [44] + texts[|texts| - 1]
  {
    if |texts| > 2 {
      JoinedLast(texts[1..]);
      assert texts[1..][..|texts| - 2] == texts[..|texts| - 1][1..];
    }
  }

  lemma {:induction false} JoinsWithCommas(texts: seq<Text>)
    ensures Joined(texts) == Commas(texts)
  {
    if |texts| > 1 {
      JoinedLast(texts);
      JoinsWithCommas(texts[..|texts| - 1]);
      assert Units(",") == [44];
    }
  }

  lemma {:induction false} KeyLeqIsBefore(a: Text, b: Text)
    requires KeyLeq(a, b) && a != b
    ensures Before(a, b)
  {
    if a == [] {
      assert DifferAt(a, b, 0);
    } else if a[0] < b[0] {
      assert DifferAt(a, b, 0);
    } else {
      assert a == [a[0]] + a[1..] && b == [b[0]] + b[1..];
      KeyLeqIsBefore(a[1..], b[1..]);
      var k :| 0 <= k <= |a| - 1 && k <= |b| - 1 && DifferAt(a[1..], b[1..], k);
      assert a[..k + 1] == [a[0]] + a[1..][..k] && b[..k + 1] == [b[0]] + b[1..][..k];
      assert DifferAt(a, b, k + 1);
    }
  }

  lemma SortOrders(members: seq<Member>)
    requires KeysDiffer(members)
    ensures Orders(Sort(ByKey(), members), members)
  {
    var order := Sort(ByKey(), members);
    SortPermutes(ByKey(), members);
    ByKeyIsPreorder();
    SortSorts(ByKey(), members);
    SortedRecord(members);
    hide Sort, TotalPreorder;
    forall i, j | 0 <= i < j < |order| ensures Before(order[i].key, order[j].key) {
      assert ByKey()(order[i], order[j]);
      KeyLeqIsBefore(order[i].key, order[j].key);
    }
  }

  lemma ArrayWrites(f: Numerals, items: seq<Json>)
    requires AllFinite(Arr(items))
    requires forall i :: 0 <= i < |items| ==> Writes(f, items[i], Serialize(f, items[i]))
    ensures Writes(f, Arr(items), Serialize(f, Arr(items)))
  {
    var texts := ItemTexts(f, items);
    SerializeArr(f, items);
    JoinsWithCommas(texts);
    hide Serialize, Joined, Commas;
    assert Units("[") == [91] && Units("]") == [93];
  }

  lemma EntriesOf(f: Numerals, order: seq<Member>, texts: seq<Text>)
    requires |texts| == |order| && forall i :: 0 <= i < |order| ==> AllFinite(order[i].value)
    requires forall i :: 0 <= i < |order| ==> texts[i] == Serialize(f, order[i].value)
    ensures MemberTexts(f, order) == Entries(order, texts)
  {
    hide Serialize, InQuotes, StringText;
    assert Units(":") == [58];
    forall i | 0 <= i < |order| ensures MemberTexts(f, order)[i] == Entries(order, texts)[i] {
      QuotesExactly(order[i].key);
    }
  }

  lemma ObjectWritten(f: Numerals, members: seq<Member>, order: seq<Member>, texts: seq<Text>)
    requires |texts| == |order| && Orders(order, members)
    requires forall i :: 0 <= i < |order| ==> order[i] in members && Writes(f, order[i].value, texts[i])
    ensures Writes(f, Obj(members), [123] + Commas(Entries(order, texts)) + [125])
  {
    assert Units("{") == [123] && Units("}") == [125];
    hide Commas, Entries, Orders, Units;
  }

  lemma ObjectWrites(f: Numerals, members: seq<Member>)
    requires AllFinite(Obj(members)) && KeysDiffer(members)
    requires forall i :: 0 <= i < |members| ==> Writes(f, members[i].value, Serialize(f, members[i].value))
    ensures Writes(f, Obj(members), Serialize(f, Obj(members)))
  {
    SerializeObj(f, members);
    SortOrders(members);
    hide Sort, Serialize, Joined, Commas, Writes, Orders, Entries, AllFinite;
    var order := Sort(ByKey(), members);
    var texts: seq<Text> := seq(|order|, i requires 0 <= i < |order| => Serialize(f, order[i].value));
    forall i | 0 <= i < |order| ensures order[i] in members && Writes(f, order[i].value, texts[i]) {
      var j :| 0 <= j < |members| && members[j] == order[i];
    }
    EntriesOf(f, order, texts);
    JoinsWithCommas(MemberTexts(f, order));
    ObjectWritten(f, members, order, texts);
  }

  /** Serialization writes the canonical text: literals, quoting, and the members of each object in order. */
  lemma {:induction false} SerializeWrites(f: Numerals, v: Json)
    requires AllFinite(v) && DistinctKeys(v)
    ensures Writes(f, v, Serialize(f, v))
    decreases v
  {
    match v {
      case Null => assert Units("null") == [110, 117, 108, 108];
      case Bool(b) =>
        assert Units("true") == [116, 114, 117, 101] && Units("false") == [102, 97, 108, 115, 101];
      case Number(_) => assert Units("0") == [48];
      case Str(s) => QuotesExactly(s);
      case Arr(items) =>
        forall i | 0 <= i < |items| ensures Writes(f, items[i], Serialize(f, items[i])) {
          SerializeWrites(f, items[i]);
        }
        ArrayWrites(f, items);
      case Obj(members) =>
        forall i | 0 <= i < |members| ensures Writes(f, members[i].value, Serialize(f, members[i].value)) {
          SerializeWrites(f, members[i].value);
        }
        ObjectWrites(f, members);
    }
  }

  /** A number that is not finite, somewhere in v. */
  ghost predicate HasNonFinite(v: Json) {
    match v
    case Number(n) => n.NonFinite?
    case Arr(items) => exists i :: 0 <= i < |items| && HasNonFinite(items[i])
    case Obj(members) => exists i :: 0 <= i < |members| && HasNonFinite(members[i].value)
    case _ => false
  }

  lemma {:induction false} FiniteOrNot(v: Json)
    ensures AllFinite(v) <==> !HasNonFinite(v)
    decreases v
  {
    match v {
      case Arr(items) =>
        forall i | 0 <= i < |items| ensures AllFinite(items[i]) <==> !HasNonFinite(items[i]) { FiniteOrNot(items[i]); }
      case Obj(members) =>
        forall i | 0 <= i < |members| ensures AllFinite(members[i].value) <==> !HasNonFinite(members[i].value) {
          FiniteOrNot(members[i].value);
        }
      case _ =>
    }
  }

  /** A value is refused if and only if a number in it is not finite; otherwise its canonical text is written. */
  lemma CanonicalExactly(f: Numerals, v: Json)
    requires DistinctKeys(v)
    ensures Canonical(f, v).Ok? <==> !HasNonFinite(v)
    ensures Canonical(f, v).Ok? ==> Writes(f, v, Canonical(f, v).value)
  {
    FiniteOrNot(v);
    if AllFinite(v) { SerializeWrites(f, v); }
  }
}
