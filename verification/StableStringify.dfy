/**
 `stableStringify`: the canonical JSON text that keys the request cache. JavaScript strings are sequences of
 UTF-16 code units. An object is a map from key to value, so equality of values is equality up to key order.
 */
module StableStringify {
  import opened Tables

  type Unit = u: nat | u < 0x10000
  type Text = seq<Unit>

  /** `Undefined` and `NonFinite` are the two JavaScript values outside JSON that the function renders.
      A finite number is its decimal token, which `JSON.stringify` prints injectively. */
  datatype Value = Undefined | NonFinite | Null | Bool(b: bool) | Number(token: Text) | Str(text: Text)
                 | Arr(items: seq<Value>) | Obj(fields: map<Text, Value>)

  const QUOTE: Unit := 0x22
  const BACKSLASH: Unit := 0x5C
  const COMMA: Unit := 0x2C
  const COLON: Unit := 0x3A

  // ---- strings (section 7 of RFC 8259; the short escapes and lower-case hex of JSON.stringify) ----

  predicate IsHigh(u: Unit) { 0xD800 <= u < 0xDC00 }
  predicate IsLow(u: Unit) { 0xDC00 <= u < 0xE000 }

  function HexDigit(n: nat): (u: Unit)
    requires n < 16
  {
    if n < 10 then 0x30 + n else 0x61 + (n - 10)
  }

  function HexValue(u: Unit): (n: Option<nat>)
    ensures n.Some? ==> n.value < 16
  {
    if 0x30 <= u <= 0x39 then Some(u - 0x30) else if 0x61 <= u <= 0x66 then Some(u - 0x61 + 10) else None
  }

  function Hex(u: Unit): (t: Text) {
    [HexDigit(u / 16 / 16 / 16), HexDigit(u / 16 / 16 % 16), HexDigit(u / 16 % 16), HexDigit(u % 16)]
  }

  function ReadHex(t: Text): (r: Option<Unit>)
    requires |t| == 4
  {
    var a, b, c, d := HexValue(t[0]), HexValue(t[1]), HexValue(t[2]), HexValue(t[3]);
    if a.None? || b.None? || c.None? || d.None? then None
    else Some(((a.value * 16 + b.value) * 16 + c.value) * 16 + d.value)
  }

  function ShortEscape(u: Unit): (r: Option<Unit>) {
    if u == 0x08 then Some(0x62) else if u == 0x09 then Some(0x74) else if u == 0x0A then Some(0x6E)
    else if u == 0x0C then Some(0x66) else if u == 0x0D then Some(0x72)
    else if u == QUOTE || u == BACKSLASH then Some(u) else None
  }

  function ShortMeaning(u: Unit): (r: Option<Unit>) {
    if u == 0x62 then Some(0x08) else if u == 0x74 then Some(0x09) else if u == 0x6E then Some(0x0A)
    else if u == 0x66 then Some(0x0C) else if u == 0x72 then Some(0x0D)
    else if u == QUOTE || u == BACKSLASH then Some(u) else None
  }

  function EscapeUnit(u: Unit): (t: Text) {
    if ShortEscape(u).Some? then [BACKSLASH, ShortEscape(u).value]
    else if u < 0x20 || IsHigh(u) || IsLow(u) then
      [BACKSLASH, 0x75] + Hex(u)
    else [u]
  }

  /** A surrogate pair is copied, a lone surrogate escaped. */
  function Escape(s: Text): (t: Text) {
    if s == [] then []
    else if |s| >= 2 && IsHigh(s[0]) && IsLow(s[1]) then [s[0], s[1]] + Escape(s[2..])
    else EscapeUnit(s[0]) + Escape(s[1..])
  }

  function Quote(s: Text): (t: Text) {
    [QUOTE] + Escape(s) + [QUOTE]
  }

  /** Reads the inside of a JSON string up to its closing quote: the content and what follows. */
  function Unquote(t: Text): (r: Option<(Text, Text)>)
    decreases |t|
  {
    if t == [] then None
    else if t[0] == QUOTE then Some(([], t[1..]))
    else if t[0] != BACKSLASH then Prepend(t[0], Unquote(t[1..]))
    else if |t| >= 6 && t[1] == 0x75 then
      if ReadHex(t[2..6]).None? then None else Prepend(ReadHex(t[2..6]).value, Unquote(t[6..]))
    else if |t| >= 2 && ShortMeaning(t[1]).Some? then Prepend(ShortMeaning(t[1]).value, Unquote(t[2..]))
    else None
  }

  function Prepend(u: Unit, r: Option<(Text, Text)>): (r': Option<(Text, Text)>) {
    if r.None? then None else Some(([u] + r.value.0, r.value.1))
  }

  lemma HexRoundTrip(u: Unit)
    ensures ReadHex(Hex(u)) == Some(u)
  {
    var q1 := u / 16;
    var q2 := q1 / 16;
    var q3 := q2 / 16;
    assert q3 < 16;
    assert u == q1 * 16 + u % 16 && q1 == q2 * 16 + q1 % 16 && q2 == q3 * 16 + q2 % 16;
  }

  lemma UnquoteHex(u: Unit, t: Text)
    ensures Unquote([BACKSLASH, 0x75] + Hex(u) + t) == Prepend(u, Unquote(t))
  {
    hide HexDigit, ReadHex;
    var e := [BACKSLASH, 0x75] + Hex(u);
    HexRoundTrip(u);
    assert (e + t)[2..6] == Hex(u) && (e + t)[6..] == t;
  }

  lemma UnquoteShort(u: Unit, t: Text)
    requires ShortEscape(u).Some?
    ensures Unquote([BACKSLASH, ShortEscape(u).value] + t) == Prepend(u, Unquote(t))
  {
    hide ReadHex;
    var e := [BACKSLASH, ShortEscape(u).value];
    assert (e + t)[2..] == t;
  }

  lemma UnquoteUnit(u: Unit, t: Text)
    ensures Unquote(EscapeUnit(u) + t) == Prepend(u, Unquote(t))
  {
    hide Hex, ReadHex;
    if ShortEscape(u).Some? {
      UnquoteShort(u, t);
    } else if u < 0x20 || IsHigh(u) || IsLow(u) {
      UnquoteHex(u, t);
    } else {
      assert ([u] + t)[1..] == t;
    }
  }

  /** Reading back what was quoted returns the string and leaves the rest. */
  lemma {:induction false} UnquoteEscape(s: Text, rest: Text)
    ensures Unquote(Escape(s) + [QUOTE] + rest) == Some((s, rest))
    decreases |s|
  {
    hide EscapeUnit, ReadHex, ShortMeaning;
    if s == [] {
      assert Escape(s) + [QUOTE] + rest == [QUOTE] + rest;
    } else if |s| >= 2 && IsHigh(s[0]) && IsLow(s[1]) {
      var tail := Escape(s[2..]) + [QUOTE] + rest;
      assert Escape(s) + [QUOTE] + rest == [s[0]] + ([s[1]] + tail);
      assert ([s[0]] + ([s[1]] + tail))[1..] == [s[1]] + tail && ([s[1]] + tail)[1..] == tail;
      UnquoteEscape(s[2..], rest);
      assert s == [s[0]] + ([s[1]] + s[2..]);
    } else {
      var tail := Escape(s[1..]) + [QUOTE] + rest;
      assert Escape(s) + [QUOTE] + rest == EscapeUnit(s[0]) + tail;
      UnquoteUnit(s[0], tail);
      UnquoteEscape(s[1..], rest);
      assert s == [s[0]] + s[1..];
    }
  }

  lemma QuoteIsUniquelyReadable(s: Text, s': Text, r: Text, r': Text)
    requires Quote(s) + r == Quote(s') + r'
    ensures s == s' && r == r'
  {
    hide Escape, Unquote;
    UnquoteEscape(s, r);
    UnquoteEscape(s', r');
    assert (Quote(s) + r)[1..] == Escape(s) + [QUOTE] + r;
    assert (Quote(s') + r')[1..] == Escape(s') + [QUOTE] + r';
  }

  // ---- Object.keys(value).sort() ----

  /** The default sort order: code unit by code unit, a proper prefix first. */
  predicate NotAfter(a: Text, b: Text) {
    if a == [] then true
    else if b == [] then false
    else a[0] < b[0] || (a[0] == b[0] && NotAfter(a[1..], b[1..]))
  }

  ghost predicate Sorted(ks: seq<Text>) {
    forall i, j :: 0 <= i < j < |ks| ==> NotAfter(ks[i], ks[j]) && ks[i] != ks[j]
  }

  lemma {:induction false} OrderIsAntisymmetric(a: Text, b: Text)
    requires NotAfter(a, b) && NotAfter(b, a)
    ensures a == b
    decreases |a|
  {
    if a != [] && b != [] {
      OrderIsAntisymmetric(a[1..], b[1..]);
      assert a == [a[0]] + a[1..] && b == [b[0]] + b[1..];
    }
  }

  lemma {:induction false} OrderIsTransitive(a: Text, b: Text, c: Text)
    requires NotAfter(a, b) && NotAfter(b, c)
    ensures NotAfter(a, c)
    decreases |a|
  {
    if a != [] && b != [] && c != [] && a[0] == b[0] && b[0] == c[0] {
      OrderIsTransitive(a[1..], b[1..], c[1..]);
    }
  }

  lemma {:induction false} OrderIsTotal(a: Text, b: Text)
    ensures NotAfter(a, b) || NotAfter(b, a)
    decreases |a|
  {
    if a != [] && b != [] && a[0] == b[0] { OrderIsTotal(a[1..], b[1..]); }
  }

  lemma OrderIsPreorder()
    ensures TotalPreorder((a: Text, b: Text) => NotAfter(a, b))
  {
    forall a: Text, b: Text ensures NotAfter(a, b) || NotAfter(b, a) { OrderIsTotal(a, b); }
    forall a: Text, b: Text, c: Text | NotAfter(a, b) && NotAfter(b, c) ensures NotAfter(a, c) {
      OrderIsTransitive(a, b, c);
    }
  }

  ghost function FirstKey(ks: set<Text>): (k: Text)
    requires ks != {}
    ensures k in ks && forall x | x in ks :: NotAfter(k, x)
  {
    OrderIsPreorder();
    HasLeast((a: Text, b: Text) => NotAfter(a, b), ks);
    var k :| IsLeast((a: Text, b: Text) => NotAfter(a, b), ks, k); k
  }

  ghost function SortedKeys(ks: set<Text>): (r: seq<Text>)
    ensures Elems(r) == ks && Sorted(r)
    decreases |ks|
  {
    if ks == {} then []
    else
      ConsSorted(FirstKey(ks), SortedKeys(ks - {FirstKey(ks)}), ks);
      [FirstKey(ks)] + SortedKeys(ks - {FirstKey(ks)})
  }

  lemma ConsSorted(k: Text, rest: seq<Text>, ks: set<Text>)
    requires k in ks && (forall x | x in ks :: NotAfter(k, x)) && Elems(rest) == ks - {k} && Sorted(rest)
    ensures Elems([k] + rest) == ks && Sorted([k] + rest)
  {
    hide NotAfter;
    assert forall i | 0 <= i < |rest| :: rest[i] in Elems(rest);
    assert Elems([k] + rest) == {k} + Elems(rest);
  }

  /** However the object was built, sorting its keys gives this one sequence. */
  lemma {:induction false} SortingForgetsInsertionOrder(keys: seq<Text>, ks: set<Text>)
    requires Sorted(keys) && Elems(keys) == ks
    ensures keys == SortedKeys(ks)
    decreases |keys|
  {
    if keys == [] {
    } else {
      assert keys[0] in Elems(keys);
      var first := FirstKey(ks);
      assert first in Elems(keys);
      assert NotAfter(keys[0], first) by {
        var i :| 0 <= i < |keys| && keys[i] == first;
        if i == 0 { OrderIsTotal(keys[0], keys[0]); }
      }
      OrderIsAntisymmetric(keys[0], first);
      assert Elems(keys[1..]) == ks - {first} by {
        assert keys == [keys[0]] + keys[1..];
        assert forall x :: x in keys[1..] ==> x != keys[0];
      }
      SortingForgetsInsertionOrder(keys[1..], ks - {first});
      assert keys == [first] + keys[1..];
    }
  }

  // ---- the stringifier ----

  const UNDEFINED_TEXT: Text :=
    [0x5F, 0x5F, 0x75, 0x6E, 0x64, 0x65, 0x66, 0x69, 0x6E, 0x65, 0x64, 0x5F, 0x5F]
  const NONFINITE_TEXT: Text :=
    [0x5F, 0x5F, 0x6E, 0x6F, 0x6E, 0x66, 0x69, 0x6E, 0x69, 0x74, 0x65, 0x5F, 0x6E, 0x75, 0x6D, 0x62, 0x65, 0x72,
     0x5F, 0x5F]
  const NULL_TEXT: Text := [0x6E, 0x75, 0x6C, 0x6C]
  const TRUE_TEXT: Text := [0x74, 0x72, 0x75, 0x65]
  const FALSE_TEXT: Text := [0x66, 0x61, 0x6C, 0x73, 0x65]
  const OPEN_ARRAY: Unit := 0x5B
  const CLOSE_ARRAY: Unit := 0x5D
  const OPEN_OBJECT: Unit := 0x7B
  const CLOSE_OBJECT: Unit := 0x7D

  ghost function Stringify(v: Value): (t: Text)
    decreases v, 1
  {
    match v
    case Undefined => Quote(UNDEFINED_TEXT)
    case NonFinite => Quote(NONFINITE_TEXT)
    case Null => NULL_TEXT
    case Bool(b) => if b then TRUE_TEXT else FALSE_TEXT
    case Number(token) => token
    case Str(text) => Quote(text)
    case Arr(items) => [OPEN_ARRAY] + Items(items) + [CLOSE_ARRAY]
    case Obj(fields) => [OPEN_OBJECT] + Fields(v, SortedKeys(fields.Keys)) + [CLOSE_OBJECT]
  }

  /** The items joined with commas. */
  ghost function Items(items: seq<Value>): (t: Text)
    decreases items, 0
  {
    if items == [] then []
    else if |items| == 1 then Stringify(items[0])
    else Stringify(items[0]) + [COMMA] + Items(items[1..])
  }

  /** The `key:value` entries of an object joined with commas. */
  ghost function Fields(v: Value, keys: seq<Text>): (t: Text)
    requires v.Obj? && forall i | 0 <= i < |keys| :: keys[i] in v.fields
    decreases v, 0, |keys|
  {
    if keys == [] then []
    else
      var entry := Quote(keys[0]) + [COLON] + Stringify(v.fields[keys[0]]);
      if |keys| == 1 then entry else entry + [COMMA] + Fields(v, keys[1..])
  }

  // ---- unique readability ----

  predicate IsNumberUnit(u: Unit) {
    0x30 <= u <= 0x39 || u == 0x2B || u == 0x2D || u == 0x2E || u == 0x45 || u == 0x65
  }

  /** Number tokens are nonempty and made of digits, sign, point and exponent letters (section 6 of RFC 8259). */
  ghost predicate WellFormed(v: Value) {
    match v
    case Number(token) => token != [] && forall i | 0 <= i < |token| :: IsNumberUnit(token[i])
    case Arr(items) => forall i | 0 <= i < |items| :: WellFormed(items[i])
    case Obj(fields) => forall k | k in fields :: WellFormed(fields[k])
    case _ => true
  }

  /** What the text keeps of a value: the two values outside JSON become their marker strings. */
  ghost function Kept(v: Value): (w: Value) {
    match v
    case Undefined => Str(UNDEFINED_TEXT)
    case NonFinite => Str(NONFINITE_TEXT)
    case Arr(items) => Arr(seq(|items|, i requires 0 <= i < |items| => Kept(items[i])))
    case Obj(fields) => Obj(map k | k in fields :: Kept(fields[k]))
    case _ => v
  }

  predicate Delimited(r: Text) {
    r == [] || r[0] == COMMA || r[0] == CLOSE_ARRAY || r[0] == CLOSE_OBJECT
  }

  /** The first unit tells which kind of value follows. */
  function Mark(v: Value): (m: nat) {
    match v
    case Undefined => QUOTE
    case NonFinite => QUOTE
    case Str(_) => QUOTE
    case Null => 0x6E
    case Bool(b) => if b then 0x74 else 0x66
    case Number(_) => 0
    case Arr(_) => OPEN_ARRAY
    case Obj(_) => OPEN_OBJECT
  }

  lemma Starts(v: Value)
    requires WellFormed(v)
    ensures Stringify(v) != []
    ensures if v.Number? then IsNumberUnit(Stringify(v)[0]) else Stringify(v)[0] == Mark(v)
  {
    if v.Number? { assert Stringify(v) == v.token; }
  }

  lemma TokensAreUnique(a: Text, b: Text, r: Text, r': Text)
    requires forall i | 0 <= i < |a| :: IsNumberUnit(a[i])
    requires forall i | 0 <= i < |b| :: IsNumberUnit(b[i])
    requires Delimited(r) && Delimited(r') && a + r == b + r'
    ensures a == b && r == r'
  {
    var t := a + r;
    assert |a| < |t| ==> t[|a|] == r[0];
    assert |b| < |t| ==> t[|b|] == r'[0];
    assert forall i | 0 <= i < |a| :: t[i] == a[i];
    assert forall i | 0 <= i < |b| :: t[i] == b[i];
    assert a == t[..|a|] && b == t[..|b|];
    assert r == t[|a|..] && r' == t[|b|..];
  }

  lemma SameMark(a: Value, b: Value, r: Text, r': Text)
    requires WellFormed(a) && WellFormed(b) && Stringify(a) + r == Stringify(b) + r'
    ensures Mark(a) == Mark(b)
  {
    hide Stringify, WellFormed;
    Starts(a);
    Starts(b);
    assert (Stringify(a) + r)[0] == Stringify(a)[0] && (Stringify(b) + r')[0] == Stringify(b)[0];
  }

  lemma {:induction false} TextsAreUnique(a: Value, b: Value, r: Text, r': Text)
    requires WellFormed(a) && WellFormed(b) && Delimited(r) && Delimited(r')
    requires Stringify(a) + r == Stringify(b) + r'
    ensures Kept(a) == Kept(b) && r == r'
    decreases a, 1
  {
    hide Items, Fields, Quote, SortedKeys;
    SameMark(a, b, r, r');
    if a.Arr? {
      Inside(OPEN_ARRAY, Items(a.items), CLOSE_ARRAY, r, Items(b.items), r');
      ItemsAreUnique(a.items, b.items, r, r');
    } else if a.Obj? {
      var ks, ls := SortedKeys(a.fields.Keys), SortedKeys(b.fields.Keys);
      Inside(OPEN_OBJECT, Fields(a, ks), CLOSE_OBJECT, r, Fields(b, ls), r');
      FieldsAreUnique(a, b, ks, ls, r, r');
      KeptOfFields(a, b, ks);
    } else {
      ScalarsAreUnique(a, b, r, r');
    }
  }

  lemma {:induction false} KeptOfFields(a: Value, b: Value, ks: seq<Text>)
    requires a.Obj? && b.Obj? && Elems(ks) == a.fields.Keys == b.fields.Keys
    requires forall i | 0 <= i < |ks| :: Kept(a.fields[ks[i]]) == Kept(b.fields[ks[i]])
    ensures Kept(a) == Kept(b)
  {
    forall k | k in a.fields ensures Kept(a.fields[k]) == Kept(b.fields[k]) {
      assert k in Elems(ks);
    }
  }

  lemma ScalarsAreUnique(a: Value, b: Value, r: Text, r': Text)
    requires WellFormed(a) && WellFormed(b) && Delimited(r) && Delimited(r')
    requires !a.Arr? && !a.Obj? && Mark(a) == Mark(b) && Stringify(a) + r == Stringify(b) + r'
    ensures Kept(a) == Kept(b) && r == r'
  {
    hide Quote;
    if a.Undefined? || a.NonFinite? || a.Str? {
      QuoteIsUniquelyReadable(Kept(a).text, Kept(b).text, r, r');
    } else if a.Number? {
      TokensAreUnique(a.token, b.token, r, r');
    } else {
      assert r == (Stringify(a) + r)[|Stringify(a)|..];
      assert r' == (Stringify(b) + r')[|Stringify(b)|..];
    }
  }

  lemma Inside(open: Unit, x: Text, close: Unit, r: Text, y: Text, r': Text)
    requires [open] + x + [close] + r == [open] + y + [close] + r'
    ensures x + ([close] + r) == y + ([close] + r')
  {
    assert ([open] + x + [close] + r)[1..] == x + ([close] + r);
    assert ([open] + y + [close] + r')[1..] == y + ([close] + r');
  }

  /** What follows the first of several parts: a comma and the others, or the closing bracket. */
  ghost function After(others: Text, last: bool, close: Unit, r: Text): (t: Text) {
    if last then [close] + r else [COMMA] + (others + ([close] + r))
  }

  lemma {:induction false} ItemsAreUnique(xs: seq<Value>, ys: seq<Value>, r: Text, r': Text)
    requires forall i | 0 <= i < |xs| :: WellFormed(xs[i])
    requires forall i | 0 <= i < |ys| :: WellFormed(ys[i])
    requires Items(xs) + ([CLOSE_ARRAY] + r) == Items(ys) + ([CLOSE_ARRAY] + r')
    ensures |xs| == |ys| && r == r' && forall i | 0 <= i < |xs| :: Kept(xs[i]) == Kept(ys[i])
    decreases xs, 0
  {
    var t := Items(xs) + ([CLOSE_ARRAY] + r);
    ItemsStart(xs, r);
    ItemsStart(ys, r');
    if xs != [] && ys != [] {
      var x, y := After(Items(xs[1..]), |xs| == 1, CLOSE_ARRAY, r), After(Items(ys[1..]), |ys| == 1, CLOSE_ARRAY, r');
      TextsAreUnique(xs[0], ys[0], x, y);
      assert x[0] == y[0];
      assert x[1..] == y[1..];
      if |xs| == 1 {
        assert r == x[1..] && r' == y[1..];
      } else {
        assert x[1..] == Items(xs[1..]) + ([CLOSE_ARRAY] + r) && y[1..] == Items(ys[1..]) + ([CLOSE_ARRAY] + r');
        ItemsAreUnique(xs[1..], ys[1..], r, r');
        assert forall i | 0 < i < |xs| :: xs[i] == xs[1..][i - 1] && ys[i] == ys[1..][i - 1];
      }
    } else if xs == [] && ys == [] {
      assert r == t[1..] && t[1..] == r';
    }
  }

  lemma ItemsStart(xs: seq<Value>, r: Text)
    requires forall i | 0 <= i < |xs| :: WellFormed(xs[i])
    ensures var t := Items(xs) + ([CLOSE_ARRAY] + r);
      && |t| > 0 && (t[0] == CLOSE_ARRAY <==> xs == [])
      && (xs != [] ==> t == Stringify(xs[0]) + After(Items(xs[1..]), |xs| == 1, CLOSE_ARRAY, r))
  {
    hide Stringify;
    if xs != [] {
      Starts(xs[0]);
      assert Items(xs) + ([CLOSE_ARRAY] + r) == Stringify(xs[0]) + After(Items(xs[1..]), |xs| == 1, CLOSE_ARRAY, r);
    }
  }

  lemma {:induction false} FieldsAreUnique(v: Value, w: Value, ks: seq<Text>, ls: seq<Text>, r: Text, r': Text)
    requires v.Obj? && w.Obj? && WellFormed(v) && WellFormed(w)
    requires (forall i | 0 <= i < |ks| :: ks[i] in v.fields) && (forall i | 0 <= i < |ls| :: ls[i] in w.fields)
    requires Fields(v, ks) + ([CLOSE_OBJECT] + r) == Fields(w, ls) + ([CLOSE_OBJECT] + r')
    ensures ks == ls && r == r' && forall i | 0 <= i < |ks| :: Kept(v.fields[ks[i]]) == Kept(w.fields[ks[i]])
    decreases v, 0, |ks|
  {
    hide Stringify, Quote, Fields, Kept;
    var t := Fields(v, ks) + ([CLOSE_OBJECT] + r);
    FieldsStart(v, ks, r);
    FieldsStart(w, ls, r');
    if ks != [] && ls != [] {
      var x, y := FieldRest(v, ks, r), FieldRest(w, ls, r');
      var a, b := v.fields[ks[0]], w.fields[ls[0]];
      QuoteIsUniquelyReadable(ks[0], ls[0], [COLON] + (Stringify(a) + x), [COLON] + (Stringify(b) + y));
      assert ([COLON] + (Stringify(a) + x))[1..] == Stringify(a) + x;
      assert ([COLON] + (Stringify(b) + y))[1..] == Stringify(b) + y;
      TextsAreUnique(a, b, x, y);
      assert x[0] == y[0] && x[1..] == y[1..];
      if |ks| == 1 {
        assert r == x[1..] && r' == y[1..];
        assert ks == [ks[0]] && ls == [ls[0]];
      } else {
        assert x[1..] == Fields(v, ks[1..]) + ([CLOSE_OBJECT] + r) &&
            y[1..] == Fields(w, ls[1..]) + ([CLOSE_OBJECT] + r');
        FieldsAreUnique(v, w, ks[1..], ls[1..], r, r');
        assert ks == [ks[0]] + ks[1..] && ls == [ls[0]] + ls[1..];
      }
    } else if ks == [] && ls == [] {
      assert r == t[1..] && t[1..] == r';
    }
  }

  ghost function FieldRest(v: Value, ks: seq<Text>, r: Text): (t: Text)
    requires v.Obj? && ks != [] && forall i | 0 <= i < |ks| :: ks[i] in v.fields
  {
    After(Fields(v, ks[1..]), |ks| == 1, CLOSE_OBJECT, r)
  }

  lemma Regroup(q: Text, st: Text, others: Text, last: bool, r: Text)
    ensures var entry := q + [COLON] + st;
      (if last then entry else entry + [COMMA] + others) + ([CLOSE_OBJECT] + r)
      == q + ([COLON] + (st + After(others, last, CLOSE_OBJECT, r)))
  {
  }

  lemma QuoteStarts(k: Text)
    ensures |Quote(k)| > 0 && Quote(k)[0] == QUOTE
  {
  }

  lemma FieldsStart(v: Value, ks: seq<Text>, r: Text)
    requires v.Obj? && forall i | 0 <= i < |ks| :: ks[i] in v.fields
    ensures var t := Fields(v, ks) + ([CLOSE_OBJECT] + r);
      && |t| > 0 && (t[0] == CLOSE_OBJECT <==> ks == []) && (ks == [] ==> t == [CLOSE_OBJECT] + r)
      && (ks != [] ==> t == Quote(ks[0]) + ([COLON] + (Stringify(v.fields[ks[0]]) + FieldRest(v, ks, r))))
  {
    hide Stringify, Quote, After;
    if ks != [] {
      QuoteStarts(ks[0]);
      Regroup(Quote(ks[0]), Stringify(v.fields[ks[0]]), Fields(v, ks[1..]), |ks| == 1, r);
    }
  }

  // ---- two values share a text exactly when the text keeps the same of both ----

  lemma {:induction false} TextOfKept(v: Value)
    ensures Stringify(Kept(v)) == Stringify(v)
    decreases v, 1
  {
    match v
    case Arr(items) => ItemsOfKept(items);
    case Obj(fields) =>
      assert Kept(v).fields.Keys == fields.Keys;
      FieldsOfKept(v, SortedKeys(fields.Keys));
    case _ =>
  }

  lemma {:induction false} ItemsOfKept(items: seq<Value>)
    ensures Items(seq(|items|, i requires 0 <= i < |items| => Kept(items[i]))) == Items(items)
    decreases items, 0
  {
    hide Stringify;
    if items != [] {
      var kept := seq(|items|, i requires 0 <= i < |items| => Kept(items[i]));
      TextOfKept(items[0]);
      ItemsOfKept(items[1..]);
      assert kept[1..] == seq(|items[1..]|, i requires 0 <= i < |items[1..]| => Kept(items[1..][i]));
    }
  }

  lemma {:induction false} FieldsOfKept(v: Value, ks: seq<Text>)
    requires v.Obj? && forall i | 0 <= i < |ks| :: ks[i] in v.fields
    ensures Fields(Kept(v), ks) == Fields(v, ks)
    decreases v, 0, |ks|
  {
    if ks != [] {
      TextOfKept(v.fields[ks[0]]);
      FieldsOfKept(v, ks[1..]);
    }
  }

  lemma SameTextIffSameKept(a: Value, b: Value)
    requires WellFormed(a) && WellFormed(b)
    ensures Stringify(a) == Stringify(b) <==> Kept(a) == Kept(b)
  {
    if Stringify(a) == Stringify(b) {
      assert Stringify(a) + [] == Stringify(b) + [];
      TextsAreUnique(a, b, [], []);
    }
    TextOfKept(a);
    TextOfKept(b);
  }

  ghost predicate IsJson(v: Value) {
    match v
    case Undefined => false
    case NonFinite => false
    case Arr(items) => forall i | 0 <= i < |items| :: IsJson(items[i])
    case Obj(fields) => forall k | k in fields :: IsJson(fields[k])
    case _ => true
  }

  lemma {:induction false} JsonIsKept(v: Value)
    requires IsJson(v)
    ensures Kept(v) == v
  {
    match v
    case Arr(items) =>
      forall i | 0 <= i < |items| ensures Kept(items[i]) == items[i] { JsonIsKept(items[i]); }
    case Obj(fields) =>
      forall k | k in fields ensures Kept(fields[k]) == fields[k] { JsonIsKept(fields[k]); }
      assert Kept(v).fields == fields;
    case _ =>
  }

  /** On JSON values the text determines the value, up to object key order. */
  lemma JsonTextIsInjective(a: Value, b: Value)
    requires WellFormed(a) && WellFormed(b) && IsJson(a) && IsJson(b) && Stringify(a) == Stringify(b)
    ensures a == b
  {
    SameTextIffSameKept(a, b);
    JsonIsKept(a);
    JsonIsKept(b);
  }

  /** Outside JSON it is not injective: `undefined` and the string `"__undefined__"` share their text. */
  lemma UndefinedCollides()
    ensures Stringify(Undefined) == Stringify(Str(UNDEFINED_TEXT)) && Undefined != Str(UNDEFINED_TEXT)
  {
  }

  // ---- the cache key ----

  /** Handler types are `ravi:` followed by a name without a colon. */
  ghost predicate IsHandlerType(t: Text) {
    exists i :: 0 <= i < |t| && t[i] == COLON && forall j | 0 <= j < |t| && j != i :: t[j] != COLON
  }

  ghost function CacheKey(handler: Text, payload: Value): (k: Text) {
    handler + [COLON] + Stringify(payload)
  }

  /** Two requests share a cache entry only if they are the same request. */
  lemma CacheKeyIsInjective(t: Text, a: Value, u: Text, b: Value)
    requires IsHandlerType(t) && IsHandlerType(u)
    requires WellFormed(a) && WellFormed(b) && IsJson(a) && IsJson(b)
    requires CacheKey(t, a) == CacheKey(u, b)
    ensures t == u && a == b
  {
    var k := CacheKey(t, a);
    assert forall i | 0 <= i < |t| :: k[i] == t[i];
    assert forall i | 0 <= i < |u| :: k[i] == u[i];
    assert k[|t|] == COLON && k[|u|] == COLON;
    assert |t| == |u|;
    assert t == k[..|t|] && u == k[..|u|];
    assert Stringify(a) == k[|t| + 1..] && Stringify(b) == k[|u| + 1..];
    JsonTextIsInjective(a, b);
  }
}
