/** The canonical printer of JSON values: its text determines the value up to the order of object keys.
    Texts are sequences of UTF-16 code units. */
module Canonical {

  type Text = seq<nat>

  /** `Num` holds the decimal text JSON gives a finite number. */
  datatype Json = Null | Bool(b: bool) | Num(digits: Text) | Str(s: Text) | Arr(items: seq<Json>) | Obj(fields: seq<Field>)
  datatype Field = Field(key: Text, value: Json)

  predicate Units(s: Text) { forall i :: 0 <= i < |s| ==> s[i] < 0x10000 }

  /** The characters of JSON numbers: digits, sign, point and exponent. */
  predicate Numeric(c: nat) { 48 <= c <= 57 || c == 43 || c == 45 || c == 46 || c == 69 || c == 101 }

  predicate IsNumber(t: Text) { t != [] && (48 <= t[0] <= 57 || t[0] == 45) && forall i :: 0 <= i < |t| ==> Numeric(t[i]) }

  predicate DistinctKeys(fs: seq<Field>) { forall i, j :: 0 <= i < j < |fs| ==> fs[i].key != fs[j].key }

  /** A JSON value: number texts are numbers, strings are code units, and an object has each key once. */
  predicate Valid(j: Json) {
    match j
    case Num(d) => IsNumber(d)
    case Str(s) => Units(s)
    case Arr(xs) => forall i :: 0 <= i < |xs| ==> Valid(xs[i])
    case Obj(fs) => DistinctKeys(fs) && forall i :: 0 <= i < |fs| ==> Units(fs[i].key) && Valid(fs[i].value)
    case _ => true
  }

  // ---------------------------------------------------------------- strings

  predicate IsHigh(u: nat) { 0xD800 <= u < 0xDC00 }
  predicate IsLow(u: nat) { 0xDC00 <= u < 0xE000 }

  function HexDigit(n: nat): nat
    requires n < 16
  {
    if n < 10 then 48 + n else 87 + n
  }

  /** Backslash, u and four hexadecimal digits. */
  function Escape(u: nat): Text
    requires u < 0x10000
  {
    [92, 117, HexDigit(u / 4096), HexDigit(u / 256 % 16), HexDigit(u / 16 % 16), HexDigit(u % 16)]
  }

  /** The first unit of s as JSON prints it; `prev` says whether a high surrogate came before.  Lone surrogates are escaped. */
  function Unit(prev: bool, s: Text): (t: Text)
    requires s != [] && Units(s)
    ensures t != [] && t[0] != 34
  {
    var u := s[0];
    if u == 34 || u == 92 then [92, u]
    else if u == 8 then [92, 98]
    else if u == 12 then [92, 102]
    else if u == 10 then [92, 110]
    else if u == 13 then [92, 114]
    else if u == 9 then [92, 116]
    else if u < 32 then Escape(u)
    else if IsHigh(u) && !(|s| > 1 && IsLow(s[1])) then Escape(u)
    else if IsLow(u) && !prev then Escape(u)
    else [u]
  }

  function Body(prev: bool, s: Text): Text
    requires Units(s)
    decreases |s|
  {
    if s == [] then [] else Unit(prev, s) + Body(IsHigh(s[0]), s[1..])
  }

  function Quote(s: Text): Text
    requires Units(s)
  {
    [34] + Body(false, s) + [34]
  }

  lemma {:induction false} HexInjective(m: nat, n: nat)
    requires m < 16 && n < 16 && HexDigit(m) == HexDigit(n)
    ensures m == n
  {
  }

  lemma {:induction false} FromDigits(u: nat)
    ensures u == 16 * (16 * (16 * (u / 4096) + u / 256 % 16) + u / 16 % 16) + u % 16
  {
    assert u == 16 * (u / 16) + u % 16;
    assert u / 16 == 16 * (u / 256) + u / 16 % 16;
    assert u / 256 == 16 * (u / 4096) + u / 256 % 16;
  }

  lemma {:induction false} EscapeInjective(u: nat, v: nat)
    requires u < 0x10000 && v < 0x10000 && Escape(u) == Escape(v)
    ensures u == v
  {
    hide HexDigit;
    var a, b := Escape(u), Escape(v);
    assert a[2] == b[2] && a[3] == b[3] && a[4] == b[4] && a[5] == b[5];
    HexInjective(u / 4096, v / 4096);
    HexInjective(u / 256 % 16, v / 256 % 16);
    HexInjective(u / 16 % 16, v / 16 % 16);
    HexInjective(u % 16, v % 16);
    FromDigits(u);
    FromDigits(v);
  }

  /** Printed units form a prefix code. */
  lemma {:induction false} UnitPrefix(prev: bool, s: Text, t: Text, x: Text, y: Text)
    requires s != [] && t != [] && Units(s) && Units(t) && Unit(prev, s) + x == Unit(prev, t) + y
    ensures s[0] == t[0] && x == y
  {
    var a, b := Unit(prev, s), Unit(prev, t);
    assert (a + x)[0] == a[0] && (b + y)[0] == b[0];
    if |a| > 1 && |b| > 1 { assert (a + x)[1] == a[1] && (b + y)[1] == b[1]; }
    assert |a| == |b|;
    assert a == (a + x)[..|a|] && b == (b + y)[..|b|] && x == (a + x)[|a|..] && y == (b + y)[|b|..];
    if |a| == 6 { EscapeInjective(s[0], t[0]); }
  }

  lemma {:induction false} BodyStep(prev: bool, s: Text, x: Text)
    requires s != [] && Units(s)
    ensures Body(prev, s) + [34] + x == Unit(prev, s) + (Body(IsHigh(s[0]), s[1..]) + [34] + x)
    ensures (Body(prev, s) + [34] + x)[0] != 34
  {
    hide Unit;
    var tail := Body(IsHigh(s[0]), s[1..]);
    assert Unit(prev, s) + tail + [34] + x == Unit(prev, s) + (tail + [34] + x);
    assert (Unit(prev, s) + (tail + [34] + x))[0] == Unit(prev, s)[0];
  }

  lemma {:induction false} BodyPrefix(prev: bool, s: Text, t: Text, x: Text, y: Text)
    requires Units(s) && Units(t) && Body(prev, s) + [34] + x == Body(prev, t) + [34] + y
    ensures s == t && x == y
    decreases |s|
  {
    hide Unit;
    if s == [] || t == [] {
      if s != [] { BodyStep(prev, s, x); }
      if t != [] { BodyStep(prev, t, y); }
      assert [] + [34] + x == [34] + x && [] + [34] + y == [34] + y;
      assert ([34] + x)[1..] == x && ([34] + y)[1..] == y;
    } else {
      BodyStep(prev, s, x);
      BodyStep(prev, t, y);
      UnitPrefix(prev, s, t, Body(IsHigh(s[0]), s[1..]) + [34] + x, Body(IsHigh(t[0]), t[1..]) + [34] + y);
      BodyPrefix(IsHigh(s[0]), s[1..], t[1..], x, y);
    }
  }

  lemma {:induction false} QuotePrefix(s: Text, t: Text, x: Text, y: Text)
    requires Units(s) && Units(t) && Quote(s) + x == Quote(t) + y
    ensures s == t && x == y
  {
    assert (Quote(s) + x)[1..] == Body(false, s) + [34] + x;
    assert (Quote(t) + y)[1..] == Body(false, t) + [34] + y;
    BodyPrefix(false, s, t, x, y);
  }

  // ---------------------------------------------------------------- values

  /** A key and the printed field. */
  datatype Pair = Pair(key: Text, text: Text)

  /** The order of Array.prototype.sort on strings: by code units. */
  predicate Precedes(a: Text, b: Text)
    decreases |a|
  {
    b != [] && (a == [] || a[0] < b[0] || (a[0] == b[0] && Precedes(a[1..], b[1..])))
  }

  function Insert(ps: seq<Pair>, p: Pair): seq<Pair> {
    if ps == [] || Precedes(p.key, ps[0].key) then [p] + ps else [ps[0]] + Insert(ps[1..], p)
  }

  function Sort(ps: seq<Pair>): seq<Pair> {
    if ps == [] then [] else Insert(Sort(ps[1..]), ps[0])
  }

  predicate ValidItems(xs: seq<Json>) { forall i :: 0 <= i < |xs| ==> Valid(xs[i]) }

  predicate ValidFields(fs: seq<Field>) { forall i :: 0 <= i < |fs| ==> Units(fs[i].key) && Valid(fs[i].value) }

  function Canon(j: Json): Text
    requires Valid(j)
    decreases j
  {
    match j
    case Null => [110, 117, 108, 108]
    case Bool(b) => if b then [116, 114, 117, 101] else [102, 97, 108, 115, 101]
    case Num(d) => d
    case Str(t) => Quote(t)
    case Arr(xs) => [91] + Join(PrintItems(xs)) + [93]
    case Obj(fs) => [123] + Join(Texts(Sort(PrintFields(fs)))) + [125]
  }

  function PrintItems(xs: seq<Json>): (r: seq<Text>)
    requires ValidItems(xs)
    ensures |r| == |xs|
    decreases xs
  {
    if xs == [] then [] else [Canon(xs[0])] + PrintItems(xs[1..])
  }

  function PrintFields(fs: seq<Field>): (r: seq<Pair>)
    requires ValidFields(fs)
    ensures |r| == |fs| && forall i :: 0 <= i < |fs| ==> r[i].key == fs[i].key
    decreases fs
  {
    if fs == [] then [] else [Pair(fs[0].key, Quote(fs[0].key) + [58] + Canon(fs[0].value))] + PrintFields(fs[1..])
  }

  function Texts(ps: seq<Pair>): (r: seq<Text>)
    ensures |r| == |ps|
  {
    if ps == [] then [] else [ps[0].text] + Texts(ps[1..])
  }

  /** Texts separated by commas. */
  function Join(ts: seq<Text>): Text {
    if ts == [] then [] else if |ts| == 1 then ts[0] else ts[0] + [44] + Join(ts[1..])
  }

  // ---------------------------------------------------------------- equality up to key order

  /** Equal values, the order of object keys aside. */
  predicate Same(a: Json, b: Json)
    decreases a
  {
    match a
    case Arr(xs) => b.Arr? && SameItems(xs, b.items)
    case Obj(fs) => b.Obj? && |fs| == |b.fields| && SameFields(fs, b.fields)
    case _ => a == b
  }

  predicate SameItems(xs: seq<Json>, ys: seq<Json>)
    decreases xs
  {
    |xs| == |ys| && (xs != [] ==> Same(xs[0], ys[0]) && SameItems(xs[1..], ys[1..]))
  }

  /** Every field of fs is a field of gs, with the same value. */
  predicate SameFields(fs: seq<Field>, gs: seq<Field>)
    decreases fs
  {
    fs != [] ==> (exists i :: 0 <= i < |gs| && gs[i].key == fs[0].key && Same(fs[0].value, gs[i].value)) && SameFields(fs[1..], gs)
  }

  // ---------------------------------------------------------------- the printer is unambiguous

  /** What follows a printed value: nothing that could continue a number. */
  predicate Stops(x: Text) { x == [] || !Numeric(x[0]) }

  function NumericLength(t: Text): nat {
    if t == [] || !Numeric(t[0]) then 0 else 1 + NumericLength(t[1..])
  }

  lemma {:induction false} NumberEnds(a: Text, x: Text)
    requires (forall i :: 0 <= i < |a| ==> Numeric(a[i])) && Stops(x)
    ensures NumericLength(a + x) == |a|
  {
    if a == [] {
      assert a + x == x;
    } else {
      assert (a + x)[1..] == a[1..] + x;
      NumberEnds(a[1..], x);
    }
  }

  lemma {:induction false} NumberPrefix(a: Text, b: Text, x: Text, y: Text)
    requires IsNumber(a) && IsNumber(b) && Stops(x) && Stops(y) && a + x == b + y
    ensures a == b && x == y
  {
    NumberEnds(a, x);
    NumberEnds(b, y);
    assert a == (a + x)[..|a|] && b == (b + y)[..|b|] && x == (a + x)[|a|..] && y == (b + y)[|b|..];
  }

  /** The first character tells what kind of value is printed. */
  function Kind(c: nat): nat {
    if c == 110 then 0 else if c == 116 then 1 else if c == 102 then 2 else if c == 34 then 4 else if c == 91 then 5
    else if c == 123 then 6 else 3
  }

  function KindOf(j: Json): nat {
    match j
    case Null => 0
    case Bool(b) => if b then 1 else 2
    case Num(_) => 3
    case Str(_) => 4
    case Arr(_) => 5
    case Obj(_) => 6
  }

  lemma {:induction false} StartsWith(j: Json, x: Text)
    requires Valid(j)
    ensures Canon(j) != [] && (Canon(j) + x)[0] == Canon(j)[0] && Kind(Canon(j)[0]) == KindOf(j)
    ensures Canon(j)[0] != 93 && Canon(j)[0] != 125 && Canon(j)[0] != 44
  {
    hide Join, Sort, Body;
  }

  lemma {:induction false} AfterFirst(c: nat, t: Text, d: nat, x: Text)
    ensures [c] + t + [d] + x == [c] + (t + ([d] + x)) && ([c] + (t + ([d] + x)))[1..] == t + ([d] + x)
  {
  }

  lemma {:induction false} JoinNext(ts: seq<Text>, close: nat, x: Text)
    requires ts != []
    ensures Join(ts) + ([close] + x) == ts[0] + (if |ts| == 1 then [close] + x else [44] + (Join(ts[1..]) + ([close] + x)))
  {
    if |ts| > 1 {
      var r := Join(ts[1..]);
      assert ts[0] + [44] + r + ([close] + x) == ts[0] + ([44] + (r + ([close] + x)));
    }
  }

  /** After an item comes the closing bracket or a comma and the next item. */
  lemma {:induction false} SameRest(ts: seq<Text>, us: seq<Text>, close: nat, x: Text, y: Text)
    requires ts != [] && us != [] && close != 44
    requires (if |ts| == 1 then [close] + x else [44] + (Join(ts[1..]) + ([close] + x))) ==
             (if |us| == 1 then [close] + y else [44] + (Join(us[1..]) + ([close] + y)))
    ensures |ts| == 1 <==> |us| == 1
    ensures |ts| == 1 ==> x == y
    ensures |ts| > 1 ==> Join(ts[1..]) + ([close] + x) == Join(us[1..]) + ([close] + y)
  {
    hide Join;
    var a := if |ts| == 1 then [close] + x else [44] + (Join(ts[1..]) + ([close] + x));
    var b := if |us| == 1 then [close] + y else [44] + (Join(us[1..]) + ([close] + y));
    assert a[0] == b[0] && a[1..] == b[1..];
    assert a[1..] == if |ts| == 1 then x else Join(ts[1..]) + ([close] + x);
    assert b[1..] == if |us| == 1 then y else Join(us[1..]) + ([close] + y);
  }

  /** Unique readability: where a printed value ends and what it is can be read off the text. */
  lemma {:induction false} CanonPrefix(a: Json, b: Json, x: Text, y: Text)
    requires Valid(a) && Valid(b) && Stops(x) && Stops(y) && Canon(a) + x == Canon(b) + y
    ensures Same(a, b) && x == y
    decreases a, 1, 0
  {
    hide Body, Join, Sort;
    StartsWith(a, x);
    StartsWith(b, y);
    match a
    case Null => assert x == (Canon(a) + x)[4..] && y == (Canon(b) + y)[4..];
    case Bool(v) =>
      var n := if v then 4 else 5;
      assert x == (Canon(a) + x)[n..] && y == (Canon(b) + y)[n..];
    case Num(d) => NumberPrefix(d, b.digits, x, y);
    case Str(s) => QuotePrefix(s, b.s, x, y);
    case Arr(xs) =>
      AfterFirst(91, Join(PrintItems(xs)), 93, x);
      AfterFirst(91, Join(PrintItems(b.items)), 93, y);
      ItemsPrefix(a, xs, b.items, x, y);
    case Obj(fs) =>
      ObjectPrefix(a, b, x, y);
  }

  lemma {:induction false} ItemsPrefix(a: Json, xs: seq<Json>, ys: seq<Json>, x: Text, y: Text)
    requires a.Arr? && ValidItems(xs) && ValidItems(ys) && (forall i :: 0 <= i < |xs| ==> xs[i] in a.items) && |xs| <= |a.items|
    requires Join(PrintItems(xs)) + ([93] + x) == Join(PrintItems(ys)) + ([93] + y)
    ensures SameItems(xs, ys) && x == y
    decreases a, 0, |xs|
  {
    hide Canon, Join;
    var ts, us := PrintItems(xs), PrintItems(ys);
    if xs == [] || ys == [] {
      ItemsEmpty(xs, ys, x, y);
    } else {
      JoinNext(ts, 93, x);
      JoinNext(us, 93, y);
      var p := if |ts| == 1 then [93] + x else [44] + (Join(ts[1..]) + ([93] + x));
      var q := if |us| == 1 then [93] + y else [44] + (Join(us[1..]) + ([93] + y));
      assert xs[0] in a.items;
      assert xs[0] < a;
      CanonPrefix(xs[0], ys[0], p, q);
      SameRest(ts, us, 93, x, y);
      if |xs| > 1 {
        ItemsPrefix(a, xs[1..], ys[1..], x, y);
      } else {
        assert xs[1..] == [] && ys[1..] == [];
      }
    }
  }

  lemma {:induction false} ItemsStart(xs: seq<Json>, x: Text)
    requires ValidItems(xs)
    ensures (Join(PrintItems(xs)) + ([93] + x))[0] == 93 <==> xs == []
  {
    hide Canon;
    if xs != [] {
      JoinNext(PrintItems(xs), 93, x);
      StartsWith(xs[0], []);
    }
  }

  lemma {:induction false} ItemsEmpty(xs: seq<Json>, ys: seq<Json>, x: Text, y: Text)
    requires ValidItems(xs) && ValidItems(ys) && (xs == [] || ys == [])
    requires Join(PrintItems(xs)) + ([93] + x) == Join(PrintItems(ys)) + ([93] + y)
    ensures xs == [] && ys == [] && x == y
  {
    hide Canon;
    ItemsStart(xs, x);
    ItemsStart(ys, y);
    assert [] + ([93] + x) == [93] + x && [] + ([93] + y) == [93] + y;
    assert ([93] + x)[1..] == x && ([93] + y)[1..] == y;
  }

  function PairOf(f: Field): Pair
    requires Units(f.key) && Valid(f.value)
  {
    Pair(f.key, Quote(f.key) + [58] + Canon(f.value))
  }

  lemma {:induction false} PrintedFields(fs: seq<Field>)
    requires ValidFields(fs)
    ensures forall i :: 0 <= i < |fs| ==> PrintFields(fs)[i] == PairOf(fs[i])
  {
    hide Canon, Quote;
    if fs != [] { PrintedFields(fs[1..]); }
  }

  lemma {:induction false} InsertHolds(ps: seq<Pair>, p: Pair)
    ensures |Insert(ps, p)| == |ps| + 1 && multiset(Insert(ps, p)) == multiset(ps) + multiset{p}
  {
    hide Precedes;
    if Insert(ps, p) == [p] + ps {
    } else {
      InsertHolds(ps[1..], p);
      assert ps == [ps[0]] + ps[1..];
    }
  }

  lemma {:induction false} SortHolds(ps: seq<Pair>)
    ensures |Sort(ps)| == |ps| && multiset(Sort(ps)) == multiset(ps)
  {
    hide Insert;
    if ps != [] {
      SortHolds(ps[1..]);
      InsertHolds(Sort(ps[1..]), ps[0]);
      assert ps == [ps[0]] + ps[1..];
    }
  }

  /** Every pair prints a field of the object. */
  ghost predicate Printed(ps: seq<Pair>, fs: seq<Field>)
    requires ValidFields(fs)
  {
    forall k :: 0 <= k < |ps| ==> PrintedAt(ps[k], fs)
  }

  ghost predicate PrintedAt(p: Pair, fs: seq<Field>)
    requires ValidFields(fs)
  {
    exists i :: 0 <= i < |fs| && p == PairOf(fs[i])
  }

  ghost predicate Matches(fs: seq<Field>, gs: seq<Field>, p: Pair, q: Pair) {
    exists i, j :: 0 <= i < |fs| && 0 <= j < |gs| && fs[i].key == p.key == q.key == gs[j].key && Same(fs[i].value, gs[j].value)
  }

  lemma {:induction false} SortedPrinted(fs: seq<Field>)
    requires ValidFields(fs)
    ensures Printed(Sort(PrintFields(fs)), fs) && |Sort(PrintFields(fs))| == |fs|
    ensures forall i :: 0 <= i < |fs| ==> PairOf(fs[i]) in Sort(PrintFields(fs))
  {
    hide PairOf, Sort, PrintFields;
    var ps, qs := PrintFields(fs), Sort(PrintFields(fs));
    SortHolds(ps);
    PrintedFields(fs);
    forall k | 0 <= k < |qs|
      ensures PrintedAt(qs[k], fs)
    {
      assert qs[k] in multiset(qs);
      assert qs[k] in ps;
    }
    forall i | 0 <= i < |fs|
      ensures PairOf(fs[i]) in qs
    {
      assert ps[i] in multiset(ps);
      assert PairOf(fs[i]) in multiset(qs);
    }
  }

  lemma {:induction false} FieldText(f: Field, x: Text)
    requires Units(f.key) && Valid(f.value)
    ensures PairOf(f).text + x == Quote(f.key) + ([58] + (Canon(f.value) + x))
  {
    hide Canon, Quote;
  }

  /** One printed field: its key and value can be read off. */
  lemma {:induction false} FieldPrefix(a: Json, f: Field, g: Field, x: Text, y: Text)
    requires a.Obj? && f in a.fields && Units(f.key) && Valid(f.value) && Units(g.key) && Valid(g.value) && Stops(x) && Stops(y)
    requires PairOf(f).text + x == PairOf(g).text + y
    ensures f.key == g.key && Same(f.value, g.value) && x == y
    decreases a, 0, 0
  {
    hide Canon, Quote, PairOf;
    FieldText(f, x);
    FieldText(g, y);
    var p, q := [58] + (Canon(f.value) + x), [58] + (Canon(g.value) + y);
    QuotePrefix(f.key, g.key, p, q);
    assert p[1..] == Canon(f.value) + x && q[1..] == Canon(g.value) + y;
    assert f < a;
    CanonPrefix(f.value, g.value, x, y);
  }

  /** The first printed pair: it can be read off, and prints fields that match. */
  lemma {:induction false} PairPrefix(a: Json, gs: seq<Field>, p: Pair, q: Pair, x: Text, y: Text)
    requires a.Obj? && ValidFields(a.fields) && ValidFields(gs) && PrintedAt(p, a.fields) && PrintedAt(q, gs)
    requires Stops(x) && Stops(y) && p.text + x == q.text + y
    ensures Matches(a.fields, gs, p, q) && x == y
    decreases a, 0, 1
  {
    hide Canon, PairOf, Same;
    var i :| 0 <= i < |a.fields| && p == PairOf(a.fields[i]);
    var j :| 0 <= j < |gs| && q == PairOf(gs[j]);
    FieldPrefix(a, a.fields[i], gs[j], x, y);
    PairKeys(a.fields[i], gs[j]);
  }

  lemma {:induction false} PairsPrefix(a: Json, gs: seq<Field>, ps: seq<Pair>, qs: seq<Pair>, x: Text, y: Text)
    requires a.Obj? && ValidFields(a.fields) && ValidFields(gs) && Printed(ps, a.fields) && Printed(qs, gs)
    requires Join(Texts(ps)) + ([125] + x) == Join(Texts(qs)) + ([125] + y)
    ensures |ps| == |qs| && x == y && forall k :: 0 <= k < |ps| ==> Matches(a.fields, gs, ps[k], qs[k])
    decreases a, 0, |ps| + 1
  {
    hide Canon, Join, PairOf, PrintedAt, Matches;
    if ps == [] || qs == [] {
      PairsEmpty(a.fields, gs, ps, qs, x, y);
    } else {
      var ts, us := Texts(ps), Texts(qs);
      JoinNext(ts, 125, x);
      JoinNext(us, 125, y);
      var p := if |ts| == 1 then [125] + x else [44] + (Join(ts[1..]) + ([125] + x));
      var q := if |us| == 1 then [125] + y else [44] + (Join(us[1..]) + ([125] + y));
      PairPrefix(a, gs, ps[0], qs[0], p, q);
      SameRest(ts, us, 125, x, y);
      if |ps| > 1 {
        PrintedTail(ps, a.fields);
        PrintedTail(qs, gs);
        PairsPrefix(a, gs, ps[1..], qs[1..], x, y);
        forall k | 0 < k < |ps|
          ensures Matches(a.fields, gs, ps[k], qs[k])
        {
          assert Matches(a.fields, gs, ps[1..][k - 1], qs[1..][k - 1]);
        }
      }
    }
  }

  lemma {:induction false} PrintedTail(ps: seq<Pair>, fs: seq<Field>)
    requires ps != [] && ValidFields(fs) && Printed(ps, fs)
    ensures Printed(ps[1..], fs)
  {
    hide PrintedAt;
    forall k | 0 <= k < |ps[1..]|
      ensures PrintedAt(ps[1..][k], fs)
    {
      assert PrintedAt(ps[k + 1], fs);
    }
  }

  lemma {:induction false} PairKeys(f: Field, g: Field)
    requires Units(f.key) && Valid(f.value) && Units(g.key) && Valid(g.value)
    ensures PairOf(f).key == f.key && PairOf(g).key == g.key
  {
  }

  lemma {:induction false} PairStarts(fs: seq<Field>, ps: seq<Pair>, x: Text)
    requires ValidFields(fs) && Printed(ps, fs)
    ensures (Join(Texts(ps)) + ([125] + x))[0] == 125 <==> ps == []
  {
    hide Canon, Body;
    if ps != [] {
      JoinNext(Texts(ps), 125, x);
      assert PrintedAt(ps[0], fs);
    }
  }

  lemma {:induction false} PairsEmpty(fs: seq<Field>, gs: seq<Field>, ps: seq<Pair>, qs: seq<Pair>, x: Text, y: Text)
    requires (ps == [] || qs == []) && ValidFields(fs) && ValidFields(gs) && Printed(ps, fs) && Printed(qs, gs)
    requires Join(Texts(ps)) + ([125] + x) == Join(Texts(qs)) + ([125] + y)
    ensures ps == [] && qs == [] && x == y
  {
    hide Canon, PairOf;
    PairStarts(fs, ps, x);
    PairStarts(gs, qs, y);
    assert [] + ([125] + x) == [125] + x && [] + ([125] + y) == [125] + y;
    assert ([125] + x)[1..] == x && ([125] + y)[1..] == y;
  }

  /** Where f is printed among the sorted pairs, the other object prints a field matching it. */
  lemma {:induction false} FieldMatched(fs: seq<Field>, gs: seq<Field>, f: Field, ps: seq<Pair>, qs: seq<Pair>) returns (j: nat)
    requires DistinctKeys(fs) && ValidFields(fs) && ValidFields(gs) && f in fs && |ps| == |qs| && PairOf(f) in ps
    requires forall k :: 0 <= k < |ps| ==> Matches(fs, gs, ps[k], qs[k])
    ensures j < |gs| && gs[j].key == f.key && Same(f.value, gs[j].value)
  {
    hide Canon, PairOf, Same;
    var n :| 0 <= n < |fs| && fs[n] == f;
    var k :| 0 <= k < |ps| && ps[k] == PairOf(f);
    PairKeys(f, f);
    assert Matches(fs, gs, ps[k], qs[k]);
    var i, at :| 0 <= i < |fs| && 0 <= at < |gs| && fs[i].key == ps[k].key == qs[k].key == gs[at].key && Same(fs[i].value, gs[at].value);
    assert fs[i].key == fs[n].key;
    j := at;
  }

  lemma {:induction false} AllMatched(fs: seq<Field>, gs: seq<Field>, rest: seq<Field>)
    requires DistinctKeys(fs) && ValidFields(fs) && ValidFields(gs) && (forall f :: f in rest ==> f in fs)
    requires |Sort(PrintFields(fs))| == |Sort(PrintFields(gs))|
    requires forall k :: 0 <= k < |fs| ==> k < |Sort(PrintFields(fs))| && Matches(fs, gs, Sort(PrintFields(fs))[k], Sort(PrintFields(gs))[k])
    ensures SameFields(rest, gs)
  {
    hide Canon, PairOf, Sort, PrintFields, Same, Matches;
    if rest != [] {
      SortedPrinted(fs);
      var f := rest[0];
      assert exists i :: 0 <= i < |fs| && fs[i] == f by { assert f in fs; }
      var j := FieldMatched(fs, gs, f, Sort(PrintFields(fs)), Sort(PrintFields(gs)));
      AllMatched(fs, gs, rest[1..]);
    }
  }

  lemma {:induction false} ObjectPrefix(a: Json, b: Json, x: Text, y: Text)
    requires a.Obj? && b.Obj? && Valid(a) && Valid(b) && Canon(a) + x == Canon(b) + y
    ensures Same(a, b) && x == y
    decreases a, 0, |a.fields| + 2
  {
    hide Join, Sort, PrintFields;
    var fs, gs := a.fields, b.fields;
    var ps, qs := Sort(PrintFields(fs)), Sort(PrintFields(gs));
    SortedPrinted(fs);
    SortedPrinted(gs);
    AfterFirst(123, Join(Texts(ps)), 125, x);
    AfterFirst(123, Join(Texts(qs)), 125, y);
    PairsPrefix(a, gs, ps, qs, x, y);
    AllMatched(fs, gs, fs);
  }

  // ---------------------------------------------------------------- equal values print alike

  lemma {:induction false} PrecedesOrder(a: Text, b: Text, c: Text)
    ensures !Precedes(a, a) && (a != b ==> Precedes(a, b) || Precedes(b, a))
    ensures Precedes(a, b) && Precedes(b, c) ==> Precedes(a, c)
    decreases |a|
  {
    if a != [] {
      PrecedesOrder(a[1..], if b == [] then [] else b[1..], if c == [] then [] else c[1..]);
      assert b != [] && a[0] == b[0] && a[1..] == b[1..] ==> a == b by {
        assert a == [a[0]] + a[1..];
        assert b != [] ==> b == [b[0]] + b[1..];
      }
    }
  }

  ghost predicate Increasing(ps: seq<Pair>) { forall i, j :: 0 <= i < j < |ps| ==> Precedes(ps[i].key, ps[j].key) }

  ghost predicate KeysDiffer(ps: seq<Pair>) { forall i, j :: 0 <= i < j < |ps| ==> ps[i].key != ps[j].key }

  lemma {:induction false} InsertIncreasing(ps: seq<Pair>, p: Pair)
    requires Increasing(ps) && forall i :: 0 <= i < |ps| ==> ps[i].key != p.key
    ensures Increasing(Insert(ps, p))
  {
    hide Precedes;
    InsertHolds(ps, p);
    if ps == [] || Precedes(p.key, ps[0].key) {
      forall j | 0 <= j < |ps|
        ensures Precedes(p.key, ps[j].key)
      {
        PrecedesOrder(p.key, ps[0].key, ps[j].key);
      }
    } else {
      var rest := Insert(ps[1..], p);
      InsertIncreasing(ps[1..], p);
      InsertHolds(ps[1..], p);
      forall j | 0 <= j < |rest|
        ensures Precedes(ps[0].key, rest[j].key)
      {
        assert rest[j] in multiset(rest);
        PrecedesOrder(ps[0].key, p.key, p.key);
      }
    }
  }

  lemma {:induction false} SortIncreasing(ps: seq<Pair>)
    requires KeysDiffer(ps)
    ensures Increasing(Sort(ps))
  {
    if ps != [] {
      var rest := Sort(ps[1..]);
      SortIncreasing(ps[1..]);
      SortHolds(ps[1..]);
      forall i | 0 <= i < |rest|
        ensures rest[i].key != ps[0].key
      {
        assert rest[i] in multiset(rest);
        assert rest[i] in ps[1..];
      }
      InsertIncreasing(rest, ps[0]);
    }
  }

  lemma {:induction false} NoMembers(ps: seq<Pair>, qs: seq<Pair>)
    requires forall p :: p in ps ==> p in qs
    ensures qs == [] ==> ps == []
  {
    if ps != [] { assert ps[0] in qs; }
  }

  /** The least pair comes first. */
  lemma {:induction false} LeastFirst(ps: seq<Pair>, p: Pair)
    requires Increasing(ps) && p in ps
    ensures p == ps[0] || Precedes(ps[0].key, p.key)
  {
    hide Precedes;
    var i :| 0 <= i < |ps| && ps[i] == p;
  }

  lemma {:induction false} IncreasingUnique(ps: seq<Pair>, qs: seq<Pair>)
    requires Increasing(ps) && Increasing(qs) && forall p :: p in ps <==> p in qs
    ensures ps == qs
  {
    hide Precedes;
    NoMembers(ps, qs);
    NoMembers(qs, ps);
    if ps != [] && qs != [] {
      hide Increasing;
      assert ps[0] in qs && qs[0] in ps;
      LeastFirst(ps, qs[0]);
      LeastFirst(qs, ps[0]);
      PrecedesOrder(ps[0].key, qs[0].key, ps[0].key);
      forall p
        ensures p in ps[1..] <==> p in qs[1..]
      {
        TailMembers(ps, p);
        TailMembers(qs, p);
      }
      IncreasingTail(ps);
      IncreasingTail(qs);
      IncreasingUnique(ps[1..], qs[1..]);
      assert ps == [ps[0]] + ps[1..] && qs == [qs[0]] + qs[1..];
    }
  }

  lemma {:induction false} IncreasingTail(ps: seq<Pair>)
    requires ps != [] && Increasing(ps)
    ensures Increasing(ps[1..])
  {
    hide Precedes;
  }

  lemma {:induction false} TailMembers(ps: seq<Pair>, p: Pair)
    requires ps != [] && Increasing(ps)
    ensures p in ps[1..] <==> p in ps && p != ps[0]
  {
    PrecedesOrder(ps[0].key, ps[0].key, ps[0].key);
    assert ps == [ps[0]] + ps[1..];
    forall j | 0 <= j < |ps[1..]|
      ensures ps[1..][j] != ps[0]
    {
      assert Precedes(ps[0].key, ps[j + 1].key);
    }
  }

  lemma {:induction false} DistinctCount(ps: seq<Pair>)
    requires KeysDiffer(ps)
    ensures |set p | p in ps| == |ps|
  {
    if ps != [] {
      DistinctCount(ps[1..]);
      MembersSplit(ps);
      forall j | 0 <= j < |ps[1..]|
        ensures ps[1..][j] != ps[0]
      {
        assert ps[j + 1].key != ps[0].key;
      }
    }
  }

  lemma {:induction false} MembersSplit(ps: seq<Pair>)
    requires ps != []
    ensures (set p | p in ps) == {ps[0]} + (set p | p in ps[1..])
  {
    assert ps == [ps[0]] + ps[1..];
  }

  lemma {:induction false} SameMembers(ps: seq<Pair>, qs: seq<Pair>)
    requires KeysDiffer(ps) && KeysDiffer(qs) && |ps| == |qs| && forall p :: p in ps ==> p in qs
    ensures forall p :: p in ps <==> p in qs
  {
    DistinctCount(ps);
    DistinctCount(qs);
    var a, b := set p | p in ps, set p | p in qs;
    assert a <= b;
    assert |b - a| == 0;
    assert b - a == {};
    forall p | p in qs
      ensures p in ps
    {
      assert p in b && p !in b - a;
    }
  }

  /** Equal values print the same text, whatever the order of their keys. */
  lemma {:induction false} SameCanon(a: Json, b: Json)
    requires Valid(a) && Valid(b) && Same(a, b)
    ensures Canon(a) == Canon(b)
    decreases a, 1
  {
    hide Join, Sort, Quote;
    match a
    case Arr(xs) => SameItemsPrint(xs, b.items);
    case Obj(fs) =>
      var ps, qs := PrintFields(fs), PrintFields(b.fields);
      SameFieldsPrint(fs, b.fields);
      SameMembers(ps, qs);
      SortIncreasing(ps);
      SortIncreasing(qs);
      SortHolds(ps);
      SortHolds(qs);
      SortedMembers(ps);
      SortedMembers(qs);
      IncreasingUnique(Sort(ps), Sort(qs));
    case _ =>
  }

  lemma {:induction false} SortedMembers(ps: seq<Pair>)
    ensures forall p :: p in Sort(ps) <==> p in ps
  {
    hide Sort;
    SortHolds(ps);
    assert forall p :: p in ps <==> p in multiset(ps);
    assert forall p :: p in Sort(ps) <==> p in multiset(Sort(ps));
  }

  lemma {:induction false} SameItemsPrint(xs: seq<Json>, ys: seq<Json>)
    requires ValidItems(xs) && ValidItems(ys) && SameItems(xs, ys)
    ensures PrintItems(xs) == PrintItems(ys)
    decreases xs
  {
    hide Canon;
    if xs != [] {
      SameCanon(xs[0], ys[0]);
      SameItemsPrint(xs[1..], ys[1..]);
    }
  }

  lemma {:induction false} SameFieldsPrint(fs: seq<Field>, gs: seq<Field>)
    requires ValidFields(fs) && ValidFields(gs) && SameFields(fs, gs)
    ensures forall p :: p in PrintFields(fs) ==> p in PrintFields(gs)
    decreases fs
  {
    hide Canon, Quote;
    if fs != [] {
      var i :| 0 <= i < |gs| && gs[i].key == fs[0].key && Same(fs[0].value, gs[i].value);
      SameCanon(fs[0].value, gs[i].value);
      PrintedFields(gs);
      assert PrintFields(gs)[i] == PairOf(fs[0]);
      SameFieldsPrint(fs[1..], gs);
      var ps := PrintFields(fs);
      assert ps == [PairOf(fs[0])] + PrintFields(fs[1..]);
    }
  }

  /** The canonical text determines a JSON value up to the order of object keys, and nothing more. */
  lemma {:induction false} CanonExact(a: Json, b: Json)
    requires Valid(a) && Valid(b)
    ensures Canon(a) == Canon(b) <==> Same(a, b)
  {
    hide Canon, Same;
    if Canon(a) == Canon(b) {
      assert Canon(a) + [] == Canon(a) && Canon(b) + [] == Canon(b);
      CanonPrefix(a, b, [], []);
    }
    if Same(a, b) { SameCanon(a, b); }
  }
}
