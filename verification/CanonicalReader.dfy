/** What the canonical text says: a JSON reader, written after the grammar of RFC 8259 and ignorant of the printer, gets
    every printed value back, its keys in order; and strings are spelled as JSON.stringify spells them. */
module CanonicalReader {
  import opened Options
  import opened Canonical

  function Code(s: string): (t: Text)
    ensures |t| == |s| && forall i :: 0 <= i < |s| ==> t[i] == s[i] as nat
  {
    seq(|s|, i requires 0 <= i < |s| => s[i] as nat)
  }

  // ---------------------------------------------------------------- the reader

  /** The value of a hexadecimal digit, of either case. */
  function HexValue(c: nat): Option<nat> {
    if '0' as nat <= c <= '9' as nat then Some(c - '0' as nat)
    else if 'a' as nat <= c <= 'f' as nat then Some(c - 'a' as nat + 10)
    else if 'A' as nat <= c <= 'F' as nat then Some(c - 'A' as nat + 10)
    else None
  }

  /** Four hexadecimal digits. */
  function ReadHex(t: Text): Option<nat>
    requires |t| >= 4
  {
    var (a, b, c, d) := (HexValue(t[0]), HexValue(t[1]), HexValue(t[2]), HexValue(t[3]));
    if a.Some? && b.Some? && c.Some? && d.Some? then Some(((a.value * 16 + b.value) * 16 + c.value) * 16 + d.value) else None
  }

  /** What the letter after a backslash stands for (section 7 of RFC 8259). */
  function Unescaped(c: nat): Option<nat> {
    if c == '"' as nat || c == '\\' as nat || c == '/' as nat then Some(c)
    else if c == 'b' as nat then Some(8)
    else if c == 't' as nat then Some(9)
    else if c == 'n' as nat then Some(10)
    else if c == 'f' as nat then Some(12)
    else if c == 'r' as nat then Some(13)
    else None
  }

  /** The next code unit of a string, and what is left. */
  function ReadUnit(t: Text): (r: Option<(nat, Text)>)
    ensures r.Some? ==> |r.value.1| < |t|
  {
    if t == [] || t[0] == '"' as nat || t[0] < 32 then None
    else if t[0] != '\\' as nat then Some((t[0], t[1..]))
    else if |t| >= 6 && t[1] == 'u' as nat then
      if ReadHex(t[2..6]).Some? then Some((ReadHex(t[2..6]).value, t[6..])) else None
    else if |t| >= 2 && Unescaped(t[1]).Some? then Some((Unescaped(t[1]).value, t[2..]))
    else None
  }

  /** The rest of a string up to its closing quotation mark. */
  function ReadBody(t: Text): (r: Option<(Text, Text)>)
    ensures r.Some? ==> |r.value.1| < |t|
    decreases |t|
  {
    if t != [] && t[0] == '"' as nat then Some(([], t[1..]))
    else
      match ReadUnit(t)
      case None => None
      case Some((u, more)) =>
        match ReadBody(more)
        case None => None
        case Some((s, rest)) => Some(([u] + s, rest))
  }

  /** The text starts with this character, or with this word. */
  predicate At(t: Text, c: char) { t != [] && t[0] == c as nat }

  predicate Begins(t: Text, word: string) { |word| <= |t| && t[..|word|] == Code(word) }

  predicate NumberChar(c: nat) { exists d :: d in "0123456789+-.eE" && c == d as nat }

  function ReadNumber(t: Text): (r: (Text, Text))
    ensures r.0 + r.1 == t
  {
    if t == [] || !NumberChar(t[0]) then ([], t) else var (d, rest) := ReadNumber(t[1..]); ([t[0]] + d, rest)
  }

  /** A value, and what is left after it. */
  function ReadValue(t: Text): (r: Option<(Json, Text)>)
    ensures r.Some? ==> |r.value.1| < |t|
    decreases |t|, 0
  {
    if Begins(t, "null") then Some((Null, t[4..]))
    else if Begins(t, "true") then Some((Bool(true), t[4..]))
    else if Begins(t, "false") then Some((Bool(false), t[5..]))
    else if At(t, '"') then
      match ReadBody(t[1..])
      case None => None
      case Some((s, rest)) => Some((Str(s), rest))
    else if At(t, '[') && At(t[1..], ']') then Some((Arr([]), t[2..]))
    else if At(t, '[') then
      match ReadItems(t[1..])
      case None => None
      case Some((xs, rest)) => Some((Arr(xs), rest))
    else if At(t, '{') && At(t[1..], '}') then Some((Obj([]), t[2..]))
    else if At(t, '{') then
      match ReadMembers(t[1..])
      case None => None
      case Some((fs, rest)) => Some((Obj(fs), rest))
    else
      var (d, rest) := ReadNumber(t);
      if d != [] && (d[0] == '-' as nat || '0' as nat <= d[0] <= '9' as nat) then Some((Num(d), rest)) else None
  }

  /** Values separated by commas, up to the closing bracket. */
  function ReadItems(t: Text): (r: Option<(seq<Json>, Text)>)
    ensures r.Some? ==> |r.value.1| < |t|
    decreases |t|, 1
  {
    match ReadValue(t)
    case None => None
    case Some((x, rest)) =>
      if At(rest, ']') then Some(([x], rest[1..]))
      else if At(rest, ',') then
        match ReadItems(rest[1..])
        case None => None
        case Some((xs, end)) => Some(([x] + xs, end))
      else None
  }

  /** Members separated by commas, up to the closing brace. */
  function ReadMembers(t: Text): (r: Option<(seq<Field>, Text)>)
    ensures r.Some? ==> |r.value.1| < |t|
    decreases |t|, 1
  {
    match (if At(t, '"') then ReadBody(t[1..]) else None)
    case None => None
    case Some((key, colon)) =>
      if !At(colon, ':') then None
      else
        match ReadValue(colon[1..])
        case None => None
        case Some((v, rest)) =>
          if At(rest, '}') then Some(([Field(key, v)], rest[1..]))
          else if At(rest, ',') then
            match ReadMembers(rest[1..])
            case None => None
            case Some((fs, end)) => Some(([Field(key, v)] + fs, end))
          else None
  }

  // ---------------------------------------------------------------- strings

  /** Four lower-case hexadecimal digits of u. */
  predicate SpellsHex(t: Text, u: nat) {
    |t| == 4 && ReadHex(t) == Some(u) && forall i :: 0 <= i < 4 ==> t[i] in Code("0123456789abcdef")
  }

  /** The letters with a short escape. */
  predicate Short(u: nat, c: nat) { c in Code("\"\\btnfr") && Unescaped(c) == Some(u) }

  /** Half of a surrogate pair without the other half. */
  predicate Lone(s: Text, i: nat)
    requires i < |s|
  {
    || (0xD800 <= s[i] <= 0xDBFF && !(i + 1 < |s| && 0xDC00 <= s[i + 1] <= 0xDFFF))
    || (0xDC00 <= s[i] <= 0xDFFF && !(i > 0 && 0xD800 <= s[i - 1] <= 0xDBFF))
  }

  /** t spells the i-th unit of s: by its short escape if it has one, by its number if it is another control character or
      half of a pair, and else as it is. */
  ghost predicate Spells(t: Text, s: Text, i: nat)
    requires i < |s|
  {
    if exists c :: Short(s[i], c) then exists c :: Short(s[i], c) && t == Code("\\") + [c]
    else if s[i] < 32 || Lone(s, i) then |t| == 6 && t[..2] == Code("\\u") && SpellsHex(t[2..], s[i])
    else t == [s[i]]
  }

  lemma {:induction false} Words()
    ensures Code("null") == [110, 117, 108, 108] && Code("true") == [116, 114, 117, 101] && Code("false") == [102, 97, 108, 115, 101]
    ensures Code("\\") == [92] && Code("\\u") == [92, 117]
  {
  }

  lemma {:induction false} HexRead(n: nat)
    requires n < 16
    ensures HexValue(HexDigit(n)) == Some(n) && HexDigit(n) in Code("0123456789abcdef")
  {
    var digits := "0123456789abcdef";
    assert digits[n] as nat == HexDigit(n);
    assert Code(digits)[n] == HexDigit(n);
  }

  lemma {:induction false} EscapeSpells(u: nat)
    requires u < 0x10000
    ensures |Escape(u)| == 6 && Escape(u)[..2] == Code("\\u") && SpellsHex(Escape(u)[2..], u)
  {
    hide HexDigit, HexValue;
    HexRead(u / 4096);
    HexRead(u / 256 % 16);
    HexRead(u / 16 % 16);
    HexRead(u % 16);
    FromDigits(u);
    var t := Escape(u)[2..];
    assert t[0] == HexDigit(u / 4096) && t[1] == HexDigit(u / 256 % 16) && t[2] == HexDigit(u / 16 % 16) && t[3] == HexDigit(u % 16);
  }

  lemma {:induction false} Shorts(u: nat)
    ensures (exists c :: Short(u, c)) <==> u in {8, 9, 10, 12, 13, 34, 92}
    ensures Short(34, 34) && Short(92, 92) && Short(8, 98) && Short(9, 116) && Short(10, 110) && Short(12, 102) && Short(13, 114)
  {
    var letters := "\"\\btnfr";
    var t := Code(letters);
    assert t[0] == 34 && t[1] == 92 && t[2] == 98 && t[3] == 116 && t[4] == 110 && t[5] == 102 && t[6] == 114;
    assert Short(34, 34) && Short(92, 92) && Short(8, 98) && Short(9, 116) && Short(10, 110) && Short(12, 102) && Short(13, 114);
    forall c | Short(u, c)
      ensures u in {8, 9, 10, 12, 13, 34, 92}
    {
      assert c in t;
    }
  }

  /** The printer spells each unit so. */
  lemma {:induction false} UnitSpells(s: Text, i: nat)
    requires i < |s| && Units(s)
    ensures Spells(Unit(i > 0 && IsHigh(s[i - 1]), s[i..]), s, i)
  {
    hide Short, SpellsHex, Code;
    Shorts(s[i]);
    Words();
    EscapeSpells(s[i]);
  }

  /** The reader reads it back. */
  lemma {:induction false} SpelledReads(t: Text, s: Text, i: nat, x: Text)
    requires i < |s| && Spells(t, s, i)
    ensures ReadUnit(t + x) == Some((s[i], x)) && t != [] && t[0] != 34
  {
    Words();
    Shorts(s[i]);
    assert (t + x)[|t|..] == x;
    if |t| == 6 {
      assert (t + x)[2..6] == t[2..] && t[..2][0] == 92 && t[..2][1] == 117;
    }
  }

  lemma {:induction false} BodyReads(s: Text, i: nat, x: Text)
    requires i <= |s| && Units(s)
    ensures ReadBody(Body(i > 0 && IsHigh(s[i - 1]), s[i..]) + [34] + x) == Some((s[i..], x))
    decreases |s| - i
  {
    hide Unit, Spells, ReadUnit;
    if i == |s| {
      assert [] + [34] + x == [34] + x && ([34] + x)[1..] == x;
    } else {
      var prev := i > 0 && IsHigh(s[i - 1]);
      BodyStep(prev, s[i..], x);
      assert s[i..][1..] == s[i + 1..] && s[i..] == [s[i]] + s[i + 1..];
      UnitSpells(s, i);
      SpelledReads(Unit(prev, s[i..]), s, i, Body(IsHigh(s[i]), s[i + 1..]) + [34] + x);
      BodyReads(s, i + 1, x);
    }
  }

  function Concat(ts: seq<Text>): Text { if ts == [] then [] else Concat(ts[..|ts| - 1]) + ts[|ts| - 1] }

  lemma {:induction false} ConcatFirst(ts: seq<Text>)
    requires ts != []
    ensures Concat(ts) == ts[0] + Concat(ts[1..])
  {
    if |ts| > 1 {
      var front, rest, last := ts[..|ts| - 1], ts[1..], ts[|ts| - 1];
      ConcatFirst(front);
      assert rest[..|rest| - 1] == front[1..];
      assert Concat(rest) == Concat(front[1..]) + last;
      assert Concat(ts) == ts[0] + Concat(front[1..]) + last;
    }
  }

  lemma {:induction false} BodySpelled(s: Text, i: nat) returns (parts: seq<Text>)
    requires i <= |s| && Units(s)
    ensures |parts| == |s| - i && Body(i > 0 && IsHigh(s[i - 1]), s[i..]) == Concat(parts)
    ensures forall k :: 0 <= k < |parts| ==> Spells(parts[k], s, i + k)
    decreases |s| - i
  {
    hide Unit, Spells;
    if i == |s| {
      parts := [];
    } else {
      var rest := BodySpelled(s, i + 1);
      assert forall k :: 0 <= k < |rest| ==> Spells(rest[k], s, i + (k + 1));
      UnitSpells(s, i);
      assert s[i..][1..] == s[i + 1..];
      parts := [Unit(i > 0 && IsHigh(s[i - 1]), s[i..])] + rest;
      ConcatFirst(parts);
    }
  }

  /** A string is printed between quotation marks, each unit spelled as it should be. */
  lemma {:induction false} QuoteSpelled(s: Text) returns (parts: seq<Text>)
    requires Units(s)
    ensures |parts| == |s| && Quote(s) == Code("\"") + Concat(parts) + Code("\"") && forall i :: 0 <= i < |s| ==> Spells(parts[i], s, i)
  {
    hide Spells, Body;
    parts := BodySpelled(s, 0);
    assert s[0..] == s;
    assert forall k :: 0 <= k < |parts| ==> Spells(parts[k], s, 0 + k);
    assert Code("\"") == [34];
  }

  lemma {:induction false} QuoteReads(s: Text, x: Text)
    requires Units(s)
    ensures (Quote(s) + x)[0] == 34 && ReadBody((Quote(s) + x)[1..]) == Some((s, x))
  {
    BodyReads(s, 0, x);
    assert s[0..] == s;
    assert (Quote(s) + x)[1..] == Body(false, s) + [34] + x;
  }

  // ---------------------------------------------------------------- values

  /** a comes before b: where they first differ its unit is less, or it ends there. */
  predicate Before(a: Text, b: Text) {
    exists k :: 0 <= k <= |a| && k < |b| && a[..k] == b[..k] && (k == |a| || a[k] < b[k])
  }

  lemma {:induction false} PrecedesBefore(a: Text, b: Text)
    ensures Precedes(a, b) ==> Before(a, b)
    decreases |a|
  {
    if Precedes(a, b) {
      if a == [] || a[0] < b[0] {
        assert a[..0] == b[..0];
      } else {
        PrecedesBefore(a[1..], b[1..]);
        var k :| 0 <= k <= |a[1..]| && k < |b[1..]| && a[1..][..k] == b[1..][..k] && (k == |a[1..]| || a[1..][k] < b[1..][k]);
        assert a[..k + 1] == [a[0]] + a[1..][..k] && b[..k + 1] == [b[0]] + b[1..][..k];
      }
    }
  }

  /** Every object in the value has its keys in order. */
  predicate Ordered(j: Json) {
    match j
    case Arr(xs) => forall i :: 0 <= i < |xs| ==> Ordered(xs[i])
    case Obj(fs) =>
      && (forall i, k :: 0 <= i < k < |fs| ==> Before(fs[i].key, fs[k].key))
      && forall i :: 0 <= i < |fs| ==> Ordered(fs[i].value)
    case _ => true
  }

  lemma {:induction false} NumberChars(c: nat)
    ensures NumberChar(c) <==> Numeric(c)
  {
    var chars := "0123456789+-.eE";
    assert chars[0] == '0' && chars[1] == '1' && chars[2] == '2' && chars[3] == '3' && chars[4] == '4' && chars[5] == '5' && chars[6] == '6';
    assert chars[7] == '7' && chars[8] == '8' && chars[9] == '9' && chars[10] == '+' && chars[11] == '-' && chars[12] == '.' && chars[13] == 'e' && chars[14] == 'E';
    if Numeric(c) {
      var d := c as char;
      assert d in chars;
    }
  }

  lemma {:induction false} NumberReads(d: Text, x: Text)
    requires (forall i :: 0 <= i < |d| ==> Numeric(d[i])) && Stops(x)
    ensures ReadNumber(d + x) == (d, x)
  {
    hide NumberChar, Numeric;
    if d == [] {
      assert d + x == x;
      if x != [] { NumberChars(x[0]); }
    } else {
      NumberChars(d[0]);
      NumberReads(d[1..], x);
      assert (d + x)[1..] == d[1..] + x && d == [d[0]] + d[1..];
    }
  }

  /** What is printed reads back: the same value, its keys in order, and exactly what followed it. */
  lemma {:induction false} ReadsBack(j: Json, x: Text) returns (v: Json)
    requires Valid(j) && Stops(x)
    ensures ReadValue(Canon(j) + x) == Some((v, x)) && Same(j, v) && Ordered(v)
    decreases j, 1, 0
  {
    hide Body, Join, Sort, ReadBody, ReadItems, ReadMembers, ReadNumber;
    Words();
    StartsWith(j, x);
    var t := Canon(j) + x;
    match j
    case Null => v := j; assert t[..4] == Canon(j) && t[4..] == x;
    case Bool(b) => v := j; assert b ==> t[..4] == Canon(j) && t[4..] == x; assert !b ==> t[..5] == Canon(j) && t[5..] == x;
    case Num(d) => v := j; NumberReads(d, x); assert t[0] == d[0];
    case Str(s) => v := j; QuoteReads(s, x);
    case Arr(xs) =>
      AfterFirst(91, Join(PrintItems(xs)), 93, x);
      v := ArrayReads(j, xs, x);
    case Obj(fs) => v := ObjectReads(j, x);
  }

  /** How the reader takes an opening bracket or brace. */
  lemma {:induction false} Opening(t: Text)
    requires t != [] && (t[0] == 91 || t[0] == 123)
    ensures t[0] == 91 && At(t[1..], ']') ==> ReadValue(t) == Some((Arr([]), t[2..]))
    ensures t[0] == 91 && !At(t[1..], ']') && ReadItems(t[1..]).Some? ==>
      ReadValue(t) == Some((Arr(ReadItems(t[1..]).value.0), ReadItems(t[1..]).value.1))
    ensures t[0] == 123 && At(t[1..], '}') ==> ReadValue(t) == Some((Obj([]), t[2..]))
    ensures t[0] == 123 && !At(t[1..], '}') && ReadMembers(t[1..]).Some? ==>
      ReadValue(t) == Some((Obj(ReadMembers(t[1..]).value.0), ReadMembers(t[1..]).value.1))
  {
    hide ReadItems, ReadMembers, ReadBody, ReadNumber;
    Words();
    assert |t| >= 4 ==> t[..4][0] == t[0];
    assert |t| >= 5 ==> t[..5][0] == t[0];
  }

  lemma {:induction false} ArrayReads(j: Json, xs: seq<Json>, x: Text) returns (v: Json)
    requires j == Arr(xs) && Valid(j) && Stops(x)
    ensures ReadValue([91] + (Join(PrintItems(xs)) + ([93] + x))) == Some((v, x)) && Same(j, v) && Ordered(v)
    decreases j, 0, |xs| + 1
  {
    hide Join, ReadValue, ReadItems;
    var t := [91] + (Join(PrintItems(xs)) + ([93] + x));
    assert t[1..] == Join(PrintItems(xs)) + ([93] + x);
    ItemsStart(xs, x);
    Opening(t);
    if xs == [] {
      v := j;
      NothingJoined();
      assert t[1..] == [93] + x && t[2..] == x;
    } else {
      var vs := ItemsRead(j, xs, x);
      v := Arr(vs);
    }
  }

  lemma {:induction false} NothingJoined()
    ensures Join([]) == []
  {
  }

  lemma {:induction false} ItemsRead(a: Json, xs: seq<Json>, x: Text) returns (vs: seq<Json>)
    requires a.Arr? && xs != [] && ValidItems(xs) && (forall i :: 0 <= i < |xs| ==> xs[i] in a.items) && |xs| <= |a.items|
    ensures ReadItems(Join(PrintItems(xs)) + ([93] + x)) == Some((vs, x))
    ensures SameItems(xs, vs) && forall i :: 0 <= i < |vs| ==> Ordered(vs[i])
    decreases a, 0, |xs|
  {
    hide Canon, Join, ReadValue, Same, Ordered;
    var ts := PrintItems(xs);
    JoinNext(ts, 93, x);
    var p := if |ts| == 1 then [93] + x else [44] + (Join(ts[1..]) + ([93] + x));
    assert xs[0] in a.items;
    assert xs[0] < a;
    var v := ReadsBack(xs[0], p);
    if |xs| == 1 {
      vs := [v];
      assert p[1..] == x;
      assert xs[1..] == [] && vs[1..] == [];
    } else {
      var rest := ItemsRead(a, xs[1..], x);
      vs := [v] + rest;
      assert p[1..] == Join(ts[1..]) + ([93] + x) && vs[1..] == rest;
    }
  }

  /** The member read is the field printed, its value ordered. */
  ghost predicate ReadAs(fs: seq<Field>, p: Pair, g: Field) {
    exists i :: 0 <= i < |fs| && fs[i].key == p.key == g.key && Same(fs[i].value, g.value) && Ordered(g.value)
  }

  lemma {:induction false} MemberReads(a: Json, p: Pair, x: Text) returns (g: Field)
    requires a.Obj? && ValidFields(a.fields) && PrintedAt(p, a.fields) && Stops(x)
    ensures var t := p.text + x;
      && t != [] && t[0] == 34 && ReadBody(t[1..]).Some?
      && var (key, colon) := ReadBody(t[1..]).value;
      && colon != [] && colon[0] == 58 && key == g.key && ReadValue(colon[1..]) == Some((g.value, x))
    ensures ReadAs(a.fields, p, g)
    decreases a, 0, 0
  {
    hide Canon, Quote, PairOf, ReadValue, ReadBody, Same, Ordered;
    var i :| 0 <= i < |a.fields| && p == PairOf(a.fields[i]);
    var f := a.fields[i];
    FieldText(f, x);
    PairKeys(f, f);
    var more := [58] + (Canon(f.value) + x);
    QuoteReads(f.key, more);
    assert more[1..] == Canon(f.value) + x;
    assert f < a;
    var v := ReadsBack(f.value, x);
    g := Field(f.key, v);
  }

  lemma {:induction false} MembersRead(a: Json, ps: seq<Pair>, x: Text) returns (gs: seq<Field>)
    requires a.Obj? && ps != [] && ValidFields(a.fields) && Printed(ps, a.fields)
    ensures ReadMembers(Join(Texts(ps)) + ([125] + x)) == Some((gs, x))
    ensures |gs| == |ps| && forall k :: 0 <= k < |ps| ==> ReadAs(a.fields, ps[k], gs[k])
    decreases a, 0, |ps|
  {
    hide Join, ReadValue, ReadBody, PrintedAt, ReadAs;
    var ts := Texts(ps);
    JoinNext(ts, 125, x);
    var p := if |ts| == 1 then [125] + x else [44] + (Join(ts[1..]) + ([125] + x));
    var g := MemberReads(a, ps[0], p);
    if |ps| == 1 {
      gs := [g];
      assert p[1..] == x;
    } else {
      PrintedTail(ps, a.fields);
      var rest := MembersRead(a, ps[1..], x);
      gs := [g] + rest;
      assert p[1..] == Join(ts[1..]) + ([125] + x);
      assert forall k :: 0 < k < |ps| ==> ps[k] == ps[1..][k - 1] && gs[k] == rest[k - 1];
    }
  }

  lemma {:induction false} ReadFields(fs: seq<Field>, ps: seq<Pair>, gs: seq<Field>, rest: seq<Field>)
    requires DistinctKeys(fs) && ValidFields(fs) && |gs| == |ps| && (forall k :: 0 <= k < |ps| ==> ReadAs(fs, ps[k], gs[k]))
    requires forall f :: f in rest ==> f in fs && PairOf(f) in ps
    ensures SameFields(rest, gs)
    decreases |rest|
  {
    hide PairOf, Same, Ordered;
    if rest != [] {
      var f := rest[0];
      assert f in rest;
      var n :| 0 <= n < |fs| && fs[n] == f;
      var k :| 0 <= k < |ps| && ps[k] == PairOf(f);
      PairKeys(f, f);
      assert ReadAs(fs, ps[k], gs[k]);
      var i :| 0 <= i < |fs| && fs[i].key == ps[k].key == gs[k].key && Same(fs[i].value, gs[k].value);
      assert i == n;
      ReadFields(fs, ps, gs, rest[1..]);
    }
  }

  lemma {:induction false} ReadOrdered(fs: seq<Field>, ps: seq<Pair>, gs: seq<Field>)
    requires Increasing(ps) && |gs| == |ps| && forall k :: 0 <= k < |ps| ==> ReadAs(fs, ps[k], gs[k])
    ensures Ordered(Obj(gs))
  {
    hide Precedes, Before, Same;
    forall i, k | 0 <= i < k < |gs|
      ensures Before(gs[i].key, gs[k].key)
    {
      assert ReadAs(fs, ps[i], gs[i]) && ReadAs(fs, ps[k], gs[k]);
      PrecedesBefore(ps[i].key, ps[k].key);
    }
  }

  lemma {:induction false} ObjectReads(j: Json, x: Text) returns (v: Json)
    requires j.Obj? && Valid(j) && Stops(x)
    ensures ReadValue(Canon(j) + x) == Some((v, x)) && Same(j, v) && Ordered(v)
    decreases j, 0, |j.fields| + 1
  {
    hide Join, Sort, PrintFields, ReadMembers, ReadValue, PairOf, Before, Quote;
    var fs := j.fields;
    var ps := Sort(PrintFields(fs));
    SortedPrinted(fs);
    AfterFirst(123, Join(Texts(ps)), 125, x);
    var t := [123] + (Join(Texts(ps)) + ([125] + x));
    assert t == Canon(j) + x && t[1..] == Join(Texts(ps)) + ([125] + x);
    PairStarts(fs, ps, x);
    Opening(t);
    if fs == [] {
      v := j;
      NothingJoined();
      assert t[1..] == [125] + x && t[2..] == x;
    } else {
      var gs := MembersRead(j, ps, x);
      v := Obj(gs);
      SortIncreasing(PrintFields(fs));
      ReadOrdered(fs, ps, gs);
      ReadFields(fs, ps, gs, fs);
    }
  }

  /** A canonical text read to its end yields an equal value with its keys in order. */
  lemma {:induction false} RoundTrip(j: Json) returns (v: Json)
    requires Valid(j)
    ensures ReadValue(Canon(j)) == Some((v, [])) && Same(j, v) && Ordered(v)
  {
    hide Canon, ReadValue, Same, Ordered, Valid;
    v := ReadsBack(j, []);
    assert Canon(j) + [] == Canon(j);
  }
}
