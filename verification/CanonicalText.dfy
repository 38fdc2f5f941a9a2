/** The JSON text whose hash identifies a request (src/server.mjs, `canonicalJsonHash`):
    printing is injective, so equal texts mean equal values. */
module CanonicalText {
  import opened CanonicalJson

  // ---------- JSON.stringify ----------

  const QUOTE: CodeUnit := 34
  const BACKSLASH: CodeUnit := 92
  const COMMA: CodeUnit := 44
  const COLON: CodeUnit := 58
  const OPEN_ARRAY: CodeUnit := 91
  const CLOSE_ARRAY: CodeUnit := 93
  const OPEN_OBJECT: CodeUnit := 123
  const CLOSE_OBJECT: CodeUnit := 125
  const NULL_TEXT: Text := [110, 117, 108, 108]
  const TRUE_TEXT: Text := [116, 114, 117, 101]
  const FALSE_TEXT: Text := [102, 97, 108, 115, 101]

  predicate IsHigh(u: CodeUnit) { 0xD800 <= u <= 0xDBFF }
  predicate IsLow(u: CodeUnit) { 0xDC00 <= u <= 0xDFFF }
  predicate StartsPair(s: Text) { |s| > 1 && IsHigh(s[0]) && IsLow(s[1]) }

  function HexDigit(n: nat): CodeUnit
    requires n < 16
  {
    if n < 10 then 48 + n else 87 + n
  }

  /** The last `width` hexadecimal digits of n. */
  function Hex(n: nat, width: nat): (r: Text)
    ensures |r| == width
  {
    if width == 0 then [] else Hex(n / 16, width - 1) + [HexDigit(n % 16)]
  }

  /** The short escapes of section 7 of RFC 8259; 0 when there is none. */
  function ShortEscape(u: CodeUnit): CodeUnit {
    if u == 8 then 98 else if u == 9 then 116 else if u == 10 then 110 else if u == 12 then 102
    else if u == 13 then 114 else if u == QUOTE || u == BACKSLASH then u else 0
  }

  /** A unit that is not part of a surrogate pair; a lone surrogate is escaped. */
  function EscapeUnit(u: CodeUnit): (r: Text)
    ensures |r| > 0
  {
    if ShortEscape(u) != 0 then [BACKSLASH, ShortEscape(u)]
    else if u < 32 || IsHigh(u) || IsLow(u) then [BACKSLASH, 117] + Hex(u as nat, 4)
    else [u]
  }

  function Escape(s: Text): Text {
    if s == [] then []
    else if StartsPair(s) then s[..2] + Escape(s[2..])
    else EscapeUnit(s[0]) + Escape(s[1..])
  }

  function Quote(s: Text): Text { [QUOTE] + Escape(s) + [QUOTE] }

  function Stringify(j: Json): Text {
    match j
    case Null => NULL_TEXT
    case Bool(b) => if b then TRUE_TEXT else FALSE_TEXT
    case Num(numeral) => numeral
    case NonFinite => NULL_TEXT
    case Str(s) => Quote(s)
    case Arr(items) => [OPEN_ARRAY] + StringifyItems(items, true)
    case Obj(fields) => [OPEN_OBJECT] + StringifyFields(fields, true)
  }

  function Lead(first: bool): Text { if first then [] else [COMMA] }

  function StringifyItems(items: seq<Json>, first: bool): Text {
    if items == [] then [CLOSE_ARRAY]
    else Lead(first) + Stringify(items[0]) + StringifyItems(items[1..], false)
  }

  function StringifyField(f: Field): Text { Quote(f.key) + [COLON] + Stringify(f.value) }

  function StringifyFields(fields: seq<Field>, first: bool): Text {
    if fields == [] then [CLOSE_OBJECT]
    else Lead(first) + StringifyField(fields[0]) + StringifyFields(fields[1..], false)
  }

  /** The text `canonicalJsonHash` feeds to SHA-256. */
  function CanonicalTextOf(j: Json): Text { Stringify(Canonicalize(j)) }

  // ---------- Strings are printed injectively ----------

  lemma SplitSame(p: Text, x: Text, y: Text)
    requires p + x == p + y
    ensures x == y
  {
    assert (p + x)[|p|..] == x && (p + y)[|p|..] == y;
  }

  function Power16(width: nat): nat { if width == 0 then 1 else 16 * Power16(width - 1) }

  lemma {:induction false} HexInjective(m: nat, n: nat, width: nat)
    requires m < Power16(width) && n < Power16(width) && Hex(m, width) == Hex(n, width)
    ensures m == n
  {
    if width > 0 {
      var a, b := Hex(m, width), Hex(n, width);
      assert a[width - 1] == HexDigit(m % 16) && b[width - 1] == HexDigit(n % 16);
      assert a[..width - 1] == Hex(m / 16, width - 1) && b[..width - 1] == Hex(n / 16, width - 1);
      HexInjective(m / 16, n / 16, width - 1);
    }
  }

  /** What printing a nonempty string emits first, and how many units that stands for. */
  function Chunk(s: Text): Text
    requires s != []
  {
    if StartsPair(s) then s[..2] else EscapeUnit(s[0])
  }

  function Consumed(s: Text): nat
    requires s != []
  {
    if StartsPair(s) then 2 else 1
  }

  /** The emitted pieces form a prefix code. */
  lemma ChunkCancel(a: Text, b: Text, x: Text, y: Text)
    requires a != [] && b != [] && Chunk(a) + x == Chunk(b) + y
    ensures Chunk(a) == Chunk(b) && Consumed(a) == Consumed(b) && a[..Consumed(a)] == b[..Consumed(b)] && x == y
  {
    var whole := Chunk(a) + x;
    assert whole[0] == Chunk(a)[0] == Chunk(b)[0];
    assert |Chunk(a)| > 1 ==> whole[1] == Chunk(a)[1];
    assert |Chunk(b)| > 1 ==> whole[1] == Chunk(b)[1];
    if |Chunk(a)| == 6 && |Chunk(b)| == 6 {
      assert whole[2..6] == Chunk(a)[2..6] == Hex(a[0] as nat, 4);
      assert whole[2..6] == Chunk(b)[2..6] == Hex(b[0] as nat, 4);
      assert Power16(4) == 0x10000;
      HexInjective(a[0] as nat, b[0] as nat, 4);
    }
    assert |Chunk(a)| == |Chunk(b)|;
    assert whole[..|Chunk(a)|] == Chunk(a) && whole[..|Chunk(b)|] == Chunk(b);
    assert whole[|Chunk(a)|..] == x && whole[|Chunk(b)|..] == y;
  }

  /** Concatenation associates, stated where the solver should use it and nowhere else. */
  lemma Regroup(a: Text, b: Text, c: Text)
    ensures (a + b) + c == a + (b + c)
  {}

  lemma EscapeStep(s: Text, x: Text)
    requires s != []
    ensures Escape(s) + x == Chunk(s) + (Escape(s[Consumed(s)..]) + x)
  {
    Regroup(Chunk(s), Escape(s[Consumed(s)..]), x);
  }

  /** A printed string starts with a bare quote only where it ends. */
  lemma EscapeHead(s: Text, x: Text)
    ensures (Escape(s) + ([QUOTE] + x))[0] == QUOTE <==> s == []
  {
    if s != [] { assert Escape(s)[0] == Chunk(s)[0] != QUOTE; }
  }

  lemma {:induction false} EscapeCancel(a: Text, b: Text, x: Text, y: Text)
    requires Escape(a) + ([QUOTE] + x) == Escape(b) + ([QUOTE] + y)
    ensures a == b && x == y
  {
    EscapeHead(a, x);
    EscapeHead(b, y);
    if a == [] {
      assert Escape(a) + ([QUOTE] + x) == [QUOTE] + x && Escape(b) + ([QUOTE] + y) == [QUOTE] + y;
      SplitSame([QUOTE], x, y);
    } else {
      var ra, rb := a[Consumed(a)..], b[Consumed(b)..];
      EscapeStep(a, [QUOTE] + x);
      EscapeStep(b, [QUOTE] + y);
      ChunkCancel(a, b, Escape(ra) + ([QUOTE] + x), Escape(rb) + ([QUOTE] + y));
      EscapeCancel(ra, rb, x, y);
      assert a == a[..Consumed(a)] + ra && b == b[..Consumed(b)] + rb;
    }
  }

  lemma QuoteSplit(s: Text, x: Text)
    ensures Quote(s) + x == [QUOTE] + (Escape(s) + ([QUOTE] + x))
  {
    Regroup([QUOTE] + Escape(s), [QUOTE], x);
    Regroup([QUOTE], Escape(s), [QUOTE] + x);
  }

  lemma QuoteCancel(a: Text, b: Text, x: Text, y: Text)
    requires Quote(a) + x == Quote(b) + y
    ensures a == b && x == y
  {
    QuoteSplit(a, x);
    QuoteSplit(b, y);
    SplitSame([QUOTE], Escape(a) + ([QUOTE] + x), Escape(b) + ([QUOTE] + y));
    EscapeCancel(a, b, x, y);
  }

  // ---------- Values are printed injectively ----------

  /** Nothing that may follow a printed value continues a numeral. */
  predicate Stops(x: Text) { x == [] || !IsNumeralUnit(x[0]) }

  function Run(x: Text): nat { if Stops(x) then 0 else 1 + Run(x[1..]) }

  lemma {:induction false} NumeralRun(a: Text, x: Text)
    requires Stops(x) && forall i :: 0 <= i < |a| ==> IsNumeralUnit(a[i])
    ensures Run(a + x) == |a|
  {
    if a == [] { assert a + x == x; }
    else { NumeralRun(a[1..], x); assert (a + x)[1..] == a[1..] + x; }
  }

  lemma NumeralCancel(a: Numeral, b: Numeral, x: Text, y: Text)
    requires a + x == b + y && Stops(x) && Stops(y)
    ensures a == b && x == y
  {
    NumeralRun(a, x);
    NumeralRun(b, y);
    assert (a + x)[..|a|] == a && (b + y)[..|b|] == b;
    SplitSame(a, x, y);
  }

  /** The first printed unit tells the kind of value. */
  function Kind(j: Json): nat {
    match j
    case Null => 0
    case NonFinite => 0
    case Bool(b) => if b then 1 else 2
    case Num(_) => 3
    case Str(_) => 4
    case Arr(_) => 5
    case Obj(_) => 6
  }

  lemma FirstUnit(j: Json)
    ensures |Stringify(j)| > 0
    ensures var u := Stringify(j)[0];
      Kind(j) == (if u == 110 then 0 else if u == 116 then 1 else if u == 102 then 2 else if u == QUOTE then 4
                  else if u == OPEN_ARRAY then 5 else if u == OPEN_OBJECT then 6 else 3)
    ensures !(Stringify(j)[0] in {COMMA, COLON, CLOSE_ARRAY, CLOSE_OBJECT})
  {
    match j
    case Num(numeral) => assert IsNumeralUnit(numeral[0]);
    case _ =>
  }

  /** Printed values can be told apart from what follows them. */
  lemma {:induction false} StringifyCancel(a: Json, b: Json, x: Text, y: Text)
    requires Finite(a) && Finite(b) && Stops(x) && Stops(y)
    requires Stringify(a) + x == Stringify(b) + y
    ensures a == b && x == y
    decreases a, 5
  {
    FirstUnit(a);
    FirstUnit(b);
    assert (Stringify(a) + x)[0] == Stringify(a)[0] == Stringify(b)[0];
    assert Kind(a) == Kind(b);
    match a
    case Num(n) => NumeralCancel(n, b.numeral, x, y);
    case Str(s) => QuoteCancel(s, b.s, x, y);
    case Arr(items) =>
      Regroup([OPEN_ARRAY], StringifyItems(items, true), x);
      Regroup([OPEN_ARRAY], StringifyItems(b.items, true), y);
      SplitSame([OPEN_ARRAY], StringifyItems(items, true) + x, StringifyItems(b.items, true) + y);
      ItemsCancel(items, b.items, true, x, y);
    case Obj(fields) =>
      Regroup([OPEN_OBJECT], StringifyFields(fields, true), x);
      Regroup([OPEN_OBJECT], StringifyFields(b.fields, true), y);
      SplitSame([OPEN_OBJECT], StringifyFields(fields, true) + x, StringifyFields(b.fields, true) + y);
      FieldsCancel(fields, b.fields, true, x, y);
    case _ => SplitSame(Stringify(a), x, y);
  }

  lemma ItemsStep(items: seq<Json>, first: bool, x: Text)
    requires items != []
    ensures StringifyItems(items, first) + x == Lead(first) + (Stringify(items[0]) + (StringifyItems(items[1..], false) + x))
  {
    Regroup(Lead(first) + Stringify(items[0]), StringifyItems(items[1..], false), x);
    Regroup(Lead(first), Stringify(items[0]), StringifyItems(items[1..], false) + x);
  }

  lemma ItemsHead(items: seq<Json>, first: bool, x: Text)
    ensures var text := StringifyItems(items, first) + x;
      |text| > 0 && (text[0] == CLOSE_ARRAY <==> items == []) && (!first ==> text[0] in {COMMA, CLOSE_ARRAY})
  {
    if items != [] {
      FirstUnit(items[0]);
      ItemsStep(items, first, x);
    }
  }

  lemma {:induction false} ItemsCancel(a: seq<Json>, b: seq<Json>, first: bool, x: Text, y: Text)
    requires Finite(Arr(a)) && Finite(Arr(b)) && Stops(x) && Stops(y)
    requires StringifyItems(a, first) + x == StringifyItems(b, first) + y
    ensures a == b && x == y
    decreases a, 3
  {
    ItemsHead(a, first, x);
    ItemsHead(b, first, y);
    if a == [] {
      SplitSame([CLOSE_ARRAY], x, y);
    } else {
      var xs, ys := StringifyItems(a[1..], false) + x, StringifyItems(b[1..], false) + y;
      ItemsHead(a[1..], false, x);
      ItemsHead(b[1..], false, y);
      ItemsStep(a, first, x);
      ItemsStep(b, first, y);
      SplitSame(Lead(first), Stringify(a[0]) + xs, Stringify(b[0]) + ys);
      StringifyCancel(a[0], b[0], xs, ys);
      ItemsCancel(a[1..], b[1..], false, x, y);
      assert a == [a[0]] + a[1..] && b == [b[0]] + b[1..];
    }
  }

  lemma {:induction false} FieldCancel(a: Field, b: Field, x: Text, y: Text)
    requires Finite(a.value) && Finite(b.value) && Stops(x) && Stops(y)
    requires StringifyField(a) + x == StringifyField(b) + y
    ensures a == b && x == y
    decreases a, 6
  {
    FieldStep(a, x);
    FieldStep(b, y);
    QuoteCancel(a.key, b.key, [COLON] + (Stringify(a.value) + x), [COLON] + (Stringify(b.value) + y));
    SplitSame([COLON], Stringify(a.value) + x, Stringify(b.value) + y);
    StringifyCancel(a.value, b.value, x, y);
  }

  lemma FieldStep(f: Field, x: Text)
    ensures StringifyField(f) + x == Quote(f.key) + ([COLON] + (Stringify(f.value) + x))
  {
    Regroup(Quote(f.key) + [COLON], Stringify(f.value), x);
    Regroup(Quote(f.key), [COLON], Stringify(f.value) + x);
  }

  lemma FieldsStep(fields: seq<Field>, first: bool, x: Text)
    requires fields != []
    ensures StringifyFields(fields, first) + x == Lead(first) + (StringifyField(fields[0]) + (StringifyFields(fields[1..], false) + x))
  {
    Regroup(Lead(first) + StringifyField(fields[0]), StringifyFields(fields[1..], false), x);
    Regroup(Lead(first), StringifyField(fields[0]), StringifyFields(fields[1..], false) + x);
  }

  lemma FieldsHead(fields: seq<Field>, first: bool, x: Text)
    ensures var text := StringifyFields(fields, first) + x;
      |text| > 0 && (text[0] == CLOSE_OBJECT <==> fields == []) && (!first ==> text[0] in {COMMA, CLOSE_OBJECT})
  {
    if fields != [] {
      assert StringifyField(fields[0])[0] == QUOTE;
      FieldsStep(fields, first, x);
    }
  }

  lemma {:induction false} FieldsCancel(a: seq<Field>, b: seq<Field>, first: bool, x: Text, y: Text)
    requires Finite(Obj(a)) && Finite(Obj(b)) && Stops(x) && Stops(y)
    requires StringifyFields(a, first) + x == StringifyFields(b, first) + y
    ensures a == b && x == y
    decreases a, 3
  {
    FieldsHead(a, first, x);
    FieldsHead(b, first, y);
    if a == [] {
      SplitSame([CLOSE_OBJECT], x, y);
    } else {
      var xs, ys := StringifyFields(a[1..], false) + x, StringifyFields(b[1..], false) + y;
      FieldsHead(a[1..], false, x);
      FieldsHead(b[1..], false, y);
      FieldsStep(a, first, x);
      FieldsStep(b, first, y);
      SplitSame(Lead(first), StringifyField(a[0]) + xs, StringifyField(b[0]) + ys);
      FieldCancel(a[0], b[0], xs, ys);
      FieldsCancel(a[1..], b[1..], false, x, y);
      assert a == [a[0]] + a[1..] && b == [b[0]] + b[1..];
    }
  }

  /** Printing is injective on finite values. */
  lemma StringifyInjective(a: Json, b: Json)
    requires Finite(a) && Finite(b) && Stringify(a) == Stringify(b)
    ensures a == b
  {
    assert Stringify(a) + [] == Stringify(a) && Stringify(b) + [] == Stringify(b);
    StringifyCancel(a, b, [], []);
  }

  // ---------- Numbers that overflow print as null ----------

  function Plain(j: Json): Json {
    match j
    case NonFinite => Null
    case Arr(items) => Arr(PlainItems(items))
    case Obj(fields) => Obj(PlainFields(fields))
    case _ => j
  }

  function PlainItems(items: seq<Json>): (r: seq<Json>)
    ensures |r| == |items|
  {
    if items == [] then [] else [Plain(items[0])] + PlainItems(items[1..])
  }

  function PlainFields(fields: seq<Field>): (r: seq<Field>)
    ensures |r| == |fields|
  {
    if fields == [] then [] else [Field(fields[0].key, Plain(fields[0].value))] + PlainFields(fields[1..])
  }

  lemma PlainItemsAt(items: seq<Json>, i: nat)
    requires i < |items|
    ensures PlainItems(items)[i] == Plain(items[i])
  {
    if i > 0 { PlainItemsAt(items[1..], i - 1); }
  }

  lemma PlainFieldsAt(fields: seq<Field>, i: nat)
    requires i < |fields|
    ensures PlainFields(fields)[i] == Field(fields[i].key, Plain(fields[i].value))
  {
    if i > 0 { PlainFieldsAt(fields[1..], i - 1); }
  }

  lemma PlainShape(j: Json)
    ensures Finite(Plain(j))
    ensures WellFormed(j) ==> WellFormed(Plain(j))
  {
    match j
    case Arr(items) =>
      forall i | 0 <= i < |items|
        ensures Finite(PlainItems(items)[i]) && (WellFormed(items[i]) ==> WellFormed(PlainItems(items)[i]))
      { PlainItemsAt(items, i); PlainShape(items[i]); }
    case Obj(fields) =>
      forall i | 0 <= i < |fields|
        ensures Finite(PlainFields(fields)[i].value) && (WellFormed(fields[i].value) ==> WellFormed(PlainFields(fields)[i].value))
        ensures PlainFields(fields)[i].key == fields[i].key
      { PlainFieldsAt(fields, i); PlainShape(fields[i].value); }
    case _ =>
  }

  lemma PlainOfFinite(j: Json)
    requires Finite(j)
    ensures Plain(j) == j
  {
    match j
    case Arr(items) =>
      forall i | 0 <= i < |items| ensures PlainItems(items)[i] == items[i] { PlainItemsAt(items, i); PlainOfFinite(items[i]); }
    case Obj(fields) =>
      forall i | 0 <= i < |fields| ensures PlainFields(fields)[i] == fields[i] { PlainFieldsAt(fields, i); PlainOfFinite(fields[i].value); }
    case _ =>
  }

  lemma {:induction false} PlainPrintsAlike(j: Json)
    ensures Stringify(Plain(j)) == Stringify(j)
    decreases j, 1
  {
    match j
    case Arr(items) => PlainItemsPrintAlike(items, true);
    case Obj(fields) => PlainFieldsPrintAlike(fields, true);
    case _ =>
  }

  lemma {:induction false} PlainItemsPrintAlike(items: seq<Json>, first: bool)
    ensures StringifyItems(PlainItems(items), first) == StringifyItems(items, first)
    decreases items, 0
  {
    if items != [] {
      PlainPrintsAlike(items[0]);
      PlainItemsPrintAlike(items[1..], false);
      assert PlainItems(items)[1..] == PlainItems(items[1..]);
    }
  }

  lemma {:induction false} PlainFieldsPrintAlike(fields: seq<Field>, first: bool)
    ensures StringifyFields(PlainFields(fields), first) == StringifyFields(fields, first)
    decreases fields, 0
  {
    if fields != [] {
      PlainPrintsAlike(fields[0].value);
      PlainFieldsPrintAlike(fields[1..], false);
      assert PlainFields(fields)[1..] == PlainFields(fields[1..]);
    }
  }

  lemma {:induction false} PlainCommutes(j: Json)
    requires WellFormed(j)
    ensures Plain(Canonicalize(j)) == Canonicalize(Plain(j))
  {
    match j
    case Arr(items) =>
      forall i | 0 <= i < |items| ensures PlainItems(CanonicalItems(items))[i] == CanonicalItems(PlainItems(items))[i] {
        CanonicalItemsAt(items, i);
        PlainItemsAt(items, i);
        PlainItemsAt(CanonicalItems(items), i);
        CanonicalItemsAt(PlainItems(items), i);
        PlainCommutes(items[i]);
      }
    case Obj(fields) =>
      forall i | 0 <= i < |fields| ensures Plain(Canonicalize(fields[i].value)) == Canonicalize(Plain(fields[i].value)) {
        PlainCommutes(fields[i].value);
      }
      PlainCommutesOnObject(fields);
    case _ =>
  }

  lemma PlainCommutesOnObject(fields: seq<Field>)
    requires DistinctKeys(fields)
    requires forall i :: 0 <= i < |fields| ==> Plain(Canonicalize(fields[i].value)) == Canonicalize(Plain(fields[i].value))
    ensures Plain(Canonicalize(Obj(fields))) == Canonicalize(Plain(Obj(fields)))
  {
    var c, plain := Canonicalize(Obj(fields)).fields, PlainFields(fields);
    var left, right := PlainFields(c), Canonicalize(Obj(plain)).fields;
    forall i | 0 <= i < |fields| { PlainFieldsAt(fields, i); }
    CanonicalLength(fields);
    CanonicalLength(plain);
    forall i | 0 <= i < |c| { PlainFieldsAt(c, i); }
    OrderedIsDistinct(left);
    OrderedIsDistinct(right);
    forall e | e in left ensures e in right {
      var k :| 0 <= k < |c| && left[k] == e;
      assert c[k] in c;
      CanonicalMember(fields, c[k]);
      var i :| 0 <= i < |fields| && c[k] == Field(fields[i].key, Canonicalize(fields[i].value));
      assert e == Field(plain[i].key, Canonicalize(plain[i].value));
      CanonicalMember(plain, e);
    }
    CoveredListing(left, right);
    OrderedListingUnique(left, right);
  }

  // ---------- Main results ----------

  /** Two requests get the same canonical text exactly when they are equal up to object
      key order, a number that overflowed counting as null. */
  lemma CanonicalTextDecides(a: Json, b: Json)
    requires WellFormed(a) && WellFormed(b)
    ensures CanonicalTextOf(a) == CanonicalTextOf(b) <==> Same(Plain(a), Plain(b))
  {
    var pa, pb := Plain(a), Plain(b);
    PlainShape(a);
    PlainShape(b);
    PlainShape(Canonicalize(a));
    PlainShape(Canonicalize(b));
    PlainCommutes(a);
    PlainCommutes(b);
    PlainPrintsAlike(Canonicalize(a));
    PlainPrintsAlike(Canonicalize(b));
    if CanonicalTextOf(a) == CanonicalTextOf(b) { StringifyInjective(Canonicalize(pa), Canonicalize(pb)); }
    CanonicalDecidesEquality(pa, pb);
  }

  /** On values without overflowed numbers the text decides equality outright. */
  lemma CanonicalTextExact(a: Json, b: Json)
    requires WellFormed(a) && WellFormed(b) && Finite(a) && Finite(b)
    ensures CanonicalTextOf(a) == CanonicalTextOf(b) <==> Same(a, b)
  {
    CanonicalTextDecides(a, b);
    PlainOfFinite(a);
    PlainOfFinite(b);
  }

  /** Without that restriction it does not: [1e999] and [null] share their text. */
  lemma OverflowCollides()
    ensures var a, b := Arr([NonFinite]), Arr([Null]);
      WellFormed(a) && WellFormed(b) && CanonicalTextOf(a) == CanonicalTextOf(b) && !Same(a, b)
  {
    var a, b := Arr([NonFinite]), Arr([Null]);
    assert !Same(a.items[0], b.items[0]);
    PlainItemsAt(a.items, 0);
    PlainItemsAt(b.items, 0);
    assert PlainItems(a.items) == PlainItems(b.items) == [Null];
    CanonicalTextDecides(a, b);
  }

  /** UTF-16 text without lone surrogates: encoding it as UTF-8 loses nothing. */
  predicate Encodable(s: Text) {
    if s == [] then true
    else if StartsPair(s) then Encodable(s[2..])
    else !IsHigh(s[0]) && !IsLow(s[0]) && Encodable(s[1..])
  }

  lemma EncodableConcat(a: Text, b: Text)
    requires Encodable(a) && Encodable(b)
    ensures Encodable(a + b)
  {
    if a == [] { assert a + b == b; }
    else if StartsPair(a) { EncodableConcat(a[2..], b); assert (a + b)[2..] == a[2..] + b; }
    else { EncodableConcat(a[1..], b); assert (a + b)[1..] == a[1..] + b; }
  }

  lemma PlainUnitsEncodable(s: Text)
    requires forall i :: 0 <= i < |s| ==> !IsHigh(s[i]) && !IsLow(s[i])
    ensures Encodable(s)
  {}

  lemma HexIsAscii(n: nat, width: nat)
    ensures forall i :: 0 <= i < width ==> Hex(n, width)[i] < 128
  {}

  lemma EscapedUnitPlain(u: CodeUnit)
    ensures forall i :: 0 <= i < |EscapeUnit(u)| ==> !IsHigh(EscapeUnit(u)[i]) && !IsLow(EscapeUnit(u)[i])
  {
    HexIsAscii(u as nat, 4);
  }

  lemma EscapeEncodable(s: Text)
    ensures Encodable(Quote(s))
  {
    EscapeBodyEncodable(s);
    PlainUnitsEncodable([QUOTE]);
    EncodableConcat([QUOTE], Escape(s));
    EncodableConcat([QUOTE] + Escape(s), [QUOTE]);
  }

  lemma {:induction false} EscapeBodyEncodable(s: Text)
    ensures Encodable(Escape(s))
  {
    if s != [] {
      EscapeBodyEncodable(s[Consumed(s)..]);
      if StartsPair(s) { assert s[..2][2..] == []; } else { EscapedUnitPlain(s[0]); PlainUnitsEncodable(EscapeUnit(s[0])); }
      EncodableConcat(Chunk(s), Escape(s[Consumed(s)..]));
    }
  }

  lemma {:induction false} StringifyEncodable(j: Json)
    ensures Encodable(Stringify(j))
    decreases j, 1
  {
    match j
    case Str(s) => EscapeEncodable(s);
    case Arr(items) =>
      PlainUnitsEncodable([OPEN_ARRAY]);
      ItemsEncodable(items, true);
      EncodableConcat([OPEN_ARRAY], StringifyItems(items, true));
    case Obj(fields) =>
      PlainUnitsEncodable([OPEN_OBJECT]);
      FieldsEncodable(fields, true);
      EncodableConcat([OPEN_OBJECT], StringifyFields(fields, true));
    case _ => PlainUnitsEncodable(Stringify(j));
  }

  lemma {:induction false} ItemsEncodable(items: seq<Json>, first: bool)
    ensures Encodable(StringifyItems(items, first))
    decreases items, 0
  {
    PlainUnitsEncodable([CLOSE_ARRAY]);
    PlainUnitsEncodable(Lead(first));
    if items != [] {
      StringifyEncodable(items[0]);
      ItemsEncodable(items[1..], false);
      EncodableConcat(Lead(first), Stringify(items[0]));
      EncodableConcat(Lead(first) + Stringify(items[0]), StringifyItems(items[1..], false));
    }
  }

  lemma {:induction false} FieldEncodable(f: Field)
    ensures Encodable(StringifyField(f))
    decreases f, 2
  {
    EscapeEncodable(f.key);
    PlainUnitsEncodable([COLON]);
    StringifyEncodable(f.value);
    EncodableConcat(Quote(f.key), [COLON]);
    EncodableConcat(Quote(f.key) + [COLON], Stringify(f.value));
  }

  lemma {:induction false} FieldsEncodable(fields: seq<Field>, first: bool)
    ensures Encodable(StringifyFields(fields, first))
    decreases fields, 0
  {
    PlainUnitsEncodable([CLOSE_OBJECT]);
    PlainUnitsEncodable(Lead(first));
    if fields != [] {
      FieldEncodable(fields[0]);
      FieldsEncodable(fields[1..], false);
      EncodableConcat(Lead(first), StringifyField(fields[0]));
      EncodableConcat(Lead(first) + StringifyField(fields[0]), StringifyFields(fields[1..], false));
    }
  }
}
