/** Canonical request text (src/server.mjs, `canonicalize` and `canonicalJsonHash`).

    A request is identified by the hash of the JSON text of its canonical form. This
    module proves that the text decides JSON equality up to the order of object keys. */
module CanonicalJson {

  // ---------- Values ----------

  /** JavaScript strings are sequences of UTF-16 code units, lone surrogates included. */
  type CodeUnit = u: int | 0 <= u < 0x10000
  type Text = seq<CodeUnit>

  /** A literal written in ASCII. */
  function Units(s: string): Text
    requires forall i :: 0 <= i < |s| ==> s[i] < 128 as char
  {
    seq(|s|, i requires 0 <= i < |s| => s[i] as int)
  }

  predicate IsDigit(u: CodeUnit) { 48 <= u <= 57 }

  /** The units a printed finite number can contain: digits, `+`, `-`, `.` and `e`. */
  predicate IsNumeralUnit(u: CodeUnit) { IsDigit(u) || u == 43 || u == 45 || u == 46 || u == 101 }

  type Numeral = t: Text | |t| > 0 && forall i :: 0 <= i < |t| ==> IsNumeralUnit(t[i])
    witness [48]

  /** A number is the token it prints as; `NonFinite` is what an overflowing literal
      such as 1e999 parses to, and it prints as `null`. */
  datatype Json =
    | Null
    | Bool(b: bool)
    | Num(numeral: Numeral)
    | NonFinite
    | Str(s: Text)
    | Arr(items: seq<Json>)
    | Obj(fields: seq<Field>)

  datatype Field = Field(key: Text, value: Json)

  predicate DistinctKeys(fields: seq<Field>) {
    forall i, j :: 0 <= i < j < |fields| ==> fields[i].key != fields[j].key
  }

  /** Every object has pairwise distinct keys, as a parsed JSON value always does. */
  predicate WellFormed(j: Json) {
    match j
    case Arr(items) => forall i :: 0 <= i < |items| ==> WellFormed(items[i])
    case Obj(fields) => DistinctKeys(fields) && forall i :: 0 <= i < |fields| ==> WellFormed(fields[i].value)
    case _ => true
  }

  predicate Finite(j: Json) {
    match j
    case NonFinite => false
    case Arr(items) => forall i :: 0 <= i < |items| ==> Finite(items[i])
    case Obj(fields) => forall i :: 0 <= i < |fields| ==> Finite(fields[i].value)
    case _ => true
  }

  /** JSON equality up to the order of object keys. */
  ghost predicate Same(a: Json, b: Json) {
    match (a, b)
    case (Arr(x), Arr(y)) => |x| == |y| && forall i :: 0 <= i < |x| ==> Same(x[i], y[i])
    case (Obj(f), Obj(g)) =>
      && |f| == |g|
      && forall i :: 0 <= i < |f| ==>
          exists k :: 0 <= k < |g| && g[k].key == f[i].key && Same(f[i].value, g[k].value)
    case _ => a == b
  }

  // ---------- Key order ----------

  /** The default array sort compares strings by code unit. */
  predicate UnitLess(a: Text, b: Text) {
    if b == [] then false
    else if a == [] then true
    else if a[0] != b[0] then a[0] < b[0]
    else UnitLess(a[1..], b[1..])
  }

  function IndexValue(key: Text): nat
    requires forall i :: 0 <= i < |key| ==> IsDigit(key[i])
  {
    if key == [] then 0
    else
      assert IsDigit(key[|key| - 1]);
      10 * IndexValue(key[..|key| - 1]) + (key[|key| - 1] as int - 48)
  }

  /** Canonical decimal strings below 2^32 - 1: the keys JavaScript objects enumerate first. */
  predicate IsArrayIndex(key: Text) {
    && 0 < |key| <= 10
    && (forall i :: 0 <= i < |key| ==> IsDigit(key[i]))
    && (|key| > 1 ==> key[0] != 48)
    && IndexValue(key) < 0xFFFF_FFFF
  }

  /** Own-property order of an object whose other keys were added in code-unit order. */
  predicate PropertyLess(a: Text, b: Text) {
    if IsArrayIndex(a) then !IsArrayIndex(b) || IndexValue(a) < IndexValue(b)
    else !IsArrayIndex(b) && UnitLess(a, b)
  }

  function InsertByUnits(f: Field, sorted: seq<Field>): seq<Field> {
    if sorted == [] || UnitLess(f.key, sorted[0].key) then [f] + sorted
    else [sorted[0]] + InsertByUnits(f, sorted[1..])
  }

  function SortByUnits(fields: seq<Field>): seq<Field> {
    if fields == [] then [] else InsertByUnits(fields[0], SortByUnits(fields[1..]))
  }

  /** Adding a new own property: an array index goes to its numeric place among the
      indices at the front, any other key goes to the end. */
  function DefineProperty(props: seq<Field>, f: Field): seq<Field> {
    if props == [] then [f]
    else if IsArrayIndex(f.key) && (!IsArrayIndex(props[0].key) || IndexValue(f.key) < IndexValue(props[0].key)) then
      [f] + props
    else [props[0]] + DefineProperty(props[1..], f)
  }

  function FromEntries(entries: seq<Field>): seq<Field> {
    if entries == [] then []
    else DefineProperty(FromEntries(entries[..|entries| - 1]), entries[|entries| - 1])
  }

  function Canonicalize(j: Json): Json {
    match j
    case Arr(items) => Arr(CanonicalItems(items))
    case Obj(fields) => Obj(FromEntries(SortByUnits(CanonicalFields(fields))))
    case _ => j
  }

  function CanonicalItems(items: seq<Json>): (r: seq<Json>)
    ensures |r| == |items|
  {
    if items == [] then [] else [Canonicalize(items[0])] + CanonicalItems(items[1..])
  }

  function CanonicalFields(fields: seq<Field>): (r: seq<Field>)
    ensures |r| == |fields|
  {
    if fields == [] then []
    else [Field(fields[0].key, Canonicalize(fields[0].value))] + CanonicalFields(fields[1..])
  }

  lemma CanonicalItemsAt(items: seq<Json>, i: nat)
    requires i < |items|
    ensures CanonicalItems(items)[i] == Canonicalize(items[i])
  {
    if i > 0 { CanonicalItemsAt(items[1..], i - 1); }
  }

  lemma CanonicalFieldsAt(fields: seq<Field>, i: nat)
    requires i < |fields|
    ensures CanonicalFields(fields)[i] == Field(fields[i].key, Canonicalize(fields[i].value))
  {
    if i > 0 { CanonicalFieldsAt(fields[1..], i - 1); }
  }

  // ---------- The order on keys is total, so a key set has one ordered listing ----------

  lemma UnitTrichotomy(a: Text, b: Text)
    ensures a == b || UnitLess(a, b) || UnitLess(b, a)
    ensures !(UnitLess(a, b) && UnitLess(b, a)) && !UnitLess(a, a)
  {
    if a != [] && b != [] && a[0] == b[0] {
      UnitTrichotomy(a[1..], b[1..]);
      assert a == [a[0]] + a[1..] && b == [b[0]] + b[1..];
    }
    if a != [] { UnitTrichotomy(a[1..], a[1..]); }
  }

  lemma UnitTransitive(a: Text, b: Text, c: Text)
    requires UnitLess(a, b) && UnitLess(b, c)
    ensures UnitLess(a, c)
  {
    if a != [] && a[0] == b[0] == c[0] { UnitTransitive(a[1..], b[1..], c[1..]); }
  }

  lemma IndexAtLeastTen(key: Text)
    requires |key| > 1 && key[0] != 48 && forall i :: 0 <= i < |key| ==> IsDigit(key[i])
    ensures IndexValue(key) >= 10
  {
    var front := key[..|key| - 1];
    if |front| == 1 { assert front[..0] == []; assert IndexValue(front) == front[0] - 48; }
    else { IndexAtLeastTen(front); }
  }

  lemma IndexInjective(a: Text, b: Text)
    requires IsArrayIndex(a) && IsArrayIndex(b) && IndexValue(a) == IndexValue(b)
    ensures a == b
  {
    DigitsInjective(a, b);
  }

  lemma DigitsInjective(a: Text, b: Text)
    requires 0 < |a| && 0 < |b| && (|a| > 1 ==> a[0] != 48) && (|b| > 1 ==> b[0] != 48)
    requires forall i :: 0 <= i < |a| ==> IsDigit(a[i])
    requires forall i :: 0 <= i < |b| ==> IsDigit(b[i])
    requires IndexValue(a) == IndexValue(b)
    ensures a == b
  {
    var a', b' := a[..|a| - 1], b[..|b| - 1];
    if |a| > 1 { IndexAtLeastTen(a); }
    if |b| > 1 { IndexAtLeastTen(b); }
    assert IndexValue(a') == IndexValue(b') && a[|a| - 1] == b[|b| - 1];
    assert |a| == 1 ==> IndexValue(a) < 10;
    assert |b| == 1 ==> IndexValue(b) < 10;
    if |a| > 1 { DigitsInjective(a', b'); }
    assert a == a' + [a[|a| - 1]] && b == b' + [b[|b| - 1]];
  }

  lemma PropertyTrichotomy(a: Text, b: Text)
    ensures a == b || PropertyLess(a, b) || PropertyLess(b, a)
    ensures !(PropertyLess(a, b) && PropertyLess(b, a)) && !PropertyLess(a, a)
  {
    UnitTrichotomy(a, b);
    UnitTrichotomy(a, a);
    if IsArrayIndex(a) && IsArrayIndex(b) && IndexValue(a) == IndexValue(b) { IndexInjective(a, b); }
  }

  lemma PropertyTransitive(a: Text, b: Text, c: Text)
    requires PropertyLess(a, b) && PropertyLess(b, c)
    ensures PropertyLess(a, c)
  {
    if UnitLess(a, b) && UnitLess(b, c) { UnitTransitive(a, b, c); }
  }

  predicate UnitSorted(fields: seq<Field>) {
    forall i, j :: 0 <= i < j < |fields| ==> UnitLess(fields[i].key, fields[j].key)
  }

  predicate PropertySorted(fields: seq<Field>) {
    forall i, j :: 0 <= i < j < |fields| ==> PropertyLess(fields[i].key, fields[j].key)
  }

  predicate SameMembers(a: seq<Field>, b: seq<Field>) { multiset(a) == multiset(b) }

  lemma InsertByUnitsSorts(f: Field, sorted: seq<Field>)
    requires UnitSorted(sorted) && forall i :: 0 <= i < |sorted| ==> sorted[i].key != f.key
    ensures UnitSorted(InsertByUnits(f, sorted))
    ensures multiset(InsertByUnits(f, sorted)) == multiset{f} + multiset(sorted)
  {
    if sorted == [] {
    } else if UnitLess(f.key, sorted[0].key) {
      forall i | 1 <= i < |sorted| ensures UnitLess(f.key, sorted[i].key) {
        UnitTransitive(f.key, sorted[0].key, sorted[i].key);
      }
    } else {
      UnitTrichotomy(f.key, sorted[0].key);
      InsertByUnitsSorts(f, sorted[1..]);
      var rest := InsertByUnits(f, sorted[1..]);
      assert sorted == [sorted[0]] + sorted[1..];
      forall i | 0 <= i < |rest| ensures UnitLess(sorted[0].key, rest[i].key) {
        assert rest[i] in multiset(rest);
        assert rest[i] == f || rest[i] in sorted[1..];
      }
    }
  }

  lemma SortByUnitsSorts(fields: seq<Field>)
    requires DistinctKeys(fields)
    ensures UnitSorted(SortByUnits(fields)) && SameMembers(SortByUnits(fields), fields)
  {
    if fields != [] {
      SortByUnitsSorts(fields[1..]);
      var sorted := SortByUnits(fields[1..]);
      assert fields == [fields[0]] + fields[1..];
      forall i | 0 <= i < |sorted| ensures sorted[i].key != fields[0].key {
        assert sorted[i] in multiset(sorted);
        assert sorted[i] in fields[1..];
      }
      InsertByUnitsSorts(fields[0], sorted);
    }
  }

  /** The key is new, and if neither is an index it comes later. */
  predicate ComesLater(p: Field, f: Field) {
    p.key != f.key && (!IsArrayIndex(p.key) && !IsArrayIndex(f.key) ==> UnitLess(p.key, f.key))
  }

  predicate AllComeBefore(props: seq<Field>, f: Field) { forall p :: p in props ==> ComesLater(p, f) }

  /** A later key in code-unit order lands at its place in property order. */
  lemma DefinePropertyOrders(props: seq<Field>, f: Field)
    requires PropertySorted(props) && AllComeBefore(props, f)
    ensures PropertySorted(DefineProperty(props, f))
    ensures multiset(DefineProperty(props, f)) == multiset(props) + multiset{f}
  {
    if props == [] {
    } else if IsArrayIndex(f.key) && (!IsArrayIndex(props[0].key) || IndexValue(f.key) < IndexValue(props[0].key)) {
      GoesFirst(props, f);
    } else {
      assert forall p :: p in props[1..] ==> p in props;
      DefinePropertyOrders(props[1..], f);
      assert ComesLater(props[0], f);
      PropertyTrichotomy(props[0].key, f.key);
      FirstStaysFirst(props, f, DefineProperty(props[1..], f));
    }
  }

  lemma GoesFirst(props: seq<Field>, f: Field)
    requires props != [] && PropertySorted(props) && PropertyLess(f.key, props[0].key)
    ensures PropertySorted([f] + props) && multiset([f] + props) == multiset(props) + multiset{f}
  {
    forall i | 1 <= i < |props| ensures PropertyLess(f.key, props[i].key) {
      PropertyTransitive(f.key, props[0].key, props[i].key);
    }
  }

  lemma FirstStaysFirst(props: seq<Field>, f: Field, rest: seq<Field>)
    requires props != [] && PropertySorted(props) && PropertyLess(props[0].key, f.key)
    requires PropertySorted(rest) && multiset(rest) == multiset(props[1..]) + multiset{f}
    ensures PropertySorted([props[0]] + rest) && multiset([props[0]] + rest) == multiset(props) + multiset{f}
  {
    assert props == [props[0]] + props[1..];
    forall i | 0 <= i < |rest| ensures PropertyLess(props[0].key, rest[i].key) {
      assert rest[i] in multiset(rest);
      assert rest[i] == f || rest[i] in props[1..];
    }
  }

  lemma FromEntriesOrders(entries: seq<Field>)
    requires UnitSorted(entries)
    ensures PropertySorted(FromEntries(entries)) && SameMembers(FromEntries(entries), entries)
  {
    if entries != [] {
      var front, f := entries[..|entries| - 1], entries[|entries| - 1];
      assert entries == front + [f];
      FromEntriesOrders(front);
      var props := FromEntries(front);
      forall i | 0 <= i < |props| ensures UnitLess(props[i].key, f.key) && props[i].key != f.key {
        assert props[i] in multiset(props);
        assert props[i] in front;
        UnitTrichotomy(f.key, f.key);
      }
      assert forall p :: p in props ==> ComesLater(p, f);
      DefinePropertyOrders(props, f);
    }
  }

  lemma CanonicalObjectOrdered(fields: seq<Field>)
    requires DistinctKeys(fields)
    ensures PropertySorted(FromEntries(SortByUnits(fields))) && SameMembers(FromEntries(SortByUnits(fields)), fields)
  {
    SortByUnitsSorts(fields);
    FromEntriesOrders(SortByUnits(fields));
  }

  lemma {:induction false} OrderedListingUnique(a: seq<Field>, b: seq<Field>)
    requires PropertySorted(a) && PropertySorted(b) && |a| == |b|
    requires forall f :: f in a <==> f in b
    ensures a == b
  {
    if a != [] {
      assert a[0] in b;
      if a[0] != b[0] {
        assert b[0] in a;
        var i :| 0 <= i < |b| && b[i] == a[0];
        var k :| 0 <= k < |a| && a[k] == b[0];
        PropertyTrichotomy(a[0].key, b[0].key);
        assert false;
      }
      PropertyTrichotomy(a[0].key, a[0].key);
      forall f ensures f in a[1..] <==> f in b[1..] {
        assert f in a[1..] ==> f in a && f != a[0];
        assert f in b[1..] ==> f in b && f != b[0];
        assert a == [a[0]] + a[1..] && b == [b[0]] + b[1..];
      }
      OrderedListingUnique(a[1..], b[1..]);
      assert a == [a[0]] + a[1..] && b == [b[0]] + b[1..];
    }
  }

  // ---------- Canonicalisation decides equality ----------

  lemma KeysCanonical(fields: seq<Field>)
    requires DistinctKeys(fields)
    ensures DistinctKeys(CanonicalFields(fields))
  {
    forall i | 0 <= i < |fields| { CanonicalFieldsAt(fields, i); }
  }

  /** What an object's canonical fields are, without mentioning any sort. */
  lemma CanonicalMember(fields: seq<Field>, f: Field)
    requires DistinctKeys(fields)
    ensures f in Canonicalize(Obj(fields)).fields <==>
            exists i :: 0 <= i < |fields| && f == Field(fields[i].key, Canonicalize(fields[i].value))
  {
    var mapped := CanonicalFields(fields);
    KeysCanonical(fields);
    CanonicalObjectOrdered(mapped);
    var ordered := FromEntries(SortByUnits(mapped));
    assert f in ordered <==> f in multiset(ordered);
    assert f in mapped <==> f in multiset(mapped);
    forall i | 0 <= i < |fields| { CanonicalFieldsAt(fields, i); }
  }

  lemma CanonicalLength(fields: seq<Field>)
    requires DistinctKeys(fields)
    ensures |Canonicalize(Obj(fields)).fields| == |fields|
    ensures PropertySorted(Canonicalize(Obj(fields)).fields)
  {
    KeysCanonical(fields);
    CanonicalObjectOrdered(CanonicalFields(fields));
    assert |multiset(Canonicalize(Obj(fields)).fields)| == |multiset(CanonicalFields(fields))|;
  }

  lemma OrderedIsDistinct(fields: seq<Field>)
    requires PropertySorted(fields)
    ensures DistinctKeys(fields)
  {
    forall i, k | 0 <= i < k < |fields| ensures fields[i].key != fields[k].key {
      PropertyTrichotomy(fields[i].key, fields[k].key);
      PropertyTrichotomy(fields[k].key, fields[k].key);
    }
  }

  ghost function KeySet(fields: seq<Field>): set<Text> { set i | 0 <= i < |fields| :: fields[i].key }

  lemma {:induction false} KeySetSize(fields: seq<Field>)
    requires DistinctKeys(fields)
    ensures |KeySet(fields)| == |fields|
  {
    if fields != [] {
      var n := |fields| - 1;
      KeySetSize(fields[..n]);
      assert KeySet(fields) == KeySet(fields[..n]) + {fields[n].key};
    }
  }

  ghost function Members(fields: seq<Field>): set<Field> { set f | f in fields }

  lemma {:induction false} MembersSize(fields: seq<Field>)
    requires DistinctKeys(fields)
    ensures |Members(fields)| == |fields|
  {
    if fields != [] {
      var n := |fields| - 1;
      MembersSize(fields[..n]);
      assert fields == fields[..n] + [fields[n]];
      assert Members(fields) == Members(fields[..n]) + {fields[n]};
    }
  }

  /** A listing covered by another one of the same length has the same members. */
  lemma CoveredListing(a: seq<Field>, b: seq<Field>)
    requires DistinctKeys(a) && DistinctKeys(b) && |a| == |b|
    requires forall f :: f in a ==> f in b
    ensures forall f :: f in a <==> f in b
  {
    MembersSize(a);
    MembersSize(b);
    assert Members(a) <= Members(b);
    assert Members(b) == Members(a) + (Members(b) - Members(a));
    forall f | f in b ensures f in a {
      assert f in Members(b);
    }
  }

  lemma CanonicalKeepsWellFormed(j: Json)
    requires WellFormed(j)
    ensures WellFormed(Canonicalize(j))
  {
    match j
    case Arr(items) =>
      forall i | 0 <= i < |items| ensures WellFormed(CanonicalItems(items)[i]) {
        CanonicalItemsAt(items, i);
        CanonicalKeepsWellFormed(items[i]);
      }
    case Obj(fields) =>
      var ordered := Canonicalize(j).fields;
      CanonicalLength(fields);
      OrderedIsDistinct(ordered);
      forall k | 0 <= k < |ordered| ensures WellFormed(ordered[k].value) {
        CanonicalMember(fields, ordered[k]);
        var i :| 0 <= i < |fields| && ordered[k] == Field(fields[i].key, Canonicalize(fields[i].value));
        CanonicalKeepsWellFormed(fields[i].value);
      }
    case _ =>
  }

  lemma {:induction false} SameMeansEqualCanonical(a: Json, b: Json)
    requires WellFormed(a) && WellFormed(b) && Same(a, b)
    ensures Canonicalize(a) == Canonicalize(b)
    decreases a, 3
  {
    match (a, b)
    case (Arr(x), Arr(y)) =>
      forall i | 0 <= i < |x| ensures CanonicalItems(x)[i] == CanonicalItems(y)[i] {
        CanonicalItemsAt(x, i);
        CanonicalItemsAt(y, i);
        SameMeansEqualCanonical(x[i], y[i]);
      }
    case (Obj(f), Obj(g)) =>
      SameObjectsCanonical(f, g);
    case _ =>
  }

  lemma {:induction false} SameFieldCanonical(f: seq<Field>, g: seq<Field>, i: nat)
    requires i < |f| && WellFormed(Obj(f)) && WellFormed(Obj(g)) && Same(Obj(f), Obj(g))
    ensures Field(f[i].key, Canonicalize(f[i].value)) in Canonicalize(Obj(g)).fields
    decreases f[i].value, 4
  {
    var k :| 0 <= k < |g| && g[k].key == f[i].key && Same(f[i].value, g[k].value);
    SameMeansEqualCanonical(f[i].value, g[k].value);
    CanonicalMember(g, Field(f[i].key, Canonicalize(f[i].value)));
  }

  lemma {:induction false} SameObjectsCanonical(f: seq<Field>, g: seq<Field>)
    requires WellFormed(Obj(f)) && WellFormed(Obj(g)) && Same(Obj(f), Obj(g))
    ensures Canonicalize(Obj(f)) == Canonicalize(Obj(g))
    decreases f, 2
  {
    var cf, cg := Canonicalize(Obj(f)).fields, Canonicalize(Obj(g)).fields;
    CanonicalLength(f);
    CanonicalLength(g);
    OrderedIsDistinct(cf);
    OrderedIsDistinct(cg);
    forall i | 0 <= i < |f| ensures Field(f[i].key, Canonicalize(f[i].value)) in cg {
      SameFieldCanonical(f, g, i);
    }
    forall e | e in cf ensures e in cg { CanonicalMember(f, e); }
    CoveredListing(cf, cg);
    OrderedListingUnique(cf, cg);
  }

  lemma {:induction false} EqualCanonicalMeansSame(a: Json, b: Json)
    requires WellFormed(a) && WellFormed(b) && Canonicalize(a) == Canonicalize(b)
    ensures Same(a, b)
  {
    match (a, b)
    case (Arr(x), Arr(y)) =>
      assert |CanonicalItems(x)| == |CanonicalItems(y)|;
      forall i | 0 <= i < |x| ensures Same(x[i], y[i]) {
        CanonicalItemsAt(x, i);
        CanonicalItemsAt(y, i);
        EqualCanonicalMeansSame(x[i], y[i]);
      }
    case (Obj(f), Obj(g)) =>
      CanonicalLength(f);
      CanonicalLength(g);
      forall i | 0 <= i < |f|
        ensures exists k :: 0 <= k < |g| && g[k].key == f[i].key && Same(f[i].value, g[k].value)
      {
        var e := Field(f[i].key, Canonicalize(f[i].value));
        CanonicalMember(f, e);
        CanonicalMember(g, e);
        var k :| 0 <= k < |g| && e == Field(g[k].key, Canonicalize(g[k].value));
        EqualCanonicalMeansSame(f[i].value, g[k].value);
      }
    case _ =>
  }

  /** Two well-formed values have the same canonical form exactly when they are equal
      up to the order of object keys. */
  lemma CanonicalDecidesEquality(a: Json, b: Json)
    requires WellFormed(a) && WellFormed(b)
    ensures Canonicalize(a) == Canonicalize(b) <==> Same(a, b)
  {
    if Same(a, b) { SameMeansEqualCanonical(a, b); }
    if Canonicalize(a) == Canonicalize(b) { EqualCanonicalMeansSame(a, b); }
  }

  lemma SameAsCanonical(j: Json)
    requires WellFormed(j)
    ensures Same(Canonicalize(j), j)
  {
    match j
    case Arr(items) =>
      forall i | 0 <= i < |items| ensures Same(CanonicalItems(items)[i], items[i]) {
        CanonicalItemsAt(items, i);
        SameAsCanonical(items[i]);
      }
    case Obj(fields) =>
      var ordered := Canonicalize(j).fields;
      CanonicalLength(fields);
      forall k | 0 <= k < |ordered|
        ensures exists i :: 0 <= i < |fields| && fields[i].key == ordered[k].key && Same(ordered[k].value, fields[i].value)
      {
        CanonicalMember(fields, ordered[k]);
        var i :| 0 <= i < |fields| && ordered[k] == Field(fields[i].key, Canonicalize(fields[i].value));
        SameAsCanonical(fields[i].value);
      }
    case _ =>
  }

  /** Canonicalisation is idempotent. */
  lemma CanonicalIdempotent(j: Json)
    requires WellFormed(j)
    ensures Canonicalize(Canonicalize(j)) == Canonicalize(j)
  {
    CanonicalKeepsWellFormed(j);
    SameAsCanonical(j);
    CanonicalDecidesEquality(Canonicalize(j), j);
  }

  /** The order in which a canonical object lists its keys depends on its key set alone. */
  lemma KeyOrderIsAFunctionOfTheKeySet(f: seq<Field>, g: seq<Field>, i: nat)
    requires DistinctKeys(f) && DistinctKeys(g) && KeySet(f) == KeySet(g) && i < |f|
    ensures |f| == |g| && |Canonicalize(Obj(f)).fields| == |Canonicalize(Obj(g)).fields| == |f|
    ensures Canonicalize(Obj(f)).fields[i].key == Canonicalize(Obj(g)).fields[i].key
  {
    KeySetSize(f);
    KeySetSize(g);
    CanonicalLength(f);
    CanonicalLength(g);
    var cf, cg := KeysOnly(Canonicalize(Obj(f)).fields), KeysOnly(Canonicalize(Obj(g)).fields);
    forall e ensures e in cf <==> e in cg {
      KeyPreserved(f, e);
      KeyPreserved(g, e);
    }
    OrderedListingUnique(cf, cg);
    assert cf[i] == cg[i];
  }

  ghost function KeysOnly(fields: seq<Field>): (r: seq<Field>) {
    seq(|fields|, i requires 0 <= i < |fields| => Field(fields[i].key, Null))
  }

  lemma KeyPreserved(f: seq<Field>, e: Field)
    requires DistinctKeys(f)
    ensures e in KeysOnly(Canonicalize(Obj(f)).fields) <==> e.key in KeySet(f) && e.value == Null
  {
    var c := Canonicalize(Obj(f)).fields;
    if e in KeysOnly(c) {
      var k :| 0 <= k < |c| && KeysOnly(c)[k] == e;
      CanonicalMember(f, c[k]);
    }
    if e.key in KeySet(f) && e.value == Null {
      var i :| 0 <= i < |f| && f[i].key == e.key;
      var member := Field(f[i].key, Canonicalize(f[i].value));
      CanonicalMember(f, member);
      assert member in c;
      var k :| 0 <= k < |c| && c[k] == member;
      assert KeysOnly(c)[k] == e;
    }
  }
}
