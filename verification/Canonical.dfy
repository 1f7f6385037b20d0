/** The canonical form of a JSON value, and the text it is sealed as. */
module Canonical {
  import opened Text
  import opened Json

  // -------------------------------------------------------------------- objects

  function Keys(fields: seq<Field>): (r: seq<string>)
    ensures |r| == |fields| && forall i :: 0 <= i < |r| ==> r[i] == fields[i].key
  {
    seq(|fields|, i requires 0 <= i < |fields| => fields[i].key)
  }

  /** The value of a key; a later field would win, as in a map built field by field. */
  function Find(fields: seq<Field>, key: string): (v: Json)
    requires key in Keys(fields)
    ensures exists i :: 0 <= i < |fields| && fields[i] == Field(key, v)
  {
    if fields[|fields| - 1].key == key then fields[|fields| - 1].value
    else
      assert key in Keys(fields[..|fields| - 1]) by {
        var i :| 0 <= i < |fields| && fields[i].key == key;
        assert Keys(fields[..|fields| - 1])[i] == key;
      }
      Find(fields[..|fields| - 1], key)
  }

  lemma AppendLookup(fields: seq<Field>, f: Field, k: string)
    ensures k in Keys(fields + [f]) <==> k == f.key || k in Keys(fields)
    ensures k in Keys(fields + [f]) ==> Find(fields + [f], k) == if k == f.key then f.value else Find(fields, k)
  {
    assert Keys(fields + [f]) == Keys(fields) + [f.key];
    assert (fields + [f])[..|fields|] == fields;
  }

  // ---------------------------------------------------------------- canonical form

  /** The same value with the fields of every object sorted by key. */
  function Canon(v: Json): Json
    decreases v, 0
  {
    match v
    case Arr(items) => Arr(CanonItems(items))
    case Obj(fields) => Obj(SortFields(CanonFields(fields)))
    case _ => v
  }

  function CanonItems(items: seq<Json>): (r: seq<Json>)
    ensures |r| == |items|
    decreases items, 1
  {
    if items == [] then [] else [Canon(items[0])] + CanonItems(items[1..])
  }

  function CanonFields(fields: seq<Field>): (r: seq<Field>)
    ensures Keys(r) == Keys(fields)
    decreases fields, 1
  {
    if fields == [] then []
    else
      var r := [CanonField(fields[0])] + CanonFields(fields[1..]);
      assert Keys(r) == [fields[0].key] + Keys(fields[1..]) == Keys(fields);
      r
  }

  function CanonField(f: Field): Field
    decreases f, 1
  {
    Field(f.key, Canon(f.value))
  }

  /** The fields of the given keys, in their order. */
  function Pick(keys: seq<string>, fields: seq<Field>): (r: seq<Field>)
    requires forall k :: k in keys ==> k in Keys(fields)
    ensures |r| == |keys|
    ensures forall i :: 0 <= i < |keys| ==> r[i] == Field(keys[i], Find(fields, keys[i]))
  {
    seq(|keys|, i requires 0 <= i < |keys| && keys[i] in Keys(fields) => Field(keys[i], Find(fields, keys[i])))
  }

  /** What collecting the fields into a sorted map leaves. */
  function SortFields(fields: seq<Field>): (r: seq<Field>)
    ensures Keys(r) == SortedUnique(Keys(fields))
  {
    var r := Pick(SortedUnique(Keys(fields)), fields);
    assert Keys(r) == SortedUnique(Keys(fields));
    r
  }

  /** The sealed text. */
  function CanonicalJson(v: Json): string { Print(Canon(v)) }

  // ---------------------------------------------------------------- same up to key order

  /** Equal values, where the order of object fields does not matter. */
  ghost predicate Same(a: Json, b: Json)
    decreases a
  {
    match a
    case Arr(items) =>
      b.Arr? && |items| == |b.items| && forall i :: 0 <= i < |items| ==> Same(items[i], b.items[i])
    case Obj(fields) =>
      && b.Obj? && SameElems(Keys(fields), Keys(b.fields))
      && forall k :: k in Keys(fields) ==> Same(Find(fields, k), Find(b.fields, k))
    case _ => a == b
  }

  /** Sorting drops nothing: a field is found under its key. */
  lemma PickFind(keys: seq<string>, fields: seq<Field>, k: string)
    requires (forall k :: k in keys ==> k in Keys(fields)) && k in keys
    ensures k in Keys(Pick(keys, fields)) && Find(Pick(keys, fields), k) == Find(fields, k)
  {
    var r := Pick(keys, fields);
    var j :| 0 <= j < |keys| && keys[j] == k;
    assert Keys(r)[j] == k;
    var i :| 0 <= i < |r| && r[i] == Field(k, Find(r, k));
    assert r[i] == Field(keys[i], Find(fields, keys[i]));
  }

  lemma {:induction false} CanonFieldAt(fields: seq<Field>, i: int)
    requires 0 <= i < |fields|
    ensures |CanonFields(fields)| == |fields| && CanonFields(fields)[i] == CanonField(fields[i])
  {
    assert |Keys(CanonFields(fields))| == |Keys(fields)|;
    if i > 0 { CanonFieldAt(fields[1..], i - 1); }
  }

  lemma {:induction false} CanonItemAt(items: seq<Json>, i: int)
    requires 0 <= i < |items|
    ensures CanonItems(items)[i] == Canon(items[i])
  {
    if i > 0 { CanonItemAt(items[1..], i - 1); }
  }

  lemma CanonFind(fields: seq<Field>, k: string)
    requires k in Keys(fields)
    ensures Find(CanonFields(fields), k) == Canon(Find(fields, k))
  {
    var i := LastIndex(fields, k);
    CanonFieldAt(fields, i);
    forall j | i < j < |fields| ensures CanonFields(fields)[j].key != k {
      assert Keys(CanonFields(fields))[j] == fields[j].key;
    }
    LastIsFound(fields, k, i);
    LastIsFound(CanonFields(fields), k, i);
  }

  lemma {:induction false} LastIndex(fields: seq<Field>, k: string) returns (i: int)
    requires k in Keys(fields)
    ensures 0 <= i < |fields| && fields[i].key == k
    ensures forall j :: i < j < |fields| ==> fields[j].key != k
  {
    i := |fields| - 1;
    while fields[i].key != k
      invariant 0 <= i < |fields|
      invariant forall j :: i < j < |fields| ==> fields[j].key != k
      decreases i
    {
      i := i - 1;
    }
  }

  lemma {:induction false} LastIsFound(fields: seq<Field>, k: string, i: int)
    requires 0 <= i < |fields| && fields[i].key == k && forall j :: i < j < |fields| ==> fields[j].key != k
    ensures k in Keys(fields) && Find(fields, k) == fields[i].value
  {
    assert Keys(fields)[i] == k;
    if i < |fields| - 1 { LastIsFound(fields[..|fields| - 1], k, i); }
  }

  /** The canonical form is a normal form of "same up to key order". */
  lemma {:induction false} CanonIff(a: Json, b: Json)
    ensures Canon(a) == Canon(b) <==> Same(a, b)
    decreases a
  {
    match a
    case Arr(items) => if b.Arr? && |items| == |b.items| { CanonArrIff(items, b.items); }
    case Obj(fields) => if b.Obj? { CanonObjIff(fields, b.fields); }
    case _ =>
  }

  lemma {:induction false} CanonArrIff(a: seq<Json>, b: seq<Json>)
    requires |a| == |b|
    ensures Canon(Arr(a)) == Canon(Arr(b)) <==> Same(Arr(a), Arr(b))
    decreases a, 1
  {
    forall i | 0 <= i < |a| ensures CanonItems(a)[i] == CanonItems(b)[i] <==> Same(a[i], b[i]) {
      CanonItemAt(a, i);
      CanonItemAt(b, i);
      CanonIff(a[i], b[i]);
    }
  }

  ghost predicate SameLookup(a: seq<Field>, b: seq<Field>) {
    SameElems(Keys(a), Keys(b)) && forall k :: k in Keys(a) ==> Find(a, k) == Find(b, k)
  }

  /** Sorted fields are equal exactly when the unsorted ones answer every lookup alike. */
  lemma SortFieldsIff(a: seq<Field>, b: seq<Field>)
    ensures SortFields(a) == SortFields(b) <==> SameLookup(a, b)
  {
    var s, t := SortedUnique(Keys(a)), SortedUnique(Keys(b));
    if SameLookup(a, b) {
      AscendingUnique(s, t);
      assert Pick(s, a) == Pick(s, b);
    }
    if SortFields(a) == SortFields(b) {
      assert s == t;
      assert SameElems(Keys(a), Keys(b));
      forall k | k in Keys(a) ensures Find(a, k) == Find(b, k) {
        PickFind(s, a, k);
        PickFind(t, b, k);
      }
    }
  }

  lemma {:induction false} CanonObjIff(a: seq<Field>, b: seq<Field>)
    ensures Canon(Obj(a)) == Canon(Obj(b)) <==> Same(Obj(a), Obj(b))
    decreases a, 1
  {
    var ca, cb := CanonFields(a), CanonFields(b);
    SortFieldsIff(ca, cb);
    assert Keys(ca) == Keys(a) && Keys(cb) == Keys(b);
    if SameElems(Keys(a), Keys(b)) {
      forall k | k in Keys(a) ensures Find(ca, k) == Find(cb, k) <==> Same(Find(a, k), Find(b, k)) {
        CanonFieldIff(a, b, k);
      }
    }
  }

  lemma {:induction false} CanonFieldIff(a: seq<Field>, b: seq<Field>, k: string)
    requires k in Keys(a) && k in Keys(b)
    ensures Find(CanonFields(a), k) == Find(CanonFields(b), k) <==> Same(Find(a, k), Find(b, k))
    decreases a, 0
  {
    CanonFind(a, k);
    CanonFind(b, k);
    var i :| 0 <= i < |a| && a[i] == Field(k, Find(a, k));
    CanonIff(a[i].value, Find(b, k));
  }

  /** Two values have the same canonical text exactly when they are the same up to key order. */
  lemma CanonicalJsonIff(a: Json, b: Json)
    ensures CanonicalJson(a) == CanonicalJson(b) <==> Same(a, b)
  {
    CanonIff(a, b);
    if CanonicalJson(a) == CanonicalJson(b) { PrintInjective(Canon(a), Canon(b), "", ""); }
  }

  /** Keys ascend in every object, so none occurs twice. */
  ghost predicate Sorted(v: Json)
    decreases v
  {
    match v
    case Arr(items) => forall i :: 0 <= i < |items| ==> Sorted(items[i])
    case Obj(fields) => Ascending(Keys(fields)) && forall i :: 0 <= i < |fields| ==> Sorted(fields[i].value)
    case _ => true
  }

  lemma {:induction false} CanonSorted(v: Json)
    ensures Sorted(Canon(v))
    decreases v
  {
    match v
    case Arr(items) =>
      forall i | 0 <= i < |items| ensures Sorted(CanonItems(items)[i]) {
        CanonItemAt(items, i);
        CanonSorted(items[i]);
      }
    case Obj(fields) =>
      var sorted := SortFields(CanonFields(fields));
      forall i | 0 <= i < |sorted| ensures Sorted(sorted[i].value) {
        assert |SortFields(fields)| == |Keys(SortFields(fields))| == |Keys(sorted)| == |sorted|;
        SortedFieldAt(fields, i);
        var j :| 0 <= j < |fields| && fields[j] == SortFields(fields)[i];
        CanonSorted(fields[j].value);
      }
    case _ =>
  }

  lemma {:induction false} CanonSame(v: Json)
    ensures Same(v, Canon(v))
    decreases v
  {
    match v
    case Arr(items) =>
      forall i | 0 <= i < |items| ensures Same(items[i], CanonItems(items)[i]) {
        CanonItemAt(items, i);
        CanonSame(items[i]);
      }
    case Obj(fields) =>
      var canon := CanonFields(fields);
      forall k | k in Keys(fields) ensures Same(Find(fields, k), Find(SortFields(canon), k)) {
        PickFind(SortedUnique(Keys(canon)), canon, k);
        CanonFind(fields, k);
        var i :| 0 <= i < |fields| && fields[i] == Field(k, Find(fields, k));
        CanonSame(fields[i].value);
      }
    case _ =>
  }

  /** The sealed text is JSON of the same value with the keys of every object in ascending order. */
  lemma CanonicalReads(v: Json) returns (w: Json)
    ensures ReadValue(CanonicalJson(v)) == Some(Read(w, "")) && Sorted(w) && Same(v, w)
  {
    w := Canon(v);
    ReadPrint(w, "");
    assert Print(w) + "" == Print(w);
    CanonSorted(v);
    CanonSame(v);
  }

  // ----------------------------------------------------------------- the printer

  /** Sorting the fields and normalising their values commute. */
  lemma SortedFieldAt(fields: seq<Field>, i: int)
    requires 0 <= i < |SortFields(fields)|
    ensures |SortFields(CanonFields(fields))| == |SortFields(fields)|
    ensures SortFields(CanonFields(fields))[i] == CanonField(SortFields(fields)[i])
    ensures exists j :: 0 <= j < |fields| && fields[j] == SortFields(fields)[i]
  {
    var keys := SortedUnique(Keys(fields));
    assert |Keys(SortFields(fields))| == |keys| == |Keys(SortFields(CanonFields(fields)))|;
    assert keys[i] in keys;
    CanonFind(fields, keys[i]);
  }

  /** `canonical_json`: sort while printing into a buffer. */
  method WriteCanonicalJson(v: Json) returns (out: string)
    ensures out == CanonicalJson(v)
    decreases v, 0
  {
    match v {
      case Null => out := "null";
      case Bool(b) => out := if b then "true" else "false";
      case Number(text) => out := text;
      case Str(s) => out := Quote(s);
      case Arr(items) =>
        var body := WriteItems(items);
        out := "[" + body;
      case Obj(fields) =>
        var body := WriteFields(fields);
        out := "{" + body;
    }
  }

  method WriteItems(items: seq<Json>) returns (out: string)
    ensures out == PrintItems(CanonItems(items), true)
    decreases items, 1
  {
    ghost var c := CanonItems(items);
    out := "";
    var i := 0;
    while i < |items|
      invariant 0 <= i <= |items|
      invariant out + PrintItems(c[i..], i == 0) == PrintItems(c, true)
    {
      CanonItemAt(items, i);
      ItemsStep(out, c, i);
      if i > 0 { out := out + ","; }
      var text := WriteCanonicalJson(items[i]);
      out := out + text;
      i := i + 1;
    }
    assert c[i..] == [];
    out := out + "]";
  }

  lemma ItemsStep(out: string, c: seq<Json>, i: int)
    requires 0 <= i < |c|
    ensures out + PrintItems(c[i..], i == 0)
            == (if i > 0 then out + "," else out) + Print(c[i]) + PrintItems(c[i + 1..], false)
  {
    assert c[i..][1..] == c[i + 1..];
    Assoc(out, Comma(i == 0) + Print(c[i]), PrintItems(c[i + 1..], false));
    Assoc(out, Comma(i == 0), Print(c[i]));
  }

  method WriteFields(fields: seq<Field>) returns (out: string)
    ensures out == PrintFields(SortFields(CanonFields(fields)), true)
    decreases fields, 1
  {
    var sorted := SortFields(fields);
    ghost var c := SortFields(CanonFields(fields));
    assert |c| == |Keys(c)| == |Keys(sorted)| == |sorted|;
    out := "";
    var i := 0;
    while i < |sorted|
      invariant 0 <= i <= |sorted|
      invariant out + PrintFields(c[i..], i == 0) == PrintFields(c, true)
    {
      FieldsAdvance(out, fields, i);
      if i > 0 { out := out + ","; }
      ghost var j :| 0 <= j < |fields| && fields[j] == sorted[i];
      var entry := WriteField(sorted[i]);
      out := out + entry;
      i := i + 1;
    }
    assert c[i..] == [];
    out := out + "}";
  }

  lemma FieldsAdvance(out: string, fields: seq<Field>, i: int)
    requires 0 <= i < |SortFields(fields)| == |SortFields(CanonFields(fields))|
    ensures var c := SortFields(CanonFields(fields));
            out + PrintFields(c[i..], i == 0)
            == (if i > 0 then out + "," else out) + PrintField(CanonField(SortFields(fields)[i]))
               + PrintFields(c[i + 1..], false)
    ensures exists j :: 0 <= j < |fields| && fields[j] == SortFields(fields)[i]
  {
    SortedFieldAt(fields, i);
    FieldsStep(out, SortFields(CanonFields(fields)), i);
  }

  method WriteField(f: Field) returns (out: string)
    ensures out == PrintField(CanonField(f))
    decreases f, 1
  {
    var text := WriteCanonicalJson(f.value);
    out := Quote(f.key) + ":" + text;
  }

  lemma FieldsStep(out: string, c: seq<Field>, i: int)
    requires 0 <= i < |c|
    ensures out + PrintFields(c[i..], i == 0)
            == (if i > 0 then out + "," else out) + PrintField(c[i]) + PrintFields(c[i + 1..], false)
  {
    assert c[i..][1..] == c[i + 1..];
    Assoc(out, Comma(i == 0) + PrintField(c[i]), PrintFields(c[i + 1..], false));
    Assoc(out, Comma(i == 0), PrintField(c[i]));
  }
}
