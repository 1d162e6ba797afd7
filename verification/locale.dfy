/**
 * Locale string lookup: `getNestedValue` follows a dotted key through the
 * parsed locale JSON, and `parseStrToLocale` falls back to the key itself
 * when the value found is missing or falsy.
 */
module Locale {
  import opened Wrappers
  import opened Text
  import opened Digits

  /** A value `response.json()` can produce. */
  datatype Json =
    | JNull
    | JBool(b: bool)
    | JNum(n: real)
    | JStr(s: string)
    | JArr(items: seq<Json>)
    | JObj(fields: map<string, Json>)

  /** A property key that names an array or string element: a numeral without a leading zero. */
  predicate IsIndexKey(key: string) {
    IsNumeral(key) && (key == "0" || key[0] != '0')
  }

  /**
   * `v[key]` for a JSON value, `None` standing for `undefined`: own fields of
   * objects, elements and `length` of arrays and strings; numbers and
   * booleans have no own properties.
   */
  function Property(v: Json, key: string): (r: Option<Json>)
    ensures v.JObj? ==> (r.Some? <==> key in v.fields)
    ensures v.JNull? || v.JBool? || v.JNum? ==> r.None?
  {
    match v
    case JObj(fields) => if key in fields then Some(fields[key]) else None
    case JArr(items) =>
      if key == "length" then Some(JNum(|items| as real))
      else if IsIndexKey(key) && Value(key) < |items| then Some(items[Value(key)])
      else None
    case JStr(s) =>
      if key == "length" then Some(JNum(|s| as real))
      else if IsIndexKey(key) && Value(key) < |s| then Some(JStr([s[Value(key)]]))
      else None
    case _ => None
  }

  /** One step of the `reduce`: `acc?.[part]`, which is `undefined` once `acc` is `null` or `undefined`. */
  function Step(acc: Option<Json>, part: string): Option<Json> {
    match acc
    case None => None
    case Some(JNull) => None
    case Some(v) => Property(v, part)
  }

  /** The `reduce` over the path, left to right. */
  function Walk(acc: Option<Json>, path: seq<string>): Option<Json>
    decreases |path|
  {
    if path == [] then acc else Walk(Step(acc, path[0]), path[1..])
  }

  /** `getNestedValue(obj, key)`. */
  function GetNestedValue(obj: Json, key: string): Option<Json> {
    Walk(Some(obj), SplitOn(key, '.'))
  }

  /** JavaScript truthiness of a JSON value or `undefined`. */
  predicate Truthy(v: Option<Json>) {
    match v
    case None => false
    case Some(JNull) => false
    case Some(JBool(b)) => b
    case Some(JNum(n)) => n != 0.0
    case Some(JStr(s)) => s != ""
    case Some(_) => true
  }

  /** The value `parseStrToLocale` resolves to for already loaded locale data. */
  function Localize(data: Json, key: string): (r: Json)
    ensures Truthy(GetNestedValue(data, key)) ==> Some(r) == GetNestedValue(data, key)
    ensures r == JStr(key)
      <==> !Truthy(GetNestedValue(data, key)) || GetNestedValue(data, key) == Some(JStr(key))
    ensures key != "" ==> Truthy(Some(r))
  {
    var value := GetNestedValue(data, key);
    if Truthy(value) then value.value else JStr(key)
  }

  // ---------------------------------------------------------------------------
  // Properties of the walk
  // ---------------------------------------------------------------------------

  /** Once a step is missing, every later step is missing too. */
  lemma {:induction false} WalkAbsent(path: seq<string>)
    ensures Walk(None, path) == None
    decreases |path|
  {
    if path != [] {
      WalkAbsent(path[1..]);
    }
  }

  /** Walking a path in two pieces is walking it at once. */
  lemma {:induction false} WalkAppend(acc: Option<Json>, p: seq<string>, q: seq<string>)
    ensures Walk(acc, p + q) == Walk(Walk(acc, p), q)
    decreases |p|
  {
    if p == [] {
      assert p + q == q;
    } else {
      assert (p + q)[0] == p[0];
      assert (p + q)[1..] == p[1..] + q;
      WalkAppend(Step(acc, p[0]), p[1..], q);
    }
  }

  /** A missing step anywhere along the path makes the whole lookup `undefined`. */
  lemma MissingStep(obj: Json, path: seq<string>, k: nat)
    requires k <= |path| && Walk(Some(obj), path[..k]).None?
    ensures Walk(Some(obj), path).None?
  {
    assert path == path[..k] + path[k..];
    WalkAppend(Some(obj), path[..k], path[k..]);
    WalkAbsent(path[k..]);
  }

  /** A key without dots is a single property lookup. */
  lemma PlainKey(obj: Json, key: string)
    requires '.' !in key
    ensures GetNestedValue(obj, key) == Step(Some(obj), key)
  {
    assert FirstIndexOf(key, '.') == |key|;
    assert SplitOn(key, '.') == [key];
    assert [key][1..] == [];
    assert Walk(Some(obj), [key]) == Walk(Step(Some(obj), key), []);
  }

  /** `a.b`: look up `a`, then walk the path `b` from what was found. */
  lemma DottedKey(obj: Json, a: string, b: string)
    ensures GetNestedValue(obj, a + "." + b) == Walk(GetNestedValue(obj, a), SplitOn(b, '.'))
  {
    assert a + "." + b == a + ['.'] + b;
    SplitOnConcat(a, '.', b);
    WalkAppend(Some(obj), SplitOn(a, '.'), SplitOn(b, '.'));
  }

  /** A field chain through nested objects finds the innermost value. */
  lemma NestedFields(inner: map<string, Json>, a: string, b: string)
    requires '.' !in a && '.' !in b && b in inner
    ensures GetNestedValue(JObj(map[a := JObj(inner)]), a + "." + b) == Some(inner[b])
  {
    var obj := JObj(map[a := JObj(inner)]);
    DottedKey(obj, a, b);
    PlainKey(obj, a);
    PlainKey(JObj(inner), b);
  }
}
