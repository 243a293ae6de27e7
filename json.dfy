/** JSON values: what the backend serialises (`json.dumps`) and what the
    dashboard reads back. Objects keep their keys in insertion order, as
    Python dictionaries do. */
module Json {
  import opened Aws

  datatype Json =
    | JNull
    | JBool(b: bool)
    | JInt(i: int)
    | JStr(s: string)
    | JArr(items: seq<Json>)
    | JObj(fields: seq<(string, Json)>)

  /** `None` serialises as `null`. */
  function OptStr(o: Option<string>): Json {
    match o
    case Some(s) => JStr(s)
    case None => JNull
  }

  function OptBool(o: Option<bool>): Json {
    match o
    case Some(b) => JBool(b)
    case None => JNull
  }

  /** A list of records, each serialised by `enc`. */
  function ListJson<R>(rows: seq<R>, enc: R -> Json): (r: seq<Json>)
    ensures |r| == |rows|
    ensures forall i :: 0 <= i < |rows| ==> r[i] == enc(rows[i])
  {
    if rows == [] then [] else [enc(rows[0])] + ListJson(rows[1..], enc)
  }

  /** A check's return value: its list, or `{"error": message}`. */
  function FindingJson<R>(f: Finding<R>, enc: R -> Json): Json {
    match f
    case Rows(rows) => JArr(ListJson(rows, enc))
    case ErrorDict(m) => JObj([("error", JStr(m))])
  }

  /** The keys of an object, in order; no keys for any other value. */
  function Keys(v: Json): seq<string> {
    match v
    case JObj(fields) => FieldKeys(fields)
    case _ => []
  }

  function FieldKeys(fields: seq<(string, Json)>): (r: seq<string>)
    ensures |r| == |fields|
    ensures forall i :: 0 <= i < |fields| ==> r[i] == fields[i].0
  {
    if fields == [] then [] else [fields[0].0] + FieldKeys(fields[1..])
  }

  /** `obj[key]` in JavaScript after `JSON.parse` (the last duplicate wins);
      `None` when the value is not an object or lacks the key. */
  function Get(v: Json, key: string): Option<Json> {
    match v
    case JObj(fields) => Lookup(fields, key)
    case _ => None
  }

  function Lookup(fields: seq<(string, Json)>, key: string): (r: Option<Json>)
    ensures r.None? <==> key !in FieldKeys(fields)
  {
    if fields == [] then None
    else if fields[|fields| - 1].0 == key then Some(fields[|fields| - 1].1)
    else
      assert FieldKeys(fields) == FieldKeys(fields[..|fields| - 1]) + [fields[|fields| - 1].0] by {
        assert forall i :: 0 <= i < |fields| - 1 ==> fields[..|fields| - 1][i] == fields[i];
      }
      Lookup(fields[..|fields| - 1], key)
  }

  /** A key no later field repeats is looked up to its own value. */
  lemma {:induction false} LookupAt(fields: seq<(string, Json)>, i: nat)
    requires i < |fields|
    requires forall j :: i < j < |fields| ==> fields[j].0 != fields[i].0
    ensures Lookup(fields, fields[i].0) == Some(fields[i].1)
    decreases |fields|
  {
    if i < |fields| - 1 {
      var init := fields[..|fields| - 1];
      assert init[i] == fields[i];
      forall j | i < j < |init| ensures init[j].0 != init[i].0 {
        assert init[j] == fields[j];
      }
      LookupAt(init, i);
    }
  }

  /** Python's `d[key] = value` on a dictionary: an existing key keeps its
      place and takes the new value, a new key goes last. */
  function Put(fields: seq<(string, Json)>, key: string, value: Json): (r: seq<(string, Json)>)
    ensures key !in FieldKeys(fields) ==> r == fields + [(key, value)]
  {
    if fields == [] then [(key, value)]
    else if fields[0].0 == key then [(key, value)] + fields[1..]
    else [fields[0]] + Put(fields[1..], key, value)
  }

  /** The position of the first field with this key. */
  function FirstIndex(fields: seq<(string, Json)>, key: string): (i: nat)
    requires key in FieldKeys(fields)
    ensures i < |fields| && fields[i].0 == key
    ensures forall j :: 0 <= j < i ==> fields[j].0 != key
  {
    assert FieldKeys(fields) == [fields[0].0] + FieldKeys(fields[1..]);
    if fields[0].0 == key then 0 else 1 + FirstIndex(fields[1..], key)
  }

  /** An existing key keeps its place: its first field takes the new value
      and every other field stays. */
  lemma {:induction false} PutReplaces(fields: seq<(string, Json)>, key: string, value: Json)
    requires key in FieldKeys(fields)
    ensures |Put(fields, key, value)| == |fields|
    ensures Put(fields, key, value)[FirstIndex(fields, key)] == (key, value)
    ensures forall j :: 0 <= j < |fields| && j != FirstIndex(fields, key) ==> Put(fields, key, value)[j] == fields[j]
  {
    assert FieldKeys(fields) == [fields[0].0] + FieldKeys(fields[1..]);
    if fields[0].0 != key {
      PutReplaces(fields[1..], key, value);
      var r := Put(fields, key, value);
      assert r == [fields[0]] + Put(fields[1..], key, value);
      forall j | 0 <= j < |fields| && j != FirstIndex(fields, key) ensures r[j] == fields[j] {
        if j > 0 { assert r[j] == Put(fields[1..], key, value)[j - 1]; }
      }
    }
  }

  /** JavaScript truthiness of a parsed JSON value. */
  predicate Truthy(v: Json) {
    match v
    case JNull => false
    case JBool(b) => b
    case JInt(i) => i != 0
    case JStr(s) => s != ""
    case JArr(_) => true
    case JObj(_) => true
  }

  /** A finding serialises as a list or as an object whose only key is
      "error", never as anything else. */
  lemma FindingJsonShape<R>(f: Finding<R>, enc: R -> Json)
    ensures FindingJson(f, enc).JArr? != (FindingJson(f, enc).JObj? && Keys(FindingJson(f, enc)) == ["error"])
    ensures f.Rows? <==> FindingJson(f, enc).JArr?
    ensures f.Rows? ==> |FindingJson(f, enc).items| == |f.rows|
  {
  }
}
