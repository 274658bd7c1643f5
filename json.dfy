/** The shape of the arrays the metadata records hand to json_encode. */
module Json {
  import opened Wrappers

  /** JObject stands for a PHP associative array (a serialized object is one too). */
  datatype Json =
    | JNull
    | JBool(b: bool)
    | JString(s: string)
    | JList(items: seq<Json>)
    | JObject(fields: seq<(string, Json)>)

  /** PHP truthiness of a string: only "" and "0" are false. */
  predicate TruthyString(s: string) {
    s != "" && s != "0"
  }

  /** PHP truthiness of a value: null, false, "", "0" and empty arrays are false. */
  predicate Truthy(j: Json) {
    match j
    case JNull => false
    case JBool(b) => b
    case JString(s) => TruthyString(s)
    case JList(items) => |items| > 0
    case JObject(fields) => |fields| > 0
  }

  function OptString(o: Option<string>): Json {
    if o.Some? then JString(o.value) else JNull
  }

  /** The value stored under key `k` in an ordered field list, if any. */
  function Lookup(fields: seq<(string, Json)>, k: string): Option<Json> {
    if |fields| == 0 then None
    else if fields[0].0 == k then Some(fields[0].1)
    else Lookup(fields[1..], k)
  }

  /** array_filter without a callback: falsy entries are dropped, the rest keep their order. */
  function ArrayFilter(entries: seq<(string, Json)>): seq<(string, Json)> {
    if |entries| == 0 then []
    else if Truthy(entries[0].1) then [entries[0]] + ArrayFilter(entries[1..])
    else ArrayFilter(entries[1..])
  }

  /** After array_filter a key is present exactly when its value was truthy, and then
      it keeps that value. */
  lemma {:induction false} ArrayFilterLookup(entries: seq<(string, Json)>, i: nat)
    requires i < |entries|
    requires forall a, b :: 0 <= a < b < |entries| ==> entries[a].0 != entries[b].0
    ensures Lookup(ArrayFilter(entries), entries[i].0)
      == if Truthy(entries[i].1) then Some(entries[i].1) else None
  {
    if i == 0 {
      ArrayFilterAbsent(entries[1..], entries[0].0);
    } else {
      ArrayFilterLookup(entries[1..], i - 1);
    }
  }

  lemma {:induction false} ArrayFilterAbsent(entries: seq<(string, Json)>, k: string)
    requires forall a :: 0 <= a < |entries| ==> entries[a].0 != k
    ensures Lookup(ArrayFilter(entries), k) == None
  {
    if |entries| > 0 {
      ArrayFilterAbsent(entries[1..], k);
    }
  }

  /** Only truthy values survive. */
  lemma {:induction false} ArrayFilterTruthy(entries: seq<(string, Json)>)
    ensures |ArrayFilter(entries)| <= |entries|
    ensures forall f :: f in ArrayFilter(entries) ==> f in entries && Truthy(f.1)
  {
    if |entries| > 0 {
      ArrayFilterTruthy(entries[1..]);
    }
  }

  /** A key found in the first part of a concatenation hides the second part. */
  lemma {:induction false} LookupConcat(a: seq<(string, Json)>, b: seq<(string, Json)>, k: string)
    ensures Lookup(a + b, k) == if Lookup(a, k).Some? then Lookup(a, k) else Lookup(b, k)
  {
    if |a| > 0 {
      assert (a + b)[0] == a[0];
      assert (a + b)[1..] == a[1..] + b;
      LookupConcat(a[1..], b, k);
    } else {
      assert a + b == b;
    }
  }
}
