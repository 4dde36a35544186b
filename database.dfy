/**
 * The `SimpleDB` key-value store of database.js: a string-keyed JSON
 * object kept in a backing file that every operation re-reads and every
 * mutation rewrites whole. The file is a field of the class; its parsed
 * form records the keys in the order `Object.entries` visits them.
 */
module Database {
  import opened Util
  import Phone

  /** A JSON value as it sits in a backing file (numbers are integers). */
  datatype Json =
    | JNull
    | JBool(b: bool)
    | JNum(n: int)
    | JStr(s: string)
    | JArr(elems: seq<Json>)
    | JObj(fields: map<string, Json>)

  /** JavaScript truthiness of a JSON value. */
  predicate Truthy(v: Json) {
    match v
    case JNull => false
    case JBool(b) => b
    case JNum(n) => n != 0
    case JStr(s) => s != ""
    case _ => true
  }

  /** A parsed store: its keys in iteration order and the value of each. */
  datatype Entries = Entries(keys: seq<string>, values: map<string, Json>)

  const Empty := Entries([], map[])

  ghost predicate Distinct(keys: seq<string>) {
    forall i, j :: 0 <= i < j < |keys| ==> keys[i] != keys[j]
  }

  /** Every key is listed exactly once, and nothing else is listed. */
  ghost predicate WellFormed(e: Entries) {
    && Distinct(e.keys)
    && (forall k :: k in e.keys ==> k in e.values)
    && (forall k :: k in e.values ==> k in e.keys)
  }

  /** What the backing file holds: a JSON object, or text that does not parse. */
  datatype File = Parsed(entries: Entries) | Unparsable

  /** `data[key] || null`: a missing key and a falsy stored value both read as null. */
  function Lookup(e: Entries, key: string): (r: Json)
    ensures r != JNull ==> key in e.values && r == e.values[key]
    ensures r == JNull <==> key !in e.values || !Truthy(e.values[key])
  {
    if key in e.values && Truthy(e.values[key]) then e.values[key] else JNull
  }

  /** `data[key] = value`: an existing key keeps its place, a new key goes last. */
  function Put(e: Entries, key: string, value: Json): (r: Entries)
    requires WellFormed(e)
    ensures WellFormed(r)
    ensures r.values == e.values[key := value]
    ensures key in e.values ==> r.keys == e.keys
    ensures key !in e.values ==> r.keys == e.keys + [key]
  {
    if key in e.values then Entries(e.keys, e.values[key := value])
    else Entries(e.keys + [key], e.values[key := value])
  }

  /** The keys without `key`, in the same order. */
  function Without(keys: seq<string>, key: string): (r: seq<string>)
    ensures forall k :: k in r <==> k in keys && k != key
    decreases |keys|
  {
    if keys == [] then []
    else (if keys[0] == key then [] else [keys[0]]) + Without(keys[1..], key)
  }

  /** `delete data[key]`. */
  function Remove(e: Entries, key: string): (r: Entries)
    requires WellFormed(e)
    ensures WellFormed(r)
  {
    WithoutDistinct(e.keys, key);
    Entries(Without(e.keys, key), e.values - {key})
  }

  /**
   * The own fields `...value` spreads: an object's fields, a string's
   * characters and an array's elements under their indexes `"0"`, `"1"`, ...,
   * and nothing for null, booleans and numbers.
   */
  function Spread(v: Json): map<string, Json> {
    match v
    case JObj(fields) => fields
    case JStr(s) => Indexed(seq(|s|, i requires 0 <= i < |s| => JStr([s[i]])))
    case JArr(elems) => Indexed(elems)
    case _ => map[]
  }

  /** The elements under the decimal strings of their indexes. */
  function Indexed(elems: seq<Json>): (r: map<string, Json>)
    ensures forall k :: k in r ==> k != "key"
    ensures forall i :: 0 <= i < |elems| ==> Phone.DecimalString(i) in r && r[Phone.DecimalString(i)] == elems[i]
    ensures forall k :: k in r ==> exists i :: 0 <= i < |elems| && k == Phone.DecimalString(i)
  {
    Phone.DecimalStringsDistinct();
    map i | 0 <= i < |elems| :: Phone.DecimalString(i) := elems[i]
  }

  /** `{ key, ...value }`: the spread fields win over the added `key`. */
  function WithKey(key: string, v: Json): (r: Json)
    ensures r.JObj?
    ensures "key" in r.fields
    ensures forall f :: f in r.fields <==> f == "key" || f in Spread(v)
    ensures forall f :: f in Spread(v) ==> r.fields[f] == Spread(v)[f]
    ensures "key" !in Spread(v) ==> r.fields["key"] == JStr(key)
  {
    JObj(map["key" := JStr(key)] + Spread(v))
  }

  /** The keys, in order, whose entry satisfies the predicate. */
  function MatchingKeys(keys: seq<string>, values: map<string, Json>, pred: (Json, string) -> bool): (r: seq<string>)
    requires forall k :: k in keys ==> k in values
    ensures forall k :: k in r ==> k in keys && k in values
    decreases |keys|
  {
    if keys == [] then []
    else
      var k := keys[|keys| - 1];
      MatchingKeys(keys[..|keys| - 1], values, pred) + (if pred(values[k], k) then [k] else [])
  }

  /** `value[field]` for an object value; other values have no fields. */
  function Field(v: Json, field: string): Option<Json> {
    match v
    case JObj(fields) => if field in fields then Some(fields[field]) else None
    case _ => None
  }

  /** The number `now - stamp` computes with; None stands for NaN. */
  function Stamp(v: Json): Option<int> {
    match v
    case JNum(n) => Some(n)
    case JBool(b) => Some(if b then 1 else 0)
    case _ => None
  }

  /** `stamp && (now - stamp) > maxAge` for a numeric stamp. */
  predicate AgedOut(stamp: int, now: int, maxAge: int) {
    stamp != 0 && now - stamp > maxAge
  }

  /** The test `cleanup` applies to one entry. */
  predicate Aged(v: Json, field: string, now: int, maxAge: int) {
    && Field(v, field).Some?
    && Stamp(Field(v, field).value).Some?
    && AgedOut(Stamp(Field(v, field).value).value, now, maxAge)
  }

  /** The keys, in order, that `cleanup` keeps. */
  function KeptKeys(keys: seq<string>, values: map<string, Json>, field: string, now: int, maxAge: int): (r: seq<string>)
    requires forall k :: k in keys ==> k in values
    ensures forall k :: k in r ==> k in keys
    decreases |keys|
  {
    if keys == [] then []
    else
      var k := keys[|keys| - 1];
      KeptKeys(keys[..|keys| - 1], values, field, now, maxAge)
        + (if Aged(values[k], field, now, maxAge) then [] else [k])
  }

  /** The store after `cleanup(field, maxAge)` at time `now`. */
  function Pruned(e: Entries, field: string, now: int, maxAge: int): (r: Entries)
    requires WellFormed(e)
    ensures WellFormed(r)
  {
    KeptKeysDistinct(e.keys, e.values, field, now, maxAge);
    KeptKeysMembership(e, field, now, maxAge);
    Entries(KeptKeys(e.keys, e.values, field, now, maxAge),
            map k | k in e.values && !Aged(e.values[k], field, now, maxAge) :: e.values[k])
  }

  class SimpleDB {
    var file: File

    ghost predicate Valid()
      reads this
    {
      file.Parsed? ==> WellFormed(file.entries)
    }

    /** `_read()`: the parsed file, or `{}` when it cannot be read. */
    function Snapshot(): (e: Entries)
      reads this
      requires Valid()
      ensures WellFormed(e)
      ensures file.Unparsable? ==> e == Empty
    {
      if file.Parsed? then file.entries else Empty
    }

    /** Opening a store writes `{}` when there is no file yet. */
    constructor (existing: Option<File>)
      requires existing.Some? && existing.value.Parsed? ==> WellFormed(existing.value.entries)
      ensures Valid()
      ensures file == existing.GetOr(Parsed(Empty))
    {
      file := existing.GetOr(Parsed(Empty));
    }

    method Get(key: string) returns (r: Json)
      requires Valid()
      ensures r != JNull ==> key in Snapshot().values && r == Snapshot().values[key]
      ensures r == JNull <==> key !in Snapshot().values || !Truthy(Snapshot().values[key])
    {
      r := Lookup(Snapshot(), key);
    }

    method Set(key: string, value: Json)
      requires Valid()
      modifies this
      ensures Valid()
      ensures file == Parsed(Put(old(Snapshot()), key, value))
    {
      var data := Snapshot();
      file := Parsed(Put(data, key, value));
    }

    method Delete(key: string)
      requires Valid()
      modifies this
      ensures Valid()
      ensures file == Parsed(Remove(old(Snapshot()), key))
    {
      var data := Snapshot();
      file := Parsed(Remove(data, key));
    }

    method GetAll() returns (r: Entries)
      requires Valid()
      ensures WellFormed(r)
      ensures file.Parsed? ==> r == file.entries
      ensures file.Unparsable? ==> r.keys == [] && r.values == map[]
    {
      r := Snapshot();
    }

    /** `find(predicate)`: `{ key, ...value }` for each matching entry, in key order. */
    method Find(pred: (Json, string) -> bool) returns (results: seq<Json>)
      requires Valid()
      ensures var data := Snapshot();
              var ks := MatchingKeys(data.keys, data.values, pred);
              && |results| == |ks|
              && forall j :: 0 <= j < |ks| ==> results[j] == WithKey(ks[j], data.values[ks[j]])
    {
      var data := Snapshot();
      results := [];
      var i := 0;
      while i < |data.keys|
        invariant 0 <= i <= |data.keys|
        invariant var ks := MatchingKeys(data.keys[..i], data.values, pred);
                  && |results| == |ks|
                  && forall j :: 0 <= j < |ks| ==> results[j] == WithKey(ks[j], data.values[ks[j]])
      {
        var key := data.keys[i];
        var value := data.values[key];
        assert data.keys[..i + 1][..i] == data.keys[..i];
        if pred(value, key) {
          results := results + [WithKey(key, value)];
        }
        i := i + 1;
      }
      assert data.keys[..i] == data.keys;
    }

    /**
     * `cleanup(field, maxAge)` at time `now`. A null value makes
     * `value[field]` throw before the file is written, so the call then
     * changes nothing; otherwise the pruned store is written back.
     */
    method Cleanup(field: string, maxAge: int, now: int) returns (completed: bool)
      requires Valid()
      modifies this
      ensures Valid()
      ensures completed <==> NoNulls(old(Snapshot()))
      ensures completed ==> file == Parsed(Pruned(old(Snapshot()), field, now, maxAge))
      ensures !completed ==> file == old(file)
    {
      var data;
      completed, data := Prune(Snapshot(), field, now, maxAge);
      if completed {
        file := Parsed(data);
      }
    }
  }

  ghost predicate NoNulls(e: Entries) {
    forall k :: k in e.values ==> !e.values[k].JNull?
  }

  /** The loop of `cleanup` over a snapshot of the entries. */
  method Prune(snapshot: Entries, field: string, now: int, maxAge: int) returns (completed: bool, data: Entries)
    requires WellFormed(snapshot)
    ensures completed <==> NoNulls(snapshot)
    ensures completed ==> data == Pruned(snapshot, field, now, maxAge)
  {
    var keys: seq<string> := [];
    var values := snapshot.values;
    var i := 0;
    while i < |snapshot.keys|
      invariant 0 <= i <= |snapshot.keys|
      invariant keys == KeptKeys(snapshot.keys[..i], snapshot.values, field, now, maxAge)
      invariant values == DropAged(snapshot.values, snapshot.keys[..i], field, now, maxAge)
      invariant forall j :: 0 <= j < i ==> !snapshot.values[snapshot.keys[j]].JNull?
    {
      var key := snapshot.keys[i];
      var value := snapshot.values[key];
      if value.JNull? {
        return false, snapshot;
      }
      assert snapshot.keys[..i + 1][..i] == snapshot.keys[..i];
      if Aged(value, field, now, maxAge) {
        values := values - {key};
      } else {
        keys := keys + [key];
      }
      i := i + 1;
    }
    assert snapshot.keys[..i] == snapshot.keys;
    data := Entries(keys, values);
    PrunedFromParts(snapshot, field, now, maxAge, data);
    completed := true;
  }

  /** The values once the aged entries among `keys` are deleted, one key after another. */
  function DropAged(values: map<string, Json>, keys: seq<string>, field: string, now: int, maxAge: int): map<string, Json>
    requires forall k :: k in keys ==> k in values
    decreases |keys|
  {
    if keys == [] then values
    else
      var k := keys[|keys| - 1];
      var rest := DropAged(values, keys[..|keys| - 1], field, now, maxAge);
      if Aged(values[k], field, now, maxAge) then rest - {k} else rest
  }

  lemma {:induction false} DropAgedExact(values: map<string, Json>, keys: seq<string>, field: string, now: int, maxAge: int, k: string)
    requires forall x :: x in keys ==> x in values
    ensures k in DropAged(values, keys, field, now, maxAge) <==>
              k in values && (k !in keys || !Aged(values[k], field, now, maxAge))
    ensures k in DropAged(values, keys, field, now, maxAge) ==> DropAged(values, keys, field, now, maxAge)[k] == values[k]
    decreases |keys|
  {
    if keys != [] {
      var init := keys[..|keys| - 1];
      assert keys == init + [keys[|keys| - 1]];
      DropAgedExact(values, init, field, now, maxAge, k);
    }
  }

  /** A pass over every key without a null deletes exactly the aged entries: the pruned store. */
  lemma PrunedFromParts(e: Entries, field: string, now: int, maxAge: int, data: Entries)
    requires WellFormed(e)
    requires data.keys == KeptKeys(e.keys, e.values, field, now, maxAge)
    requires data.values == DropAged(e.values, e.keys, field, now, maxAge)
    requires forall j :: 0 <= j < |e.keys| ==> !e.values[e.keys[j]].JNull?
    ensures NoNulls(e)
    ensures data == Pruned(e, field, now, maxAge)
  {
    forall k | k in e.values
      ensures !e.values[k].JNull?
    {
      var j :| 0 <= j < |e.keys| && e.keys[j] == k;
    }
    forall k
      ensures k in data.values <==> k in Pruned(e, field, now, maxAge).values
      ensures k in data.values ==> data.values[k] == e.values[k]
    {
      DropAgedExact(e.values, e.keys, field, now, maxAge, k);
    }
    assert data.values == Pruned(e, field, now, maxAge).values;
  }

  lemma {:induction false} WithoutDistinct(keys: seq<string>, key: string)
    requires Distinct(keys)
    ensures Distinct(Without(keys, key))
    decreases |keys|
  {
    if keys != [] {
      assert keys[0] !in keys[1..];
      WithoutDistinct(keys[1..], key);
    }
  }

  /** Deleting an absent key leaves the key order as it was. */
  lemma {:induction false} WithoutAbsent(keys: seq<string>, key: string)
    requires key !in keys
    ensures Without(keys, key) == keys
    decreases |keys|
  {
    if keys != [] {
      WithoutAbsent(keys[1..], key);
    }
  }

  lemma {:induction false} KeptKeysDistinct(keys: seq<string>, values: map<string, Json>, field: string, now: int, maxAge: int)
    requires forall k :: k in keys ==> k in values
    requires Distinct(keys)
    ensures Distinct(KeptKeys(keys, values, field, now, maxAge))
    decreases |keys|
  {
    if keys != [] {
      var init := keys[..|keys| - 1];
      assert keys == init + [keys[|keys| - 1]];
      assert keys[|keys| - 1] !in init;
      KeptKeysDistinct(init, values, field, now, maxAge);
    }
  }

  lemma KeptKeysMembership(e: Entries, field: string, now: int, maxAge: int)
    requires WellFormed(e)
    ensures forall k :: k in KeptKeys(e.keys, e.values, field, now, maxAge) <==> k in e.values && !Aged(e.values[k], field, now, maxAge)
  {
    forall k {
      KeptKeysExact(e.keys, e.values, field, now, maxAge, k);
    }
  }

  /** Read-after-write: `get(k)` after `set(k, v)` gives `v` when `v` is truthy, null otherwise, and every other key reads as before. */
  lemma GetAfterSet(e: Entries, key: string, value: Json, other: string)
    requires WellFormed(e)
    ensures Lookup(Put(e, key, value), key) == (if Truthy(value) then value else JNull)
    ensures other != key ==> Lookup(Put(e, key, value), other) == Lookup(e, other)
  {
  }

  /** `delete(k)` removes only `k`; deleting an absent key changes nothing at all. */
  lemma DeleteOnlyKey(e: Entries, key: string)
    requires WellFormed(e)
    ensures Remove(e, key).values.Keys == e.values.Keys - {key}
    ensures forall k :: k in Remove(e, key).values ==> Remove(e, key).values[k] == e.values[k]
    ensures key !in e.values ==> Remove(e, key) == e
  {
    if key !in e.values {
      WithoutAbsent(e.keys, key);
      assert e.values - {key} == e.values;
    }
  }

  /** `find` returns an entry exactly when the predicate holds of its value and key. */
  lemma {:induction false} MatchingKeysExact(keys: seq<string>, values: map<string, Json>, pred: (Json, string) -> bool, k: string)
    requires forall x :: x in keys ==> x in values
    ensures k in MatchingKeys(keys, values, pred) <==> k in keys && pred(values[k], k)
    decreases |keys|
  {
    if keys != [] {
      var init := keys[..|keys| - 1];
      assert keys == init + [keys[|keys| - 1]];
      MatchingKeysExact(init, values, pred, k);
    }
  }

  /** Each result of `find` carries its key, unless its value already had a `key` field of its own, and the characters or elements of a string or array value under their indexes. */
  lemma WithKeyCarriesKey(key: string, v: Json)
    ensures v.JObj? && "key" in v.fields ==> WithKey(key, v).fields["key"] == v.fields["key"]
    ensures !(v.JObj? && "key" in v.fields) ==> WithKey(key, v).fields["key"] == JStr(key)
    ensures forall f :: f != "key" && Field(v, f).Some? ==> Field(WithKey(key, v), f) == Field(v, f)
    ensures v.JStr? ==> forall i :: 0 <= i < |v.s| ==> WithKey(key, v).fields[Phone.DecimalString(i)] == JStr([v.s[i]])
    ensures v.JArr? ==> forall i :: 0 <= i < |v.elems| ==> WithKey(key, v).fields[Phone.DecimalString(i)] == v.elems[i]
    ensures v.JNull? || v.JBool? || v.JNum? ==> WithKey(key, v).fields == map["key" := JStr(key)]
  {
  }

  /** `cleanup` keeps an entry exactly when it is not aged; an entry without the field is never aged. */
  lemma {:induction false} KeptKeysExact(keys: seq<string>, values: map<string, Json>, field: string, now: int, maxAge: int, k: string)
    requires forall x :: x in keys ==> x in values
    ensures k in KeptKeys(keys, values, field, now, maxAge) <==> k in keys && !Aged(values[k], field, now, maxAge)
    decreases |keys|
  {
    if keys != [] {
      var init := keys[..|keys| - 1];
      assert keys == init + [keys[|keys| - 1]];
      KeptKeysExact(init, values, field, now, maxAge, k);
    }
  }

  /** An aged entry has a truthy field; an entry lacking the field is kept. */
  lemma AgedMeansTruthyField(v: Json, field: string, now: int, maxAge: int)
    ensures Aged(v, field, now, maxAge) ==> Field(v, field).Some? && Truthy(Field(v, field).value)
    ensures Field(v, field).None? ==> !Aged(v, field, now, maxAge)
  {
  }
}
