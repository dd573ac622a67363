/**
 The label resolver: create_table builds a static hash table from an ordered
 key list to integers, and a lookup of an absent key yields -1.

 Construction follows the table initializer the source relies on: the keys
 and values must have the same length, and the pairs are inserted in order,
 a repeated key being accepted only when it carries the value it already has.
 */
module Tables {
  import opened Results

  /** The two ways initializing a table can fail. */
  datatype TableError<K> =
    | LengthMismatch(keys: nat, values: nat)
    | ConflictingKey(key: K)

  /** The lookup default for keys that are not in the table. */
  const Missing: int := -1

  /** HashTable.lookup of one key. */
  function Lookup<K>(table: map<K, int>, key: K): int
  {
    if key in table then table[key] else Missing
  }

  /** np.arange(n): the values used when none are given. */
  function Range(n: nat): seq<int>
  {
    seq(n, i => i)
  }

  /** Equal keys carry equal values. */
  ghost predicate Consistent<K>(keys: seq<K>, values: seq<int>)
    requires |keys| == |values|
  {
    forall i, j :: 0 <= i < |keys| && 0 <= j < |keys| && keys[i] == keys[j] ==> values[i] == values[j]
  }

  ghost predicate Distinct<K>(keys: seq<K>)
  {
    forall i, j :: 0 <= i < |keys| && 0 <= j < |keys| && keys[i] == keys[j] ==> i == j
  }

  /** Inserts the key/value pairs in order into an empty table. */
  function Insert<K>(keys: seq<K>, values: seq<int>): Result<map<K, int>, TableError<K>>
    requires |keys| == |values|
  {
    if |keys| == 0 then Ok(map[])
    else
      var n := |keys| - 1;
      match Insert(keys[..n], values[..n])
      case Err(e) => Err(e)
      case Ok(m) =>
        if keys[n] in m && m[keys[n]] != values[n] then Err(ConflictingKey(keys[n]))
        else Ok(m[keys[n] := values[n]])
  }

  /** create_table(keys, values): with no values, the i-th key maps to i. */
  function CreateTable<K>(keys: seq<K>, values: Option<seq<int>>): Result<map<K, int>, TableError<K>>
  {
    var vs := if values.None? then Range(|keys|) else values.value;
    if |vs| != |keys| then Err(LengthMismatch(|keys|, |vs|)) else Insert(keys, vs)
  }

  /** Insertion fails exactly on a conflicting repeated key; otherwise the table
      holds exactly the given keys, each with its value. */
  lemma {:induction false} InsertCorrect<K>(keys: seq<K>, values: seq<int>)
    requires |keys| == |values|
    ensures Insert(keys, values).Ok? <==> Consistent(keys, values)
    ensures Insert(keys, values).Ok? ==>
      var t := Insert(keys, values).value;
      (forall key :: key in t <==> key in keys) &&
      (forall i :: 0 <= i < |keys| ==> t[keys[i]] == values[i])
  {
    if |keys| > 0 {
      var n := |keys| - 1;
      var ks, vs := keys[..n], values[..n];
      InsertCorrect(ks, vs);
      match Insert(ks, vs)
      case Err(_) =>
        assert !Consistent(ks, vs);
        var i, j :| 0 <= i < n && 0 <= j < n && ks[i] == ks[j] && vs[i] != vs[j];
        assert keys[i] == keys[j] && values[i] != values[j];
      case Ok(m) =>
        if keys[n] in m && m[keys[n]] != values[n] {
          assert keys[n] in ks;
          var i :| 0 <= i < n && ks[i] == keys[n];
          assert keys[i] == keys[n] && values[i] != values[n];
        } else {
          var t := m[keys[n] := values[n]];
          forall i, j | 0 <= i < |keys| && 0 <= j < |keys| && keys[i] == keys[j]
            ensures values[i] == values[j]
          {
            if i < n && j < n {
              assert ks[i] == ks[j];
            } else if i < n {
              assert m[keys[n]] == vs[i];
            } else if j < n {
              assert m[keys[n]] == vs[j];
            }
          }
          forall key
            ensures key in t <==> key in keys
          {
            if key in keys && key != keys[n] {
              var i :| 0 <= i < |keys| && keys[i] == key;
              assert ks[i] == key;
            }
          }
          forall i | 0 <= i < |keys|
            ensures t[keys[i]] == values[i]
          {
            if i < n && keys[i] != keys[n] {
              assert ks[i] == keys[i];
            } else if i < n {
              assert m[ks[i]] == vs[i];
            }
          }
        }
    }
  }

  /** With no values given, construction succeeds exactly when the keys are
      distinct, and then the i-th key maps to i and every other key to -1. */
  lemma CreateTableIndices<K>(keys: seq<K>)
    ensures CreateTable(keys, None).Ok? <==> Distinct(keys)
    ensures CreateTable(keys, None).Ok? ==>
      var t := CreateTable(keys, None).value;
      (forall i :: 0 <= i < |keys| ==> Lookup(t, keys[i]) == i) &&
      (forall key :: key !in keys ==> Lookup(t, key) == Missing)
  {
    var vs := Range(|keys|);
    InsertCorrect(keys, vs);
    if Consistent(keys, vs) {
      forall i, j | 0 <= i < |keys| && 0 <= j < |keys| && keys[i] == keys[j]
        ensures i == j
      {
        assert vs[i] == vs[j];
      }
    }
  }

  /** With values given, construction succeeds exactly when the lengths agree and
      repeated keys repeat their value; absent keys look up as -1. */
  lemma CreateTableWithValues<K>(keys: seq<K>, values: seq<int>)
    ensures CreateTable(keys, Some(values)).Ok? <==> |keys| == |values| && Consistent(keys, values)
    ensures CreateTable(keys, Some(values)).Ok? ==>
      var t := CreateTable(keys, Some(values)).value;
      (forall i :: 0 <= i < |keys| ==> Lookup(t, keys[i]) == values[i]) &&
      (forall key :: key !in keys ==> Lookup(t, key) == Missing)
  {
    if |keys| == |values| {
      InsertCorrect(keys, values);
    }
  }
}
