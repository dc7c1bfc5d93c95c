/**
 * Python values as they come out of `json.loads` or are written as literals:
 * dictionaries keep their insertion order, which is the order in which
 * `dict.items()` visits them.
 */
module Json {
  import opened Wrappers

  datatype Value =
    | Null
    | Bool(b: bool)
    | Int(i: int)
    | Str(s: string)
    | Arr(items: seq<Value>)
    | Obj(fields: seq<Field>)

  /** One `key: value` entry of a dictionary. */
  datatype Field = Field(key: string, value: Value)

  /** `key in d`. */
  predicate HasKey(fields: seq<Field>, key: string) {
    exists i :: 0 <= i < |fields| && fields[i].key == key
  }

  /** `d.get(key, default)`; a Python dictionary holds each key once, so the first match is the entry. */
  function Lookup(fields: seq<Field>, key: string, default: Value): (r: Value)
    ensures !HasKey(fields, key) ==> r == default
    ensures HasKey(fields, key) ==>
      exists i :: 0 <= i < |fields| && fields[i].key == key && fields[i].value == r
  {
    if |fields| == 0 then default
    else if fields[0].key == key then fields[0].value
    else
      var r := Lookup(fields[1..], key, default);
      assert HasKey(fields, key) ==> HasKey(fields[1..], key);
      r
  }

  /** Python truthiness: empty strings, containers, zero, False and None are falsy. */
  predicate Truthy(v: Value) {
    match v
    case Null => false
    case Bool(b) => b
    case Int(i) => i != 0
    case Str(s) => s != ""
    case Arr(items) => items != []
    case Obj(fields) => fields != []
  }

  /** No key occurs twice among the entries of one dictionary. */
  predicate UniqueKeys(fields: seq<Field>) {
    forall i, j :: 0 <= i < j < |fields| ==> fields[i].key != fields[j].key
  }

  lemma {:induction false} LookupUnique(fields: seq<Field>, k: nat, default: Value)
    requires UniqueKeys(fields) && k < |fields|
    ensures Lookup(fields, fields[k].key, default) == fields[k].value
  {
    if k > 0 {
      assert fields[0].key != fields[k].key;
      assert UniqueKeys(fields[1..]) by {
        forall i, j | 0 <= i < j < |fields| - 1
          ensures fields[1..][i].key != fields[1..][j].key
        {
          assert fields[1..][i] == fields[i + 1] && fields[1..][j] == fields[j + 1];
        }
      }
      LookupUnique(fields[1..], k - 1, default);
      assert fields[1..][k - 1] == fields[k];
    }
  }

  /** Looking a key up in two runs of entries: the first run wins when it has the key. */
  lemma {:induction false} LookupAppend(a: seq<Field>, b: seq<Field>, key: string, default: Value)
    ensures Lookup(a + b, key, default)
         == if HasKey(a, key) then Lookup(a, key, default) else Lookup(b, key, default)
    decreases |a|
  {
    if a == [] {
      assert a + b == b;
    } else {
      assert (a + b)[0] == a[0];
      assert (a + b)[1..] == a[1..] + b;
      LookupAppend(a[1..], b, key, default);
      if a[0].key != key {
        assert HasKey(a, key) ==> HasKey(a[1..], key);
        assert HasKey(a[1..], key) ==> HasKey(a, key) by {
          if HasKey(a[1..], key) {
            var i :| 0 <= i < |a[1..]| && a[1..][i].key == key;
            assert a[i + 1].key == key;
          }
        }
      }
    }
  }
}
