/**
 * Dotted field paths of the form templates: how `validate_data` names a
 * leaf, and why two different leaves of a template never share a name.
 */
module FormPaths {
  import opened Json
  import opened FormSchema

  /** `f"{path}.{key}" if path else key`. */
  function JoinPath(path: string, key: string): string {
    if path == "" then key else path + "." + key
  }

  /** The dotted path a key path reaches from `path`. */
  function Dotted(path: string, keys: seq<string>): string
    decreases |keys|
  {
    if keys == [] then path else Dotted(JoinPath(path, keys[0]), keys[1..])
  }

  /** Every dotted path of a list of key paths. */
  function AllDotted(leaves: seq<seq<string>>, path: string): (r: seq<string>)
    ensures |r| == |leaves|
    ensures forall j :: 0 <= j < |r| ==> r[j] == Dotted(path, leaves[j])
  {
    seq(|leaves|, j requires 0 <= j < |leaves| => Dotted(path, leaves[j]))
  }


  /** `a` is `b` with some elements left out, the rest in their order. */
  predicate IsSubsequence(a: seq<string>, b: seq<string>)
    decreases |b|
  {
    if a == [] then true
    else if b == [] then false
    else (a[0] == b[0] && IsSubsequence(a[1..], b[1..])) || IsSubsequence(a, b[1..])
  }

  lemma {:induction false} SubsequenceMembers(a: seq<string>, b: seq<string>)
    requires IsSubsequence(a, b)
    ensures forall x :: x in a ==> x in b
    decreases |b|
  {
    if a != [] {
      if a[0] == b[0] && IsSubsequence(a[1..], b[1..]) {
        SubsequenceMembers(a[1..], b[1..]);
        assert forall x :: x in a ==> x == b[0] || x in a[1..];
      } else {
        SubsequenceMembers(a, b[1..]);
      }
    }
  }

  /** Leaving elements out of a list without repeats leaves a list without repeats. */
  lemma {:induction false} SubsequenceDistinct(a: seq<string>, b: seq<string>)
    requires IsSubsequence(a, b) && Distinct(b)
    ensures Distinct(a)
    decreases |b|
  {
    if a != [] {
      assert Distinct(b[1..]) by {
        forall i, j | 0 <= i < j < |b| - 1 ensures b[1..][i] != b[1..][j] {
          assert b[1..][i] == b[i + 1] && b[1..][j] == b[j + 1];
        }
      }
      if a[0] == b[0] && IsSubsequence(a[1..], b[1..]) {
        SubsequenceDistinct(a[1..], b[1..]);
        SubsequenceMembers(a[1..], b[1..]);
        forall j | 0 < j < |a| ensures a[0] != a[j] {
          assert a[j] == a[1..][j - 1];
          assert a[j] in a[1..];
          var k :| 0 <= k < |b[1..]| && b[1..][k] == a[j];
          assert b[k + 1] == a[j];
        }
        forall i, j | 0 <= i < j < |a| ensures a[i] != a[j] {
          if i > 0 {
            assert a[i] == a[1..][i - 1] && a[j] == a[1..][j - 1];
          }
        }
      } else {
        SubsequenceDistinct(a, b[1..]);
      }
    }
  }

  // ---------------------------------------------------------------------
  // Dotted names of key paths made of good keys are unambiguous.

  /** The key path written as ".k1.k2…". */
  function DotJoin(keys: seq<string>): string
    decreases |keys|
  {
    if keys == [] then "" else "." + keys[0] + DotJoin(keys[1..])
  }

  predicate AllGood(keys: seq<string>) {
    forall k :: k in keys ==> GoodKey(k)
  }

  lemma {:induction false} DottedFrom(path: string, keys: seq<string>)
    requires path != ""
    ensures Dotted(path, keys) == path + DotJoin(keys)
    decreases |keys|
  {
    if keys != [] {
      DottedFrom(path + "." + keys[0], keys[1..]);
      assert path + "." + keys[0] + DotJoin(keys[1..]) == path + ("." + keys[0] + DotJoin(keys[1..]));
    }
  }

  lemma DotJoinEmpty(keys: seq<string>)
    ensures DotJoin(keys) == "" <==> keys == []
  {
    if keys != [] {
      assert DotJoin(keys)[0] == '.';
    }
  }

  lemma {:induction false} DotJoinInjective(a: seq<string>, b: seq<string>)
    requires AllGood(a) && AllGood(b)
    requires DotJoin(a) == DotJoin(b)
    ensures a == b
    decreases |a|
  {
    DotJoinEmpty(a);
    DotJoinEmpty(b);
    if a != [] {
      var s := DotJoin(a);
      var a0, b0 := a[0], b[0];
      assert a0 in a && b0 in b;
      assert s == "." + a0 + DotJoin(a[1..]);
      assert s == "." + b0 + DotJoin(b[1..]);
      DotJoinBoundary(a0, a[1..], b0, b[1..]);
      DotJoinBoundary(b0, b[1..], a0, a[1..]);
      assert a0 == s[1..1 + |a0|] == b0;
      assert DotJoin(a[1..]) == s[1 + |a0|..] == DotJoin(b[1..]);
      assert AllGood(a[1..]) && AllGood(b[1..]);
      DotJoinInjective(a[1..], b[1..]);
      assert a == [a0] + a[1..] && b == [b0] + b[1..];
    }
  }

  /** A shorter first key puts a '.', or the end of the text, where a longer one has a character. */
  lemma DotJoinBoundary(x: string, xs: seq<string>, y: string, ys: seq<string>)
    requires GoodKey(y)
    ensures |x| < |y| ==> "." + x + DotJoin(xs) != "." + y + DotJoin(ys)
  {
    if |x| < |y| {
      var n := 1 + |x|;
      var left, right := "." + x + DotJoin(xs), "." + y + DotJoin(ys);
      assert right[n] == y[|x|];
      assert y[|x|] in y;
      if xs == [] {
        assert |left| == n < |right|;
      } else {
        assert DotJoin(xs)[0] == '.';
        assert left[n] == '.';
      }
    }
  }

  lemma DotJoinDotted(p: seq<string>)
    requires p != [] && GoodKey(p[0])
    ensures DotJoin(p) == "." + Dotted("", p)
  {
    DottedFrom(p[0], p[1..]);
    assert Dotted("", p) == Dotted(p[0], p[1..]) == p[0] + DotJoin(p[1..]);
    assert DotJoin(p) == "." + p[0] + DotJoin(p[1..]);
  }

  /** Two key paths of good keys with the same dotted name are the same key path. */
  lemma DottedInjective(p: seq<string>, q: seq<string>)
    requires p != [] && q != [] && AllGood(p) && AllGood(q)
    requires Dotted("", p) == Dotted("", q)
    ensures p == q
  {
    assert p[0] in p && q[0] in q;
    DotJoinDotted(p);
    DotJoinDotted(q);
    DotJoinInjective(p, q);
  }

  // ---------------------------------------------------------------------
  // The leaves of a well-keyed template.

  /** What every key path from entry `i` on looks like: good keys, headed by a key of entry `i` or later. */
  predicate PathsFrom(schema: Value, i: nat, leaves: seq<seq<string>>)
    requires schema.Obj? && i <= |schema.fields|
  {
    forall p :: p in leaves ==>
      && p != []
      && AllGood(p)
      && exists j :: i <= j < |schema.fields| && p[0] == schema.fields[j].key
  }

  /** The leaves of a well-keyed group put under a good key: distinct, good and headed by that key. */
  lemma PrefixedLeaves(key: string, group: Value)
    requires GoodKey(key) && group.Obj? && WellKeyed(group)
    ensures var mine := Prefixed(key, Leaves(group, 0));
      && Distinct(mine)
      && forall p :: p in mine ==> p != [] && p[0] == key && AllGood(p)
    decreases group, |group.fields| + 1
  {
    var sub := Leaves(group, 0);
    var mine := Prefixed(key, sub);
    LeavesDistinct(group, 0);
    forall p | p in mine ensures p != [] && p[0] == key && AllGood(p) {
      var j :| 0 <= j < |mine| && mine[j] == p;
      assert p == [key] + sub[j];
      assert sub[j] in sub;
    }
    forall a, b | 0 <= a < b < |mine| ensures mine[a] != mine[b] {
      assert mine[a][1..] == sub[a];
      assert mine[b][1..] == sub[b];
    }
  }

  lemma {:induction false} LeavesDistinct(schema: Value, i: nat)
    requires schema.Obj? && i <= |schema.fields| && WellKeyed(schema)
    ensures Distinct(Leaves(schema, i)) && PathsFrom(schema, i, Leaves(schema, i))
    decreases schema, |schema.fields| - i
  {
    if i < |schema.fields| {
      var f := schema.fields[i];
      assert f.key in KeysOf(schema.fields);
      var rest := Leaves(schema, i + 1);
      LeavesDistinct(schema, i + 1);
      var mine := if f.value.Obj? then Prefixed(f.key, Leaves(f.value, 0)) else [[f.key]];
      if f.value.Obj? {
        PrefixedLeaves(f.key, f.value);
      }
      forall a, b | 0 <= a < |mine| && 0 <= b < |rest| ensures mine[a] != rest[b] {
        assert mine[a] in mine && rest[b] in rest;
        var j :| i + 1 <= j < |schema.fields| && rest[b][0] == schema.fields[j].key;
      }
      assert Leaves(schema, i) == mine + rest;
    }
  }

  /** In a well-keyed template no two leaves share a dotted path. */
  lemma LeafPathsDistinct(schema: Value)
    requires schema.Obj? && WellKeyed(schema)
    ensures Distinct(AllDotted(Leaves(schema, 0), ""))
  {
    var leaves := Leaves(schema, 0);
    LeavesDistinct(schema, 0);
    forall a, b | 0 <= a < b < |leaves|
      ensures Dotted("", leaves[a]) != Dotted("", leaves[b])
    {
      assert leaves[a] in leaves && leaves[b] in leaves;
      if Dotted("", leaves[a]) == Dotted("", leaves[b]) {
        DottedInjective(leaves[a], leaves[b]);
      }
    }
  }
}
