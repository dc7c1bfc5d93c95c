/**
 * `validate_data` of the form extractor: a depth-first walk over the
 * language's template that collects, as dotted paths, the leaves the
 * extracted data leaves absent or falsy.
 */
module FormValidator {
  import opened Wrappers
  import opened Json
  import opened FormSchema
  import opened FormPaths

  /** Why a walk stopped: `.get` was called on the value at `path`, which is not a dictionary. */
  datatype Fault = NotAMapping(path: string)

  /** Paths already collected, followed by what a later walk collects. */
  function Extend(acc: seq<string>, r: Result<seq<string>, Fault>): Result<seq<string>, Fault> {
    match r
    case Ok(s) => Ok(acc + s)
    case Err(e) => Err(e)
  }

  lemma ExtendAssoc(a: seq<string>, b: seq<string>, r: Result<seq<string>, Fault>)
    ensures Extend(a, Extend(b, r)) == Extend(a + b, r)
  {
    if r.Ok? {
      assert a + (b + r.value) == (a + b) + r.value;
    }
  }

  lemma ExtendNothing(r: Result<seq<string>, Fault>)
    ensures Extend([], r) == r
  {
    if r.Ok? {
      assert [] + r.value == r.value;
    }
  }

  /**
   * What `recurse(schema, obj, path)` appends to `missing` while it visits
   * the entries of `schema` from the `i`-th on, or the fault that ends it.
   */
  function Walk(schema: Value, i: nat, obj: Value, path: string): Result<seq<string>, Fault>
    requires schema.Obj? && i <= |schema.fields|
    decreases schema, |schema.fields| - i
  {
    if i == |schema.fields| then Ok([])
    else if !obj.Obj? then Err(NotAMapping(path))
    else
      var f := schema.fields[i];
      var here := JoinPath(path, f.key);
      if f.value.Obj? then
        match Walk(f.value, 0, Lookup(obj.fields, f.key, Obj([])), here)
        case Err(e) => Err(e)
        case Ok(sub) => Extend(sub, Walk(schema, i + 1, obj, path))
      else
        Extend(if Truthy(Lookup(obj.fields, f.key, Null)) then [] else [here], Walk(schema, i + 1, obj, path))
  }

  /** `recurse`: loops over the entries, descends into groups, appends missing leaves. */
  method Recurse(schema: Value, obj: Value, path: string, missing: seq<string>) returns (r: Result<seq<string>, Fault>)
    requires schema.Obj?
    ensures r == Extend(missing, Walk(schema, 0, obj, path))
    decreases schema
  {
    var acc := missing;
    var i := 0;
    while i < |schema.fields|
      invariant 0 <= i <= |schema.fields|
      invariant Extend(missing, Walk(schema, 0, obj, path)) == Extend(acc, Walk(schema, i, obj, path))
    {
      if !obj.Obj? {
        return Err(NotAMapping(path));
      }
      var key, val := schema.fields[i].key, schema.fields[i].value;
      var here := JoinPath(path, key);
      if val.Obj? {
        var sub := Recurse(val, Lookup(obj.fields, key, Obj([])), here, acc);
        if sub.Err? {
          return sub;
        }
        ExtendAssoc(acc, sub.value[|acc|..], Walk(schema, i + 1, obj, path));
        assert acc + sub.value[|acc|..] == sub.value;
        acc := sub.value;
      } else if !Truthy(Lookup(obj.fields, key, Null)) {
        ExtendAssoc(acc, [here], Walk(schema, i + 1, obj, path));
        acc := acc + [here];
      } else {
        ExtendAssoc(acc, [], Walk(schema, i + 1, obj, path));
        assert acc + [] == acc;
      }
      i := i + 1;
    }
    assert Walk(schema, i, obj, path) == Ok([]) && acc + [] == acc;
    return Ok(acc);
  }

  /** `validate_data(data, language)`. */
  method ValidateData(data: Value, language: string) returns (r: Result<seq<string>, Fault>)
    ensures r == Walk(GetSchema(language), 0, data, "")
  {
    var schema := GetSchema(language);
    r := Recurse(schema, data, "", []);
    ExtendNothing(Walk(schema, 0, data, ""));
  }

  // ---------------------------------------------------------------------
  // A reference definition: resolve each leaf's key path in the data.

  /** The value a key path reaches in the data, an absent group counting as `{}`. */
  function Resolve(obj: Value, keys: seq<string>): Value
    decreases |keys|
  {
    if keys == [] then obj
    else if !obj.Obj? then Null
    else Resolve(Lookup(obj.fields, keys[0], Obj([])), keys[1..])
  }

  /** The dotted paths of the key paths whose value in the data is absent or falsy, in order. */
  function Reported(leaves: seq<seq<string>>, obj: Value, path: string): seq<string>
    decreases |leaves|
  {
    if leaves == [] then []
    else
      (if Truthy(Resolve(obj, leaves[0])) then [] else [Dotted(path, leaves[0])])
      + Reported(leaves[1..], obj, path)
  }

  lemma {:induction false} ReportedAppend(a: seq<seq<string>>, b: seq<seq<string>>, obj: Value, path: string)
    ensures Reported(a + b, obj, path) == Reported(a, obj, path) + Reported(b, obj, path)
    decreases |a|
  {
    if a == [] {
      assert a + b == b;
    } else {
      assert (a + b)[0] == a[0];
      assert (a + b)[1..] == a[1..] + b;
      ReportedAppend(a[1..], b, obj, path);
    }
  }

  lemma AllDottedAppend(a: seq<seq<string>>, b: seq<seq<string>>, path: string)
    ensures AllDotted(a + b, path) == AllDotted(a, path) + AllDotted(b, path)
  {
  }

  /** With falsy defaults, whether a looked-up value is truthy does not depend on the default. */
  lemma {:induction false} LookupFalsyDefault(fields: seq<Field>, key: string, d1: Value, d2: Value)
    requires !Truthy(d1) && !Truthy(d2)
    ensures Truthy(Lookup(fields, key, d1)) == Truthy(Lookup(fields, key, d2))
    decreases |fields|
  {
    if fields != [] && fields[0].key != key {
      LookupFalsyDefault(fields[1..], key, d1, d2);
    }
  }

  /** Looking a group's leaves up from its parent is looking them up in the group's own value. */
  lemma {:induction false} ReportedPrefixed(key: string, leaves: seq<seq<string>>, obj: Value, path: string)
    requires obj.Obj?
    ensures Reported(Prefixed(key, leaves), obj, path)
         == Reported(leaves, Lookup(obj.fields, key, Obj([])), JoinPath(path, key))
    decreases |leaves|
  {
    if leaves != [] {
      assert Prefixed(key, leaves)[1..] == Prefixed(key, leaves[1..]);
      assert ([key] + leaves[0])[1..] == leaves[0];
      ReportedPrefixed(key, leaves[1..], obj, path);
    }
  }

  /**
   * Whenever the walk completes, it reports exactly the leaves whose value
   * is absent or falsy, in the template's depth-first order; keys the data
   * has and the template lacks play no part.
   */
  lemma {:induction false} WalkReportsFalsyLeaves(schema: Value, i: nat, obj: Value, path: string)
    requires schema.Obj? && i <= |schema.fields|
    requires Walk(schema, i, obj, path).Ok?
    ensures Walk(schema, i, obj, path).value == Reported(Leaves(schema, i), obj, path)
    decreases schema, |schema.fields| - i
  {
    if i < |schema.fields| {
      var f := schema.fields[i];
      WalkReportsFalsyLeaves(schema, i + 1, obj, path);
      var mine := if f.value.Obj? then Prefixed(f.key, Leaves(f.value, 0)) else [[f.key]];
      ReportedAppend(mine, Leaves(schema, i + 1), obj, path);
      if f.value.Obj? {
        WalkReportsFalsyLeaves(f.value, 0, Lookup(obj.fields, f.key, Obj([])), JoinPath(path, f.key));
        ReportedPrefixed(f.key, Leaves(f.value, 0), obj, path);
      } else {
        assert [[f.key]][1..] == [] && [f.key][1..] == [];
        LookupFalsyDefault(obj.fields, f.key, Obj([]), Null);
        assert Truthy(Resolve(obj, [f.key])) == Truthy(Lookup(obj.fields, f.key, Null));
        assert Dotted(path, [f.key]) == JoinPath(path, f.key);
        assert Reported(mine, obj, path)
            == if Truthy(Lookup(obj.fields, f.key, Null)) then [] else [JoinPath(path, f.key)];
      }
    }
  }

  /** Data that lacks a whole group (here: everything) gets every leaf of it reported. */
  lemma {:induction false} EmptyDataReportsAll(schema: Value, i: nat, path: string)
    requires schema.Obj? && i <= |schema.fields|
    ensures Walk(schema, i, Obj([]), path) == Ok(AllDotted(Leaves(schema, i), path))
    decreases schema, |schema.fields| - i
  {
    if i < |schema.fields| {
      var f := schema.fields[i];
      EmptyDataReportsAll(schema, i + 1, path);
      var mine := if f.value.Obj? then Prefixed(f.key, Leaves(f.value, 0)) else [[f.key]];
      AllDottedAppend(mine, Leaves(schema, i + 1), path);
      assert Leaves(schema, i) == mine + Leaves(schema, i + 1);
      if f.value.Obj? {
        assert Lookup([], f.key, Obj([])) == Obj([]);
        EmptyDataReportsAll(f.value, 0, JoinPath(path, f.key));
        AllDottedPrefixed(f.key, Leaves(f.value, 0), path);
        assert Walk(schema, i, Obj([]), path)
            == Extend(AllDotted(Leaves(f.value, 0), JoinPath(path, f.key)), Walk(schema, i + 1, Obj([]), path));
      } else {
        assert Lookup([], f.key, Null) == Null;
        assert [f.key][1..] == [];
        assert Dotted(path, [f.key]) == JoinPath(path, f.key);
        assert AllDotted(mine, path) == [JoinPath(path, f.key)];
      }
    }
  }

  lemma AllDottedPrefixed(key: string, leaves: seq<seq<string>>, path: string)
    ensures AllDotted(Prefixed(key, leaves), path) == AllDotted(leaves, JoinPath(path, key))
  {
    forall j | 0 <= j < |leaves|
      ensures AllDotted(Prefixed(key, leaves), path)[j] == AllDotted(leaves, JoinPath(path, key))[j]
    {
      assert ([key] + leaves[j])[1..] == leaves[j];
    }
  }

  /** Validating a blank template against itself reports every one of its leaves. */
  lemma {:induction false} TemplateReportsAll(schema: Value, i: nat, path: string)
    requires schema.Obj? && i <= |schema.fields|
    requires WellKeyed(schema) && BlankLeaves(schema)
    ensures Walk(schema, i, schema, path) == Ok(AllDotted(Leaves(schema, i), path))
    decreases schema, |schema.fields| - i
  {
    if i < |schema.fields| {
      var f := schema.fields[i];
      TemplateReportsAll(schema, i + 1, path);
      LookupUnique(schema.fields, i, Obj([]));
      LookupUnique(schema.fields, i, Null);
      var mine := if f.value.Obj? then Prefixed(f.key, Leaves(f.value, 0)) else [[f.key]];
      AllDottedAppend(mine, Leaves(schema, i + 1), path);
      assert Leaves(schema, i) == mine + Leaves(schema, i + 1);
      if f.value.Obj? {
        TemplateReportsAll(f.value, 0, JoinPath(path, f.key));
        AllDottedPrefixed(f.key, Leaves(f.value, 0), path);
        assert Walk(schema, i, schema, path)
            == Extend(AllDotted(Leaves(f.value, 0), JoinPath(path, f.key)), Walk(schema, i + 1, schema, path));
      } else {
        assert f.value == Str("");
        assert [f.key][1..] == [];
        assert Dotted(path, [f.key]) == JoinPath(path, f.key);
        assert AllDotted(mine, path) == [JoinPath(path, f.key)];
      }
    }
  }

  /** `validate_data(get_schema(l), l)` reports all 35 leaves: the blank template is never complete. */
  lemma BlankFormReportsAll(language: string)
    ensures Walk(GetSchema(language), 0, GetSchema(language), "")
         == Ok(AllDotted(Leaves(GetSchema(language), 0), ""))
    ensures |Walk(GetSchema(language), 0, GetSchema(language), "").value| == 35
  {
    SchemaShape(language);
    TemplateReportsAll(GetSchema(language), 0, "");
  }

  /** Data that is not a dictionary at all stops the walk before anything is reported. */
  lemma NonMappingDataFails(data: Value, language: string)
    requires !data.Obj?
    ensures Walk(GetSchema(language), 0, data, "") == Err(NotAMapping(""))
  {
    SchemaShape(language);
  }

  // ---------------------------------------------------------------------
  // When the walk stops: `.get` on a value that is not a dictionary.

  /**
   * The key paths, relative to the template, of its non-empty groups from
   * entry `i` on: the places where `recurse` calls `.get` below the root.
   */
  function GroupPaths(schema: Value, i: nat): seq<seq<string>>
    requires schema.Obj? && i <= |schema.fields|
    decreases schema, |schema.fields| - i
  {
    if i == |schema.fields| then []
    else
      var f := schema.fields[i];
      var mine :=
        if f.value.Obj? then (if f.value.fields == [] then [] else [[f.key]]) + Prefixed(f.key, GroupPaths(f.value, 0))
        else [];
      mine + GroupPaths(schema, i + 1)
  }

  /**
   * The data fits the entries of the template from `i` on: it is a
   * dictionary (unless no entry is left), and every non-empty group among
   * those entries resolves in it to a dictionary, an absent group counting
   * as `{}`.
   */
  predicate Fits(schema: Value, i: nat, obj: Value)
    requires schema.Obj? && i <= |schema.fields|
  {
    && (i < |schema.fields| ==> obj.Obj?)
    && forall p :: p in GroupPaths(schema, i) ==> Resolve(obj, p).Obj?
  }

  /** Resolving below a group is resolving in the group's value. */
  lemma ResolvePrefixed(obj: Value, key: string, qs: seq<seq<string>>)
    requires obj.Obj?
    ensures (forall p :: p in Prefixed(key, qs) ==> Resolve(obj, p).Obj?)
        <==> (forall q :: q in qs ==> Resolve(Lookup(obj.fields, key, Obj([])), q).Obj?)
  {
    var sub := Lookup(obj.fields, key, Obj([]));
    forall j | 0 <= j < |qs| ensures Resolve(obj, Prefixed(key, qs)[j]) == Resolve(sub, qs[j]) {
      assert ([key] + qs[j])[1..] == qs[j];
    }
    if forall p :: p in Prefixed(key, qs) ==> Resolve(obj, p).Obj? {
      forall q | q in qs ensures Resolve(sub, q).Obj? {
        var j :| 0 <= j < |qs| && qs[j] == q;
        assert Prefixed(key, qs)[j] in Prefixed(key, qs);
      }
    }
    if forall q :: q in qs ==> Resolve(sub, q).Obj? {
      forall p | p in Prefixed(key, qs) ensures Resolve(obj, p).Obj? {
        var j :| 0 <= j < |qs| && Prefixed(key, qs)[j] == p;
        assert qs[j] in qs;
      }
    }
  }

  /** The walk from entry `i` on completes exactly when the data fits those entries; otherwise it faults. */
  lemma {:induction false} WalkCompletes(schema: Value, i: nat, obj: Value, path: string)
    requires schema.Obj? && i <= |schema.fields|
    ensures Walk(schema, i, obj, path).Ok? <==> Fits(schema, i, obj)
    decreases schema, |schema.fields| - i
  {
    if i < |schema.fields| && obj.Obj? {
      var f := schema.fields[i];
      WalkCompletes(schema, i + 1, obj, path);
      var rest := GroupPaths(schema, i + 1);
      if f.value.Obj? {
        var sub := Lookup(obj.fields, f.key, Obj([]));
        var inner := GroupPaths(f.value, 0);
        var top: seq<seq<string>> := if f.value.fields == [] then [] else [[f.key]];
        WalkCompletes(f.value, 0, sub, JoinPath(path, f.key));
        ResolvePrefixed(obj, f.key, inner);
        assert GroupPaths(schema, i) == top + Prefixed(f.key, inner) + rest;
        assert [f.key][1..] == [] && Resolve(obj, [f.key]) == sub;
        assert Walk(schema, i, obj, path).Ok?
            <==> Walk(f.value, 0, sub, JoinPath(path, f.key)).Ok? && Walk(schema, i + 1, obj, path).Ok?;
        if f.value.fields != [] {
          assert [f.key] in top;
        }
        assert (forall p :: p in top ==> Resolve(obj, p).Obj?) <==> (f.value.fields != [] ==> sub.Obj?);
        assert (forall p :: p in GroupPaths(schema, i) ==> Resolve(obj, p).Obj?)
            <==> && (forall p :: p in top ==> Resolve(obj, p).Obj?)
                 && (forall p :: p in Prefixed(f.key, inner) ==> Resolve(obj, p).Obj?)
                 && (forall p :: p in rest ==> Resolve(obj, p).Obj?);
      } else {
        assert GroupPaths(schema, i) == rest;
      }
    }
  }

  /** The non-empty groups of the entries from `i` on are all among the paths checked. */
  lemma {:induction false} GroupPathsHas(schema: Value, i: nat, j: nat)
    requires schema.Obj? && i <= j < |schema.fields|
    requires schema.fields[j].value.Obj? && schema.fields[j].value.fields != []
    ensures [schema.fields[j].key] in GroupPaths(schema, i)
    decreases j - i
  {
    var f := schema.fields[i];
    if i < j {
      GroupPathsHas(schema, i + 1, j);
    }
  }

  /**
   * A group the data holds under its key but not as a dictionary (an
   * empty string or `null` for `dateOfBirth`, say) makes the walk fault.
   */
  lemma PresentNonMappingGroupFails(schema: Value, obj: Value, path: string, j: nat)
    requires schema.Obj? && j < |schema.fields|
    requires schema.fields[j].value.Obj? && schema.fields[j].value.fields != []
    requires obj.Obj? && !Lookup(obj.fields, schema.fields[j].key, Obj([])).Obj?
    ensures Walk(schema, 0, obj, path).Err?
  {
    var key := schema.fields[j].key;
    GroupPathsHas(schema, 0, j);
    assert [key][1..] == [] && !Resolve(obj, [key]).Obj?;
    assert !Fits(schema, 0, obj);
    WalkCompletes(schema, 0, obj, path);
  }

  // ---------------------------------------------------------------------
  // What the reference definition reports, leaf by leaf.

  lemma AllDottedTail(leaves: seq<seq<string>>, path: string)
    requires leaves != []
    ensures AllDotted(leaves, path)[1..] == AllDotted(leaves[1..], path)
    ensures AllDotted(leaves, path)[0] == Dotted(path, leaves[0])
  {
  }

  /** The reported paths are the template's leaf paths with some left out, in the template's order. */
  lemma {:induction false} ReportedSubsequence(leaves: seq<seq<string>>, obj: Value, path: string)
    ensures IsSubsequence(Reported(leaves, obj, path), AllDotted(leaves, path))
    decreases |leaves|
  {
    if leaves != [] {
      var all := AllDotted(leaves, path);
      var r := Reported(leaves, obj, path);
      var tail := Reported(leaves[1..], obj, path);
      AllDottedTail(leaves, path);
      ReportedSubsequence(leaves[1..], obj, path);
      if !Truthy(Resolve(obj, leaves[0])) {
        assert r == [all[0]] + tail;
        assert r[0] == all[0] && r[1..] == tail;
      } else {
        assert r == tail;
      }
    }
  }

  /** A leaf's path is reported exactly when its value in the data is absent or falsy. */
  lemma {:induction false} ReportedMembers(leaves: seq<seq<string>>, obj: Value, path: string, j: nat)
    requires Distinct(AllDotted(leaves, path)) && j < |leaves|
    ensures AllDotted(leaves, path)[j] in Reported(leaves, obj, path) <==> !Truthy(Resolve(obj, leaves[j]))
    decreases |leaves|
  {
    var all := AllDotted(leaves, path);
    var r := Reported(leaves, obj, path);
    var tail := Reported(leaves[1..], obj, path);
    var head := if Truthy(Resolve(obj, leaves[0])) then [] else [all[0]];
    AllDottedTail(leaves, path);
    assert r == head + tail;
    ReportedSubsequence(leaves[1..], obj, path);
    SubsequenceMembers(tail, all[1..]);
    if j == 0 {
      assert all[0] !in all[1..] by {
        forall k | 0 <= k < |all| - 1 ensures all[1..][k] != all[0] {
          assert all[1..][k] == all[k + 1];
        }
      }
    } else {
      assert Distinct(all[1..]) by {
        forall a, b | 0 <= a < b < |all| - 1 ensures all[1..][a] != all[1..][b] {
          assert all[1..][a] == all[a + 1] && all[1..][b] == all[b + 1];
        }
      }
      assert all[j] == all[1..][j - 1] && leaves[j] == leaves[1..][j - 1];
      ReportedMembers(leaves[1..], obj, path, j - 1);
      assert all[j] != all[0];
    }
  }

  /**
   * What `validate_data` promises about a form whose walk completes: the
   * result lists leaf paths of the template, each at most once, in the
   * template's order, and a leaf is listed exactly when the data leaves it
   * absent or falsy.
   */
  lemma ValidationReport(data: Value, language: string, j: nat)
    requires Walk(GetSchema(language), 0, data, "").Ok?
    requires j < |Leaves(GetSchema(language), 0)|
    ensures var missing := Walk(GetSchema(language), 0, data, "").value;
            var all := AllDotted(Leaves(GetSchema(language), 0), "");
            && IsSubsequence(missing, all)
            && Distinct(missing)
            && (all[j] in missing <==> !Truthy(Resolve(data, Leaves(GetSchema(language), 0)[j])))
  {
    var schema := GetSchema(language);
    var leaves := Leaves(schema, 0);
    SchemaShape(language);
    LeafPathsDistinct(schema);
    WalkReportsFalsyLeaves(schema, 0, data, "");
    ReportedSubsequence(leaves, data, "");
    SubsequenceDistinct(Reported(leaves, data, ""), AllDotted(leaves, ""));
    ReportedMembers(leaves, data, "", j);
  }
}
