/** Which features a request gets, in whatever order the tenant's map yields them, and why that order does
    not show in the merged blocks. */
module FeatureList {
  import opened Base
  import opened JsonValue
  import Condition
  import M = IntelMerge

  type Fields = map<string, Json>

  predicate TrueAt(m: Fields, key: string) {
    key in m && m[key] == Bool(true)
  }

  predicate ConditionOf(entry: Fields, req: Fields) {
    "condition" in entry && entry["condition"].Str? && entry["condition"].s != "" ==>
      Condition.Holds(entry["condition"].s, req)
  }

  // Enabled by the tenant, known globally, and with its condition, if any, met by the request.
  predicate Wanted(tenant: Fields, global: Fields, req: Fields, name: string) {
    && name in tenant && tenant[name].Obj? && TrueAt(tenant[name].fields, "enabled")
    && name in global && global[name].Obj? && ConditionOf(global[name].fields, req)
  }

  predicate Distinct(xs: seq<string>) {
    forall i, j :: 0 <= i < j < |xs| ==> xs[i] != xs[j]
  }

  ghost predicate Lists(xs: seq<string>, tenant: Fields, global: Fields, req: Fields) {
    Distinct(xs) && forall name :: name in xs <==> Wanted(tenant, global, req, name)
  }

  method CheckFeature(tenant: Fields, global: Fields, req: Fields, name: string) returns (ok: bool)
    requires name in tenant
    ensures ok <==> Wanted(tenant, global, req, name)
  {
    if !tenant[name].Obj? || !TrueAt(tenant[name].fields, "enabled") {
      return false;
    }
    if name !in global || !global[name].Obj? {
      return false;
    }
    var entry := global[name].fields;
    if "condition" in entry && entry["condition"].Str? && entry["condition"].s != "" {
      ok := Condition.EvalCondition(entry["condition"].s, req);
      return;
    }
    ok := true;
  }

  method BuildFeatureList(tenant: Fields, global: Fields, req: Fields) returns (out: seq<string>)
    ensures Lists(out, tenant, global, req)
  {
    out := [];
    var rest := tenant.Keys;
    while rest != {}
      invariant rest <= tenant.Keys && Distinct(out)
      invariant forall name :: name in out <==> name in tenant && name !in rest && Wanted(tenant, global, req, name)
    {
      var name :| name in rest;
      var ok := CheckFeature(tenant, global, req, name);
      if ok {
        out := out + [name];
      }
      rest := rest - {name};
    }
  }

  lemma {:induction false} DistinctMultiset(xs: seq<string>, x: string)
    requires Distinct(xs)
    ensures multiset(xs)[x] == if x in xs then 1 else 0
  {
    if xs != [] {
      assert xs == [xs[0]] + xs[1..];
      DistinctMultiset(xs[1..], x);
    }
  }

  lemma {:induction false} DistinctOfCounts(xs: seq<string>)
    requires forall x :: multiset(xs)[x] <= 1
    ensures Distinct(xs)
  {
    if xs != [] {
      var first, rest := xs[0], xs[1..];
      assert xs == [first] + rest;
      assert multiset(xs) == multiset{first} + multiset(rest);
      forall x ensures multiset(rest)[x] <= 1 && (x == first ==> multiset(rest)[x] == 0) {
        assert multiset(xs)[x] <= 1;
      }
      DistinctOfCounts(rest);
      forall j | 0 < j < |xs| ensures xs[j] != first { assert xs[j] == rest[j - 1] && xs[j] in multiset(rest); }
    }
  }

  // The lists of the wanted features are the orders of any one of them.
  lemma ListsIffPermuted(tenant: Fields, global: Fields, req: Fields, xs: seq<string>, ys: seq<string>)
    requires Lists(xs, tenant, global, req)
    ensures Lists(ys, tenant, global, req) <==> multiset(ys) == multiset(xs)
  {
    forall x ensures multiset(xs)[x] == if x in xs then 1 else 0 { DistinctMultiset(xs, x); }
    if Lists(ys, tenant, global, req) {
      forall x ensures multiset(ys)[x] == multiset(xs)[x] { DistinctMultiset(ys, x); }
    }
    if multiset(ys) == multiset(xs) {
      DistinctOfCounts(ys);
      SameMembers(xs, ys);
    }
  }

  // Main result: the blocks built for a request do not depend on the order in which the tenant's feature map
  // was walked exactly when no two wanted features clash.
  lemma WalkOrderIrrelevantIff(inp: M.Input, req: Fields, xs: seq<string>)
    requires Lists(xs, inp.tenant, inp.global, req)
    ensures (forall ys :: Lists(ys, inp.tenant, inp.global, req) ==>
               M.MergeAll(inp, M.EMPTY, ys) == M.MergeAll(inp, M.EMPTY, xs)) <==>
            (forall x, y :: Wanted(inp.tenant, inp.global, req, x) && Wanted(inp.tenant, inp.global, req, y) ==>
               M.NoClash(inp, x, y))
  {
    forall ys ensures Lists(ys, inp.tenant, inp.global, req) <==> multiset(ys) == multiset(xs) {
      ListsIffPermuted(inp.tenant, inp.global, req, xs, ys);
    }
    M.OrderIrrelevantIff(inp, M.EMPTY, xs);
    assert (forall x :: x in xs <==> Wanted(inp.tenant, inp.global, req, x));
  }
}
