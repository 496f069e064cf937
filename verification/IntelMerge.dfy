/** The merge of the scoring service's answers: each feature's value is extracted from the response and
    written into a nested block at a configured path, feature by feature in an arbitrary order. */
module IntelMerge {
  import opened Base
  import opened JsonValue
  import opened Search
  import BracketPath

  type Fields = map<string, Json>

  /******* Writing at a path *******/

  // The members of the object at a key, or no members where there is no object.
  function Inside(m: Fields, key: string): Fields {
    if key in m && m[key].Obj? then m[key].fields else map[]
  }

  // Intermediate objects are created, replacing whatever else stands in the way.
  function Put(m: Fields, path: seq<string>, v: Json): Fields
    requires path != []
    decreases |path|
  {
    if |path| == 1 then m[path[0] := v]
    else m[path[0] := Obj(Put(Inside(m, path[0]), path[1..], v))]
  }

  function Lookup(m: Fields, path: seq<string>): Option<Json>
    requires path != []
    decreases |path|
  {
    if path[0] !in m then None
    else if |path| == 1 then Some(m[path[0]])
    else if m[path[0]].Obj? then Lookup(m[path[0]].fields, path[1..])
    else None
  }

  predicate Diverge(p: seq<string>, q: seq<string>) {
    !(p <= q) && !(q <= p)
  }

  lemma {:induction false} ReadAfterWrite(m: Fields, p: seq<string>, v: Json)
    requires p != []
    ensures Lookup(Put(m, p, v), p) == Some(v)
    decreases |p|
  {
    if |p| > 1 {
      ReadAfterWrite(Inside(m, p[0]), p[1..], v);
    }
  }

  lemma PrefixTail(p: seq<string>, q: seq<string>)
    requires p != [] && q != [] && p[0] == q[0]
    ensures p <= q <==> p[1..] <= q[1..]
  {
    if p[1..] <= q[1..] {
      assert p == [p[0]] + p[1..] && q == [q[0]] + q[1..];
    }
  }

  // A write leaves every diverging path as it was.
  lemma {:induction false} WriteElsewhere(m: Fields, p: seq<string>, v: Json, q: seq<string>)
    requires Diverge(p, q)
    ensures Lookup(Put(m, p, v), q) == Lookup(m, q)
    decreases |p|
  {
    if p[0] == q[0] {
      PrefixTail(p, q);
      PrefixTail(q, p);
      WriteElsewhere(Inside(m, p[0]), p[1..], v, q[1..]);
    }
  }

  lemma {:induction false} WriteOfSameIff(m: Fields, p: seq<string>, v: Json)
    requires p != []
    ensures Put(m, p, v) == m <==> Lookup(m, p) == Some(v)
    decreases |p|
  {
    var inner := Inside(m, p[0]);
    if |p| > 1 {
      WriteOfSameIff(inner, p[1..], v);
    }
    if Put(m, p, v) == m {
      assert m[p[0]] == Put(m, p, v)[p[0]];
    }
  }

  // Neither write disturbs the other: the paths diverge, or one write already holds the other.
  predicate Compatible(p: seq<string>, v: Json, q: seq<string>, w: Json) {
    || Diverge(p, q)
    || (p == q && v == w)
    || (p < q && v.Obj? && Lookup(v.fields, q[|p|..]) == Some(w))
    || (q < p && w.Obj? && Lookup(w.fields, p[|q|..]) == Some(v))
  }

  lemma CompatibleTail(p: seq<string>, v: Json, q: seq<string>, w: Json)
    requires |p| > 1 && |q| > 1 && p[0] == q[0]
    ensures Compatible(p, v, q, w) <==> Compatible(p[1..], v, q[1..], w)
  {
    PrefixTail(p, q);
    PrefixTail(q, p);
    if p < q {
      assert q[|p|..] == q[1..][|p[1..]|..];
    } else if q < p {
      assert p[|q|..] == p[1..][|q[1..]|..];
    }
  }

  lemma SameHead(m: Fields, p: seq<string>, v: Json, q: seq<string>, w: Json)
    requires |p| > 1 && |q| > 1 && p[0] == q[0]
    ensures var inner := Inside(m, p[0]);
            Put(Put(m, p, v), q, w) == Put(Put(m, q, w), p, v) <==>
            Put(Put(inner, p[1..], v), q[1..], w) == Put(Put(inner, q[1..], w), p[1..], v)
  {
    var k, inner := p[0], Inside(m, p[0]);
    var a, b := Put(Put(inner, p[1..], v), q[1..], w), Put(Put(inner, q[1..], w), p[1..], v);
    assert Put(Put(m, p, v), q, w) == m[k := Obj(a)];
    assert Put(Put(m, q, w), p, v) == m[k := Obj(b)];
    assert m[k := Obj(a)][k] == Obj(a) && m[k := Obj(b)][k] == Obj(b);
  }

  lemma HeadsDiffer(m: Fields, p: seq<string>, v: Json, q: seq<string>, w: Json)
    requires p != [] && q != [] && p[0] != q[0]
    ensures Put(Put(m, p, v), q, w) == Put(Put(m, q, w), p, v) && Diverge(p, q)
  {
    var a := if |p| == 1 then v else Obj(Put(Inside(m, p[0]), p[1..], v));
    var b := if |q| == 1 then w else Obj(Put(Inside(m, q[0]), q[1..], w));
    assert Put(m, p, v) == m[p[0] := a] && Put(m, q, w) == m[q[0] := b];
    assert m[p[0] := a][q[0] := b] == m[q[0] := b][p[0] := a];
  }

  // Two writes give the same block in either order exactly when they are compatible, whatever the block.
  lemma {:induction false} OrdersAgreeIff(m: Fields, p: seq<string>, v: Json, q: seq<string>, w: Json)
    requires p != [] && q != []
    ensures Put(Put(m, p, v), q, w) == Put(Put(m, q, w), p, v) <==> Compatible(p, v, q, w)
    decreases |p|
  {
    if p[0] != q[0] {
      HeadsDiffer(m, p, v, q, w);
    } else if |p| > 1 && |q| > 1 {
      OrdersAgreeIff(Inside(m, p[0]), p[1..], v, q[1..], w);
      CompatibleTail(p, v, q, w);
      SameHead(m, p, v, q, w);
    } else {
      OneIsShort(m, p, v, q, w);
    }
  }

  lemma OneIsShort(m: Fields, p: seq<string>, v: Json, q: seq<string>, w: Json)
    requires p != [] && q != [] && p[0] == q[0] && (|p| == 1 || |q| == 1)
    ensures Put(Put(m, p, v), q, w) == Put(Put(m, q, w), p, v) <==> Compatible(p, v, q, w)
  {
    if |p| == 1 && |q| == 1 {
      assert p == q;
      assert Put(Put(m, p, v), q, w)[p[0]] == w && Put(Put(m, q, w), p, v)[p[0]] == v;
    } else if |p| == 1 {
      ShortThenLong(m, p, v, q, w);
    } else {
      ShortThenLong(m, q, w, p, v);
    }
  }

  lemma ShortThenLong(m: Fields, p: seq<string>, v: Json, q: seq<string>, w: Json)
    requires |p| == 1 && |q| > 1 && p[0] == q[0]
    ensures Put(Put(m, p, v), q, w) == Put(Put(m, q, w), p, v) <==> Compatible(p, v, q, w)
  {
    var k := p[0];
    assert p < q;
    var under := Obj(Put(Inside(m[k := v], k), q[1..], w));
    assert Put(Put(m, p, v), q, w) == m[k := under];
    assert Put(Put(m, q, w), p, v) == m[k := v];
    SameUpdateIff(m, k, under, v);
    if v.Obj? {
      WriteOfSameIff(v.fields, q[1..], w);
    }
  }

  lemma SameUpdateIff(m: Fields, k: string, v: Json, w: Json)
    ensures m[k := v] == m[k := w] <==> v == w
  {
    assert m[k := v][k] == v && m[k := w][k] == w;
  }

  /******* Features *******/

  datatype OutputKind = ScoreEntity | DataValue | DataValueData

  datatype Feature = Feature(kind: OutputKind, path: seq<string>, outputType: string, parentKey: string)

  function StringAt(m: Fields, key: string): string {
    if key in m && m[key].Str? then m[key].s else ""
  }

  function ClassifyOutput(output: string): OutputKind {
    if Contains(output, "get_score_entity_from_ml_response") then ScoreEntity
    else if Contains(output, ".get('value', {}).get('data')") || Contains(output, ".get(\"value\", {}).get(\"data\")")
    then DataValueData
    else DataValue
  }

  // The global entry overlaid with the tenant's members that are not null.
  function MergedConfig(global: Fields, tenant: Fields, name: string): Option<Feature> {
    if name !in global || !global[name].Obj? then None
    else
      var t := Inside(tenant, name);
      var merged := global[name].fields + (map k | k in t && t[k] != Null :: t[k]);
      var outputType, parent := StringAt(merged, "output_type"), StringAt(merged, "parent_key");
      if outputType == "" then None
      else Some(Feature(ClassifyOutput(StringAt(merged, "output")),
                        BracketPath.Parse(StringAt(merged, "output_path")),
                        outputType,
                        if parent == "" then "common_intelligence" else parent))
  }

  predicate Usable(feat: Fields) {
    "error" in feat ==> feat["error"] == Null || feat["error"] == Bool(false)
  }

  function OrNull(m: Fields, key: string): Json {
    if key in m then m[key] else Null
  }

  // None when the feature failed or is absent; the caller then writes a default.
  function ExtractOutput(kind: OutputKind, ml: Fields, name: string): Option<Json> {
    if name !in ml || !ml[name].Obj? || !Usable(ml[name].fields) then None
    else
      var feat := ml[name].fields;
      var data := Inside(feat, "data");
      match kind
      case ScoreEntity => Some(Obj(data["meta" := OrNull(feat, "meta")]["error" := OrNull(feat, "error")]))
      case DataValueData =>
        var v := OrNull(Inside(data, "value"), "data");
        if v == Null then None else Some(v)
      case DataValue => if "value" in data then Some(data["value"]) else None
  }

  predicate TypeMatches(v: Json, outputType: string) {
    if outputType == "bool" then v.Bool?
    else if outputType == "int" then v.Num?
    else if outputType == "str" then v.Str?
    else if outputType == "dict" then v.Obj?
    else if outputType == "list" then v.Arr?
    else true
  }

  // What is stored for an extraction: a default for a failed one, nothing for a mistyped one.
  function Stored(out: Option<Json>, outputType: string): Option<Json> {
    match out
    case None =>
      Some(if outputType == "dict" then Obj(map["error" := Bool(true)])
           else if outputType == "list" then Arr([])
           else Null)
    case Some(v) => if TypeMatches(v, outputType) then Some(v) else None
  }

  function SetAtPath(m: Fields, path: seq<string>, out: Option<Json>, outputType: string): Fields {
    if path == [] then m
    else
      match Stored(out, outputType)
      case None => m
      case Some(v) => Put(m, path, v)
  }

  /******* The merge *******/

  datatype Input = Input(hasPhone: bool, hasEmail: bool, global: Fields, tenant: Fields, ml: Fields)

  datatype Blocks = Blocks(phone: Fields, email: Fields, common: Fields)

  datatype Scope = PhoneScope | EmailScope | CommonScope

  datatype Write = Write(scope: Scope, path: seq<string>, value: Json)

  // The one write a feature makes, if any: it depends on the input alone.
  function WriteOf(inp: Input, name: string): Option<Write> {
    match MergedConfig(inp.global, inp.tenant, name)
    case None => None
    case Some(f) =>
      var scope := if f.parentKey == "phone_intelligence" then PhoneScope
                   else if f.parentKey == "email_intelligence" then EmailScope
                   else CommonScope;
      var stored := Stored(ExtractOutput(f.kind, inp.ml, name), f.outputType);
      if (scope.PhoneScope? && !inp.hasPhone) || (scope.EmailScope? && !inp.hasEmail) || f.path == [] || stored.None?
      then None
      else Some(Write(scope, f.path, stored.value))
  }

  function BlockOf(b: Blocks, scope: Scope): Fields {
    match scope
    case PhoneScope => b.phone
    case EmailScope => b.email
    case CommonScope => b.common
  }

  // An empty path is not written.
  function Written(b: Blocks, w: Write): Blocks {
    if w.path == [] then b
    else
      var m := Put(BlockOf(b, w.scope), w.path, w.value);
      match w.scope
      case PhoneScope => b.(phone := m)
      case EmailScope => b.(email := m)
      case CommonScope => b.(common := m)
  }

  function Merge1(inp: Input, b: Blocks, name: string): Blocks {
    match WriteOf(inp, name)
    case None => b
    case Some(w) => Written(b, w)
  }

  function MergeAll(inp: Input, b: Blocks, names: seq<string>): Blocks
    decreases |names|
  {
    if names == [] then b else MergeAll(inp, Merge1(inp, b, names[0]), names[1..])
  }

  const EMPTY := Blocks(map[], map[], map[])

  // Two features whose writes, if they share a scope, are compatible.
  predicate NoClash(inp: Input, x: string, y: string) {
    match (WriteOf(inp, x), WriteOf(inp, y))
    case (Some(a), Some(b)) => a.scope == b.scope ==> Compatible(a.path, a.value, b.path, b.value)
    case _ => true
  }

  lemma WritesSwapIff(b: Blocks, w: Write, v: Write)
    requires w.path != [] && v.path != []
    ensures Written(Written(b, w), v) == Written(Written(b, v), w) <==>
            (w.scope == v.scope ==> Compatible(w.path, w.value, v.path, v.value))
  {
    if w.scope == v.scope {
      OrdersAgreeIff(BlockOf(b, w.scope), w.path, w.value, v.path, v.value);
    }
  }

  // Swapping two features leaves the blocks unchanged exactly when they do not clash.
  lemma SwapIff(inp: Input, b: Blocks, x: string, y: string)
    ensures Merge1(inp, Merge1(inp, b, x), y) == Merge1(inp, Merge1(inp, b, y), x) <==> NoClash(inp, x, y)
  {
    match (WriteOf(inp, x), WriteOf(inp, y))
    case (Some(a), Some(c)) => WritesSwapIff(b, a, c);
    case _ =>
  }

  // A feature that clashes with none of those before it can be moved to the front.
  lemma {:induction false} MoveToFront(inp: Input, b: Blocks, before: seq<string>, x: string, after: seq<string>)
    requires forall y :: y in before ==> NoClash(inp, y, x)
    ensures MergeAll(inp, b, before + [x] + after) == MergeAll(inp, b, [x] + before + after)
    decreases |before|
  {
    if before == [] {
      assert before + [x] + after == [x] + before + after;
    } else {
      var y, rest := before[0], before[1..];
      SwapIff(inp, b, y, x);
      MoveToFront(inp, Merge1(inp, b, y), rest, x, after);
      assert (before + [x] + after)[1..] == rest + [x] + after;
      assert ([x] + rest + after)[1..] == rest + after;
      assert ([x] + before + after)[1..] == before + after;
      assert (before + after)[1..] == rest + after;
    }
  }

  // Main result: when no two features of the list clash, every order of the list gives the same blocks.
  lemma {:induction false} OrderIrrelevant(inp: Input, b: Blocks, xs: seq<string>, ys: seq<string>)
    requires multiset(xs) == multiset(ys)
    requires forall x, y :: x in xs && y in xs ==> NoClash(inp, x, y)
    ensures MergeAll(inp, b, xs) == MergeAll(inp, b, ys)
    decreases |xs|
  {
    if xs == [] {
      assert ys == [] by { assert |multiset(ys)| == 0; }
    } else {
      var before, after := FindFirst(xs, ys);
      MoveToFront(inp, b, before, xs[0], after);
      assert ([xs[0]] + before + after)[1..] == before + after;
      OrderIrrelevant(inp, Merge1(inp, b, xs[0]), xs[1..], before + after);
    }
  }

  // The blocks are the same for every order of the list.
  ghost predicate AnyOrder(inp: Input, b: Blocks, xs: seq<string>) {
    forall ys :: multiset(ys) == multiset(xs) ==> MergeAll(inp, b, ys) == MergeAll(inp, b, xs)
  }

  ghost predicate NoneClash(inp: Input, xs: seq<string>) {
    forall x, y :: x in xs && y in xs ==> NoClash(inp, x, y)
  }

  // And only then: two features that clash give different blocks as the last two of some order.
  lemma OrderIrrelevantIff(inp: Input, b: Blocks, xs: seq<string>)
    ensures AnyOrder(inp, b, xs) <==> NoneClash(inp, xs)
  {
    if NoneClash(inp, xs) {
      forall ys | multiset(ys) == multiset(xs) ensures MergeAll(inp, b, ys) == MergeAll(inp, b, xs) {
        OrderIrrelevant(inp, b, xs, ys);
      }
    } else {
      var x, y :| x in xs && y in xs && !NoClash(inp, x, y);
      ClashShows(inp, b, xs, x, y);
    }
  }

  lemma ClashShows(inp: Input, b: Blocks, xs: seq<string>, x: string, y: string)
    requires x in xs && y in xs && !NoClash(inp, x, y)
    ensures !AnyOrder(inp, b, xs)
  {
    if x == y {
      ClashesNotWithItself(inp, x);
    } else {
      var rest := WithoutTwo(xs, x, y);
      LastTwo(inp, b, rest, x, y);
      TwoOrdersDiffer(inp, b, xs, rest + [x] + [y], rest + [y] + [x]);
    }
  }

  lemma TwoOrdersDiffer(inp: Input, b: Blocks, xs: seq<string>, ys: seq<string>, zs: seq<string>)
    requires multiset(ys) == multiset(xs) == multiset(zs) && MergeAll(inp, b, ys) != MergeAll(inp, b, zs)
    ensures !AnyOrder(inp, b, xs)
  {
  }

  lemma LastTwo(inp: Input, b: Blocks, rest: seq<string>, x: string, y: string)
    ensures MergeAll(inp, b, rest + [x] + [y]) == MergeAll(inp, b, rest + [y] + [x]) <==> NoClash(inp, x, y)
  {
    MergeAppend(inp, b, rest, x);
    MergeAppend(inp, b, rest + [x], y);
    MergeAppend(inp, b, rest, y);
    MergeAppend(inp, b, rest + [y], x);
    SwapIff(inp, MergeAll(inp, b, rest), x, y);
  }

  lemma ClashesNotWithItself(inp: Input, x: string)
    ensures NoClash(inp, x, x)
  {
  }

  lemma WithoutTwo(xs: seq<string>, x: string, y: string) returns (rest: seq<string>)
    requires x in xs && y in xs && x != y
    ensures multiset(rest + [x] + [y]) == multiset(xs) && multiset(rest + [y] + [x]) == multiset(xs)
  {
    var one := WithoutOne(xs, x);
    assert y in multiset(xs) && y in multiset(one);
    rest := WithoutOne(one, y);
  }

  lemma WithoutOne(xs: seq<string>, x: string) returns (rest: seq<string>)
    requires x in xs
    ensures multiset(rest) == multiset(xs) - multiset{x}
  {
    var i :| 0 <= i < |xs| && xs[i] == x;
    rest := xs[..i] + xs[i + 1..];
    assert xs == xs[..i] + [x] + xs[i + 1..];
  }

  /******* The prediction *******/

  const SCORE_PATH: seq<string> := ["score", "onboarding_fraud_detection"]

  // None: the prediction is an error.
  function EntityScore(entity: Json): Option<real> {
    if !entity.Obj? || OrNull(entity.fields, "error") == Bool(true) then None
    else
      var v := OrNull(entity.fields, "value");
      if v.Num? then Some(v.n) else None
  }

  function DerivePrediction(common: Fields): Option<real> {
    EntityScore(OrNull(Inside(common, "score"), "onboarding_fraud_detection"))
  }

  lemma {:induction false} MergeAppend(inp: Input, b: Blocks, xs: seq<string>, x: string)
    ensures MergeAll(inp, b, xs + [x]) == Merge1(inp, MergeAll(inp, b, xs), x)
    decreases |xs|
  {
    if xs == [] {
      assert xs + [x] == [x] && [x][1..] == [];
    } else {
      MergeAppend(inp, Merge1(inp, b, xs[0]), xs[1..], x);
      assert (xs + [x])[1..] == xs[1..] + [x];
    }
  }
}
