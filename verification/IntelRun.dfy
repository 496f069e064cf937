/** The merge loop, and what it leaves in each block, said in terms of the configuration and of the scoring
    service's response alone. */
module IntelRun {
  import opened Base
  import opened IntelMerge
  import opened JsonValue
  import opened Search
  import BracketPath

  /******* What a feature puts where *******/

  // A member of a feature's configuration: the tenant's where it has one that is not null, else the global one.
  function Member(inp: Input, name: string, key: string): Json {
    match Lookup(inp.tenant, [name, key])
    case Some(v) => if v != Null then v else OrNullAt(inp.global, [name, key])
    case None => OrNullAt(inp.global, [name, key])
  }

  function OrNullAt(m: Fields, path: seq<string>): Json
    requires path != []
  {
    match Lookup(m, path) case Some(v) => v case None => Null
  }

  function TextOf(inp: Input, name: string, key: string): string {
    var v := Member(inp, name, key);
    if v.Str? then v.s else ""
  }

  // The score entity: the answer's data, with the answer's own meta and error laid over it.
  ghost predicate IsEntity(inp: Input, name: string, v: Json) {
    && v.Obj?
    && forall k :: Lookup(v.fields, [k]) ==
                   if k == "meta" || k == "error" then Some(OrNullAt(inp.ml, [name, k]))
                   else Lookup(inp.ml, [name, "data", k])
  }

  // The service answered the feature without an error, and v is the part of the answer its output asks for.
  ghost predicate Answers(inp: Input, name: string, v: Json) {
    && name in inp.ml && inp.ml[name].Obj?
    && (OrNullAt(inp.ml, [name, "error"]) == Null || OrNullAt(inp.ml, [name, "error"]) == Bool(false))
    && var output := TextOf(inp, name, "output");
       if Contains(output, "get_score_entity_from_ml_response") then IsEntity(inp, name, v)
       else if Contains(output, ".get('value', {}).get('data')")
               || Contains(output, ".get(\"value\", {}).get(\"data\")")
       then v != Null && Lookup(inp.ml, [name, "data", "value", "data"]) == Some(v)
       else Lookup(inp.ml, [name, "data", "value"]) == Some(v)
  }

  predicate OfType(v: Json, outputType: string) {
    && (outputType == "bool" ==> v.Bool?) && (outputType == "int" ==> v.Num?) && (outputType == "str" ==> v.Str?)
    && (outputType == "dict" ==> v.Obj?) && (outputType == "list" ==> v.Arr?)
  }

  predicate IsDefault(v: Json, outputType: string) {
    && (outputType == "dict" ==> v == Obj(map["error" := Bool(true)]))
    && (outputType == "list" ==> v == Arr([]))
    && (outputType != "dict" && outputType != "list" ==> v == Null)
  }

  // What is to be stored: an answer of the configured type, or a default where there is no answer.
  ghost predicate Yields(inp: Input, name: string, v: Json) {
    || (Answers(inp, name, v) && OfType(v, TextOf(inp, name, "output_type")))
    || (IsDefault(v, TextOf(inp, name, "output_type")) && forall a :: !Answers(inp, name, a))
  }

  // The block a feature's parent key names, open when the request carries what it is about.
  predicate Into(inp: Input, name: string, block: string) {
    var parent := TextOf(inp, name, "parent_key");
    || (block == "phone_intelligence" && parent == "phone_intelligence" && inp.hasPhone)
    || (block == "email_intelligence" && parent == "email_intelligence" && inp.hasEmail)
    || (block == "common_intelligence" && parent != "phone_intelligence" && parent != "email_intelligence")
  }

  ghost predicate Puts(inp: Input, name: string, block: string, path: seq<string>, v: Json) {
    && name in inp.global && inp.global[name].Obj? && TextOf(inp, name, "output_type") != ""
    && path == BracketPath.Parse(TextOf(inp, name, "output_path")) && path != []
    && Into(inp, name, block) && Yields(inp, name, v)
  }

  /******* The specification of the merge agrees *******/

  lemma TwoSteps(m: Fields, name: string, key: string)
    ensures Lookup(m, [name, key]) ==
            if name in m && m[name].Obj? && key in m[name].fields then Some(m[name].fields[key]) else None
  {
    assert [name, key][1..] == [key];
  }

  lemma ThreeSteps(m: Fields, a: string, b: string, c: string)
    ensures Lookup(m, [a, b, c]) ==
            if a in m && m[a].Obj? then Lookup(m[a].fields, [b, c]) else None
  {
    assert [a, b, c][1..] == [b, c];
  }

  lemma FourSteps(m: Fields, a: string, b: string, c: string, d: string)
    ensures Lookup(m, [a, b, c, d]) ==
            if a in m && m[a].Obj? then Lookup(m[a].fields, [b, c, d]) else None
  {
    assert [a, b, c, d][1..] == [b, c, d];
  }

  lemma MergedMember(inp: Input, name: string, key: string)
    requires name in inp.global && inp.global[name].Obj?
    ensures var t := Inside(inp.tenant, name);
            var merged := inp.global[name].fields + (map k | k in t && t[k] != Null :: t[k]);
            StringAt(merged, key) == TextOf(inp, name, key)
  {
    TwoSteps(inp.tenant, name, key);
    TwoSteps(inp.global, name, key);
  }

  lemma ConfigIs(inp: Input, name: string)
    ensures MergedConfig(inp.global, inp.tenant, name).Some? <==>
            name in inp.global && inp.global[name].Obj? && TextOf(inp, name, "output_type") != ""
    ensures MergedConfig(inp.global, inp.tenant, name).Some? ==>
              var f := MergedConfig(inp.global, inp.tenant, name).value;
              && f.kind == ClassifyOutput(TextOf(inp, name, "output"))
              && f.path == BracketPath.Parse(TextOf(inp, name, "output_path"))
              && f.outputType == TextOf(inp, name, "output_type")
              && f.parentKey == (if TextOf(inp, name, "parent_key") == "" then "common_intelligence"
                                 else TextOf(inp, name, "parent_key"))
  {
    if name in inp.global && inp.global[name].Obj? {
      MergedMember(inp, name, "output_type");
      MergedMember(inp, name, "parent_key");
      MergedMember(inp, name, "output");
      MergedMember(inp, name, "output_path");
    }
  }

  lemma UsableIff(inp: Input, name: string)
    requires name in inp.ml && inp.ml[name].Obj?
    ensures Usable(inp.ml[name].fields) <==>
            OrNullAt(inp.ml, [name, "error"]) == Null || OrNullAt(inp.ml, [name, "error"]) == Bool(false)
  {
    TwoSteps(inp.ml, name, "error");
  }

  lemma EntityIs(inp: Input, name: string, v: Json)
    requires name in inp.ml && inp.ml[name].Obj?
    ensures var feat := inp.ml[name].fields;
            IsEntity(inp, name, v) <==>
            v == Obj(Inside(feat, "data")["meta" := OrNull(feat, "meta")]["error" := OrNull(feat, "error")])
  {
    var feat := inp.ml[name].fields;
    var entity := Inside(feat, "data")["meta" := OrNull(feat, "meta")]["error" := OrNull(feat, "error")];
    forall k
      ensures Lookup(entity, [k]) == if k == "meta" || k == "error" then Some(OrNullAt(inp.ml, [name, k]))
                                     else Lookup(inp.ml, [name, "data", k])
    {
      TwoSteps(inp.ml, name, k);
      ThreeSteps(inp.ml, name, "data", k);
      TwoSteps(feat, "data", k);
    }
    if IsEntity(inp, name, v) {
      SameMembersSame(v.fields, entity);
    }
  }

  lemma SameMembersSame(a: Fields, b: Fields)
    requires forall k :: Lookup(a, [k]) == Lookup(b, [k])
    ensures a == b
  {
    forall k ensures (k in a <==> k in b) && (k in a ==> a[k] == b[k]) {
      assert Lookup(a, [k]) == Lookup(b, [k]);
    }
  }

  lemma DataIs(inp: Input, name: string)
    requires name in inp.ml && inp.ml[name].Obj?
    ensures var data := Inside(inp.ml[name].fields, "data");
            && Lookup(inp.ml, [name, "data", "value"]) == (if "value" in data then Some(data["value"]) else None)
            && OrNullAt(inp.ml, [name, "data", "value", "data"]) == OrNull(Inside(data, "value"), "data")
  {
    var feat := inp.ml[name].fields;
    ThreeSteps(inp.ml, name, "data", "value");
    TwoSteps(feat, "data", "value");
    FourSteps(inp.ml, name, "data", "value", "data");
    ThreeSteps(feat, "data", "value", "data");
    TwoSteps(Inside(feat, "data"), "value", "data");
  }

  lemma AnswersIff(inp: Input, name: string, v: Json)
    ensures Answers(inp, name, v) <==>
            ExtractOutput(ClassifyOutput(TextOf(inp, name, "output")), inp.ml, name) == Some(v)
  {
    if name in inp.ml && inp.ml[name].Obj? {
      UsableIff(inp, name);
      EntityIs(inp, name, v);
      DataIs(inp, name);
    }
  }

  lemma YieldsIff(inp: Input, name: string, v: Json)
    ensures Yields(inp, name, v) <==>
            Stored(ExtractOutput(ClassifyOutput(TextOf(inp, name, "output")), inp.ml, name),
                   TextOf(inp, name, "output_type")) == Some(v)
  {
    var out := ExtractOutput(ClassifyOutput(TextOf(inp, name, "output")), inp.ml, name);
    forall a ensures Answers(inp, name, a) <==> out == Some(a) {
      AnswersIff(inp, name, a);
    }
    if out.Some? {
      assert Answers(inp, name, out.value);
    }
  }

  function KeyOf(scope: Scope): string {
    match scope
    case PhoneScope => "phone_intelligence"
    case EmailScope => "email_intelligence"
    case CommonScope => "common_intelligence"
  }

  // The one write a feature makes is the one its configuration and the response call for.
  lemma WriteIff(inp: Input, name: string, scope: Scope, path: seq<string>, v: Json)
    ensures WriteOf(inp, name) == Some(Write(scope, path, v)) <==> Puts(inp, name, KeyOf(scope), path, v)
  {
    ConfigIs(inp, name);
    YieldsIff(inp, name, v);
  }

  /******* What is left in the blocks *******/

  lemma StepKeeps(inp: Input, b: Blocks, y: string, scope: Scope, p: seq<string>, v: Json)
    requires p != [] && Lookup(BlockOf(b, scope), p) == Some(v)
    requires match WriteOf(inp, y)
             case None => true
             case Some(w) => w.scope == scope ==> Compatible(p, v, w.path, w.value)
    ensures Lookup(BlockOf(Merge1(inp, b, y), scope), p) == Some(v)
  {
    match WriteOf(inp, y)
    case None =>
    case Some(w) =>
      if w.scope == scope {
        var m := BlockOf(b, scope);
        WriteOfSameIff(m, p, v);
        OrdersAgreeIff(m, p, v, w.path, w.value);
        ReadAfterWrite(Put(m, w.path, w.value), p, v);
      }
  }

  lemma {:induction false} LaterKeep(inp: Input, b: Blocks, ys: seq<string>, scope: Scope, p: seq<string>, v: Json)
    requires p != [] && Lookup(BlockOf(b, scope), p) == Some(v)
    requires forall j :: 0 <= j < |ys| ==> Spares(inp, ys[j], KeyOf(scope), p, v)
    ensures Lookup(BlockOf(MergeAll(inp, b, ys), scope), p) == Some(v)
    decreases |ys|
  {
    if ys != [] {
      if WriteOf(inp, ys[0]).Some? {
        var w := WriteOf(inp, ys[0]).value;
        WriteIff(inp, ys[0], w.scope, w.path, w.value);
        assert Spares(inp, ys[0], KeyOf(scope), p, v);
      }
      StepKeeps(inp, b, ys[0], scope, p, v);
      LaterKeep(inp, Merge1(inp, b, ys[0]), ys[1..], scope, p, v);
    }
  }

  // What a feature puts into the block, if anything, leaves v at the path.
  ghost predicate Spares(inp: Input, name: string, block: string, path: seq<string>, v: Json) {
    forall q, w :: Puts(inp, name, block, q, w) ==> Compatible(path, v, q, w)
  }

  // The i-th feature puts v there, and no later one disturbs it: so does every feature of a list without clashes,
  // and the last one of any list.
  ghost predicate LastWord(inp: Input, xs: seq<string>, i: int, block: string, path: seq<string>, v: Json) {
    && 0 <= i < |xs| && Puts(inp, xs[i], block, path, v)
    && forall j :: i < j < |xs| ==> Spares(inp, xs[j], block, path, v)
  }

  lemma {:induction false} MergeConcat(inp: Input, b: Blocks, xs: seq<string>, ys: seq<string>)
    ensures MergeAll(inp, b, xs + ys) == MergeAll(inp, MergeAll(inp, b, xs), ys)
    decreases |xs|
  {
    if xs == [] {
      assert xs + ys == ys;
    } else {
      MergeConcat(inp, Merge1(inp, b, xs[0]), xs[1..], ys);
      assert (xs + ys)[1..] == xs[1..] + ys;
    }
  }

  lemma LastWordStands(inp: Input, xs: seq<string>, i: nat, scope: Scope, path: seq<string>, v: Json)
    requires LastWord(inp, xs, i, KeyOf(scope), path, v)
    ensures Lookup(BlockOf(MergeAll(inp, EMPTY, xs), scope), path) == Some(v)
  {
    var before, after := MergeAll(inp, EMPTY, xs[..i]), xs[i + 1..];
    var next := Merge1(inp, before, xs[i]);
    WriteIff(inp, xs[i], scope, path, v);
    ReadAfterWrite(BlockOf(before, scope), path, v);
    LaterKeep(inp, next, after, scope, path, v);
    MergeConcat(inp, EMPTY, xs[..i], xs[i..]);
    assert xs[..i] + xs[i..] == xs && xs[i..][1..] == after;
  }

  ghost predicate Comes(inp: Input, xs: seq<string>, block: string, key: string) {
    exists i, path, v :: 0 <= i < |xs| && Puts(inp, xs[i], block, path, v) && path[0] == key
  }

  lemma ComesSnoc(inp: Input, xs: seq<string>, x: string, block: string, key: string)
    ensures Comes(inp, xs + [x], block, key) <==>
            Comes(inp, xs, block, key) || exists path, v :: Puts(inp, x, block, path, v) && path[0] == key
  {
    var all := xs + [x];
    if Comes(inp, xs, block, key) {
      var i, path, v :| 0 <= i < |xs| && Puts(inp, xs[i], block, path, v) && path[0] == key;
      assert all[i] == xs[i];
    }
    if path, v :| Puts(inp, x, block, path, v) && path[0] == key {
      assert all[|xs|] == x;
    }
  }

  // A key of a block comes from a feature that puts something under it, and from nowhere else.
  lemma {:induction false} KeysCome(inp: Input, xs: seq<string>, scope: Scope, key: string)
    ensures key in BlockOf(MergeAll(inp, EMPTY, xs), scope) <==> Comes(inp, xs, KeyOf(scope), key)
  {
    if xs != [] {
      var front, x := xs[..|xs| - 1], xs[|xs| - 1];
      assert front + [x] == xs;
      KeysCome(inp, front, scope, key);
      ComesSnoc(inp, front, x, KeyOf(scope), key);
      MergeAppend(inp, EMPTY, front, x);
      StepAdds(inp, MergeAll(inp, EMPTY, front), x, scope, key);
    }
  }

  lemma StepAdds(inp: Input, b: Blocks, x: string, scope: Scope, key: string)
    ensures key in BlockOf(Merge1(inp, b, x), scope) <==>
            key in BlockOf(b, scope) || exists path, v :: Puts(inp, x, KeyOf(scope), path, v) && path[0] == key
  {
    forall path, v | Puts(inp, x, KeyOf(scope), path, v) ensures WriteOf(inp, x) == Some(Write(scope, path, v)) {
      WriteIff(inp, x, scope, path, v);
    }
    if WriteOf(inp, x).Some? {
      var w := WriteOf(inp, x).value;
      WriteIff(inp, x, w.scope, w.path, w.value);
      assert w.path != [] && Puts(inp, x, KeyOf(w.scope), w.path, w.value);
    }
  }

  // What the merge of a list leaves in one block.
  ghost predicate Holds(inp: Input, xs: seq<string>, block: string, m: Fields) {
    && (forall i, path, v :: LastWord(inp, xs, i, block, path, v) ==> Lookup(m, path) == Some(v))
    && (forall key :: key in m <==> Comes(inp, xs, block, key))
  }

  lemma MergeHolds(inp: Input, xs: seq<string>, scope: Scope)
    ensures Holds(inp, xs, KeyOf(scope), BlockOf(MergeAll(inp, EMPTY, xs), scope))
  {
    var m := BlockOf(MergeAll(inp, EMPTY, xs), scope);
    forall i, path, v | LastWord(inp, xs, i, KeyOf(scope), path, v) ensures Lookup(m, path) == Some(v) {
      LastWordStands(inp, xs, i, scope, path, v);
    }
    forall key ensures key in m <==> Comes(inp, xs, KeyOf(scope), key) {
      KeysCome(inp, xs, scope, key);
    }
  }

  // Where no two features clash, every one of them has the last word.
  lemma NoClashLastWord(inp: Input, xs: seq<string>, i: nat, scope: Scope, path: seq<string>, v: Json)
    requires NoneClash(inp, xs) && i < |xs| && Puts(inp, xs[i], KeyOf(scope), path, v)
    ensures LastWord(inp, xs, i, KeyOf(scope), path, v)
  {
    WriteIff(inp, xs[i], scope, path, v);
    forall j | i < j < |xs| ensures Spares(inp, xs[j], KeyOf(scope), path, v) {
      forall q, w | Puts(inp, xs[j], KeyOf(scope), q, w) ensures Compatible(path, v, q, w) {
        WriteIff(inp, xs[j], scope, q, w);
        assert NoClash(inp, xs[i], xs[j]);
      }
    }
  }

  // The merge loop over the feature list.
  method Run(inp: Input, features: seq<string>) returns (out: Blocks)
    ensures Holds(inp, features, "phone_intelligence", out.phone)
    ensures Holds(inp, features, "email_intelligence", out.email)
    ensures Holds(inp, features, "common_intelligence", out.common)
    ensures out == MergeAll(inp, EMPTY, features)
  {
    var phone: Fields, email: Fields, common: Fields := map[], map[], map[];
    for i := 0 to |features|
      invariant MergeAll(inp, EMPTY, features) == MergeAll(inp, Blocks(phone, email, common), features[i..])
    {
      assert features[i..][1..] == features[i + 1..];
      var name := features[i];
      match MergedConfig(inp.global, inp.tenant, name) {
        case None =>
        case Some(fc) =>
          var out := ExtractOutput(fc.kind, inp.ml, name);
          if fc.parentKey == "phone_intelligence" {
            if inp.hasPhone {
              phone := SetAtPath(phone, fc.path, out, fc.outputType);
            }
          } else if fc.parentKey == "email_intelligence" {
            if inp.hasEmail {
              email := SetAtPath(email, fc.path, out, fc.outputType);
            }
          } else {
            common := SetAtPath(common, fc.path, out, fc.outputType);
          }
      }
    }
    out := Blocks(phone, email, common);
    MergeHolds(inp, features, PhoneScope);
    MergeHolds(inp, features, EmailScope);
    MergeHolds(inp, features, CommonScope);
  }

  /******* The prediction *******/

  // The prediction is the number under the score entity's value, unless the entity carries an error.
  lemma PredictionIff(common: Fields, x: real)
    ensures DerivePrediction(common) == Some(x) <==>
            && Lookup(common, ["score", "onboarding_fraud_detection", "value"]) == Some(Num(x))
            && Lookup(common, ["score", "onboarding_fraud_detection", "error"]) != Some(Bool(true))
  {
    ThreeSteps(common, "score", "onboarding_fraud_detection", "value");
    ThreeSteps(common, "score", "onboarding_fraud_detection", "error");
    TwoSteps(Inside(common, "score"), "onboarding_fraud_detection", "value");
    TwoSteps(Inside(common, "score"), "onboarding_fraud_detection", "error");
  }

  lemma UnderScore(common: Fields, entity: Json, key: string)
    requires Lookup(common, SCORE_PATH) == Some(entity)
    ensures Lookup(common, ["score", "onboarding_fraud_detection", key]) ==
            if entity.Obj? then Lookup(entity.fields, [key]) else None
  {
    TwoSteps(common, "score", "onboarding_fraud_detection");
    ThreeSteps(common, "score", "onboarding_fraud_detection", key);
    TwoSteps(common["score"].fields, "onboarding_fraud_detection", key);
  }

  lemma EntityCarriesNoError(inp: Input, name: string, entity: Json)
    requires Answers(inp, name, entity)
    requires Contains(TextOf(inp, name, "output"), "get_score_entity_from_ml_response")
    ensures entity.Obj?
    ensures Lookup(entity.fields, ["value"]) == Lookup(inp.ml, [name, "data", "value"])
    ensures Lookup(entity.fields, ["error"]) != Some(Bool(true))
  {
  }

  // End to end: where the score's own feature has the last word and the service answered it, the prediction is the
  // number that the service gave as its value.
  lemma PredictionIsFeatureScore(inp: Input, xs: seq<string>, i: nat, entity: Json, x: real)
    requires LastWord(inp, xs, i, "common_intelligence", ["score", "onboarding_fraud_detection"], entity)
    requires Answers(inp, xs[i], entity)
    requires Contains(TextOf(inp, xs[i], "output"), "get_score_entity_from_ml_response")
    ensures DerivePrediction(MergeAll(inp, EMPTY, xs).common) == Some(x) <==>
            Lookup(inp.ml, [xs[i], "data", "value"]) == Some(Num(x))
  {
    var common := MergeAll(inp, EMPTY, xs).common;
    LastWordStands(inp, xs, i, CommonScope, SCORE_PATH, entity);
    PredictionIff(common, x);
    UnderScore(common, entity, "value");
    UnderScore(common, entity, "error");
    EntityCarriesNoError(inp, xs[i], entity);
  }
}
