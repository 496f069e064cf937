/** The shape of the response that a client sees: accounts keyed by website, hidden sites dropped, the
    profile count recomputed, internal data and nulls stripped. */
module ClientView {
  import opened Base
  import opened JsonTree
  import opened UpiResponse

  const WEBSITE := "_website"
  const STATIC_DATA := "static_data"
  const PRIMARY := "primary_data"
  const ACCOUNTS := "account_details"
  const COUNT := "social_profile_count"
  const INTELLIGENCE := "intelligence_data"
  const SCORE := "score"
  const META := "meta"
  const REVERSE := "reverse_model_list"

  /******* Accounts by website *******/

  function NameOf(e: Node): string {
    if e.Obj? && WEBSITE in e.fields && e.fields[WEBSITE].Str? then e.fields[WEBSITE].s else ""
  }

  // A later entry for the same website replaces an earlier one.
  function Keyed(list: seq<Node>): Tree {
    if list == [] then map[]
    else
      var before, e := Keyed(list[..|list| - 1]), list[|list| - 1];
      if NameOf(e) != "" then before[NameOf(e) := Obj(e.fields - {WEBSITE})] else before
  }

  lemma {:induction false} KeyedFacts(list: seq<Node>, name: string)
    ensures name in Keyed(list) <==> name != "" && exists i :: 0 <= i < |list| && NameOf(list[i]) == name
    ensures name in Keyed(list) ==>
              exists i :: 0 <= i < |list| && NameOf(list[i]) == name
                          && Keyed(list)[name] == Obj(list[i].fields - {WEBSITE})
                          && forall j :: i < j < |list| ==> NameOf(list[j]) != name
  {
    if list != [] {
      var front, last := list[..|list| - 1], |list| - 1;
      KeyedFacts(front, name);
      assert list == front + [list[last]];
      if name != "" && NameOf(list[last]) != name && name in Keyed(list) {
        var i :| 0 <= i < |front| && NameOf(front[i]) == name && Keyed(front)[name] == Obj(front[i].fields - {WEBSITE})
                 && forall j :: i < j < |front| ==> NameOf(front[j]) != name;
        assert NameOf(list[i]) == name;
      }
    }
  }

  method AccountDetailsListToMap(list: seq<Node>) returns (m: Tree)
    ensures m == Keyed(list)
  {
    m := map[];
    for i := 0 to |list|
      invariant m == Keyed(list[..i])
    {
      assert list[..i + 1][..i] == list[..i];
      var e := list[i];
      if e.Obj? {
        var name := if WEBSITE in e.fields && e.fields[WEBSITE].Str? then e.fields[WEBSITE].s else "";
        if name != "" {
          m := m[name := Obj(e.fields - {WEBSITE})];
        }
      }
    }
    assert list[..|list|] == list;
  }

  /******* One section *******/

  predicate Shown(name: string, hidden: set<string>, upi: Upi) {
    if name == UPI then upi.WithUpi? && upi.clientResponse else name !in hidden
  }

  function Visible(m: Tree, hidden: set<string>, upi: Upi): Tree {
    map n | n in m && Shown(n, hidden, upi) :: m[n]
  }

  predicate Exists(v: Node) {
    v.Obj? && USER_EXIST in v.fields && v.fields[USER_EXIST] == Bool(true)
  }

  function Profiles(m: Tree): set<string> {
    set n | n in m && Exists(m[n])
  }

  method DropHidden(m: Tree, hidden: set<string>, upi: Upi) returns (out: Tree)
    ensures out == Visible(m, hidden, upi)
  {
    out := m;
    var rest := m.Keys;
    while rest != {}
      invariant rest <= m.Keys
      invariant out == map n | n in m && (n in rest || Shown(n, hidden, upi)) :: m[n]
    {
      var name :| name in rest;
      if name == UPI {
        if upi.NoUpi? || !upi.clientResponse {
          out := out - {name};
        }
      } else if name in hidden {
        out := out - {name};
      }
      rest := rest - {name};
    }
  }

  method CountProfiles(m: Tree) returns (count: nat)
    ensures count == |Profiles(m)|
  {
    count := 0;
    var rest := m.Keys;
    ghost var found := {};
    while rest != {}
      invariant rest <= m.Keys && count == |found|
      invariant forall n :: n in found <==> n in m && n !in rest && Exists(m[n])
    {
      var name :| name in rest;
      if Exists(m[name]) {
        count := count + 1;
        found := found + {name};
      }
      rest := rest - {name};
    }
    assert Profiles(m) == found;
  }

  // The account list of a section, where it has one in list form.
  function AccountList(sec: Tree): Option<seq<Node>> {
    if PRIMARY in sec && sec[PRIMARY].Obj? && ACCOUNTS in sec[PRIMARY].fields && sec[PRIMARY].fields[ACCOUNTS].Arr?
    then Some(sec[PRIMARY].fields[ACCOUNTS].items) else None
  }

  // A section as the client may see it: the accounts it shows, keyed and counted.
  ghost predicate Presentable(sec: Tree, listed: bool, hidden: set<string>, upi: Upi) {
    && STATIC_DATA !in sec
    && (listed ==>
          && PRIMARY in sec && sec[PRIMARY].Obj?
          && ACCOUNTS in sec[PRIMARY].fields && sec[PRIMARY].fields[ACCOUNTS].Obj?
          && COUNT in sec[PRIMARY].fields
          && (forall n :: n in sec[PRIMARY].fields[ACCOUNTS].fields ==> Shown(n, hidden, upi))
          && sec[PRIMARY].fields[COUNT] == Num(|Profiles(sec[PRIMARY].fields[ACCOUNTS].fields)| as real))
  }

  function Accounts(list: seq<Node>, upi: Upi): Tree {
    Reshaped(Keyed(list), upi)
  }

  function Intelligence(sec: Tree): Tree {
    if INTELLIGENCE in sec && sec[INTELLIGENCE].Obj? then sec[INTELLIGENCE].fields else map[]
  }

  function WithIntelligence(sec: Tree, m: Tree, upi: Upi): Tree {
    var intel := Derived(m, Intelligence(sec), upi);
    if upi.WithUpi? && intel != map[] then sec[INTELLIGENCE := Obj(intel)] else sec
  }

  function WithAccounts(pd: Tree, m: Tree): Tree {
    pd[ACCOUNTS := Obj(m)][COUNT := Num(|Profiles(m)| as real)]
  }

  function SectionView(sec: Tree, hidden: set<string>, upi: Upi): Tree {
    var s := sec - {STATIC_DATA};
    match AccountList(s)
    case None => s
    case Some(list) =>
      var m := Accounts(list, upi);
      WithIntelligence(s, m, upi)[PRIMARY := Obj(WithAccounts(s[PRIMARY].fields, Visible(m, hidden, upi)))]
  }

  method TransformSection(sec: Tree, hidden: set<string>, upi: Upi) returns (out: Tree)
    ensures out == SectionView(sec, hidden, upi)
  {
    out := sec - {STATIC_DATA};
    if PRIMARY !in out || !out[PRIMARY].Obj? {
      return;
    }
    var pd := out[PRIMARY].fields;
    if ACCOUNTS !in pd || !pd[ACCOUNTS].Arr? {
      return;
    }
    var m := AccountDetailsListToMap(pd[ACCOUNTS].items);
    m := TransformUPIResponse(m, upi);
    if upi.WithUpi? {
      var intel := if INTELLIGENCE in out && out[INTELLIGENCE].Obj? then out[INTELLIGENCE].fields else map[];
      intel := DeriveUPIIntelligence(m, intel, upi);
      if intel != map[] {
        out := out[INTELLIGENCE := Obj(intel)];
      }
    }
    m := DropHidden(m, hidden, upi);
    var count := CountProfiles(m);
    pd := pd[ACCOUNTS := Obj(m)];
    pd := pd[COUNT := Num(count as real)];
    out := out[PRIMARY := Obj(pd)];
  }

  lemma SectionViewPresentable(sec: Tree, hidden: set<string>, upi: Upi)
    ensures Presentable(SectionView(sec, hidden, upi), AccountList(sec).Some?, hidden, upi)
  {
    assert AccountList(sec - {STATIC_DATA}) == AccountList(sec);
  }

  // An account is shown exactly when the client may see it and some entry of the list carries its name, or it
  // is the PhonePe account derived from a UPI entry.
  lemma ShownAccountIff(sec: Tree, hidden: set<string>, upi: Upi, name: string)
    requires AccountList(sec).Some?
    ensures var list := AccountList(sec).value;
            name in SectionView(sec, hidden, upi)[PRIMARY].fields[ACCOUNTS].fields <==>
            Shown(name, hidden, upi) &&
            (Named(list, name) || (name == PHONEPE && upi.WithUpi? && upi.phonepe && Named(list, UPI)))
  {
    assert AccountList(sec - {STATIC_DATA}) == AccountList(sec);
    KeyedFacts(AccountList(sec).value, name);
    KeyedFacts(AccountList(sec).value, UPI);
  }

  predicate Named(list: seq<Node>, name: string) {
    name != "" && exists i :: 0 <= i < |list| && NameOf(list[i]) == name
  }

  /******* The whole response *******/

  const PHONE := "phone_data"
  const EMAIL := "email_data"
  const PREDICTION := "prediction"
  const FRAUD := "onboarding_fraud_detection"

  lemma KeysDiffer()
    ensures PHONE != EMAIL && PHONE != PREDICTION && EMAIL != PREDICTION
    ensures PHONE != INTELLIGENCE && EMAIL != INTELLIGENCE && PREDICTION != INTELLIGENCE
  {
    assert PHONE[0] == 'p' && EMAIL[0] == 'e' && PHONE[1] == 'h' && PREDICTION[0] == 'p' && PREDICTION[1] == 'r';
  }

  function ScoreOf(tree: Tree): Option<Tree> {
    if INTELLIGENCE in tree && tree[INTELLIGENCE].Obj? && SCORE in tree[INTELLIGENCE].fields
       && tree[INTELLIGENCE].fields[SCORE].Obj?
    then Some(tree[INTELLIGENCE].fields[SCORE].fields) else None
  }

  function WithScore(tree: Tree, score: Tree): (out: Tree)
    requires ScoreOf(tree).Some?
    ensures ScoreOf(out) == Some(score) && out.Keys == tree.Keys
  {
    tree[INTELLIGENCE := Obj(tree[INTELLIGENCE].fields[SCORE := Obj(score)])]
  }

  function Renamed(score: Tree, keyName: string): Tree {
    if FRAUD in score then score[keyName := score[FRAUD]] - {FRAUD} else score
  }

  // The fraud score is found under the tenant's key afterwards exactly when that key is not the old one:
  // the rename then deletes what it has just written.
  lemma RenameKeepsScoreIff(score: Tree, keyName: string)
    requires FRAUD in score
    ensures keyName in Renamed(score, keyName) && Renamed(score, keyName)[keyName] == score[FRAUD] <==>
            keyName != FRAUD
  {
  }

  function ScoreRenamed(tree: Tree, keyName: string, rename: bool): Tree {
    if rename && ScoreOf(tree).Some? then WithScore(tree, Renamed(ScoreOf(tree).value, keyName)) else tree
  }

  function Predicted(tree: Tree, keyName: string, predictionOn: bool): Tree {
    if PREDICTION !in tree || !tree[PREDICTION].Obj? then tree
    else
      var pred := tree[PREDICTION].fields;
      if !predictionOn then tree - {PREDICTION}
      else if "error" in pred then tree[PREDICTION := Obj(map["error" := Bool(true)])]
      else if "predicted_score" in pred then tree[PREDICTION := Obj(map[keyName := pred["predicted_score"]])]
      else tree
  }

  predicate SamePart(a: Tree, b: Tree, part: string) {
    (part in a <==> part in b) && (part in a ==> a[part] == b[part])
  }

  ghost predicate SameBut(a: Tree, b: Tree, k: string) {
    forall l :: l != k ==> SamePart(a, b, l)
  }

  method CleanupPrediction(tree: Tree, keyName: string, rename: bool, predictionOn: bool) returns (out: Tree)
    ensures out == Predicted(ScoreRenamed(tree, keyName, rename), keyName, predictionOn)
  {
    out := tree;
    if rename {
      var score := ScoreOf(out);
      if score.Some? {
        var s := score.value;
        if FRAUD in s {
          s := s[keyName := s[FRAUD]];
          s := s - {FRAUD};
        }
        out := WithScore(out, s);
      }
    }
    if PREDICTION !in out || !out[PREDICTION].Obj? {
      return;
    }
    var pred := out[PREDICTION].fields;
    if !predictionOn {
      out := out - {PREDICTION};
    } else if "error" in pred {
      out := out[PREDICTION := Obj(map["error" := Bool(true)])];
    } else if "predicted_score" in pred {
      out := out[PREDICTION := Obj(map[keyName := pred["predicted_score"]])];
    }
  }

  lemma PredictedKeepsSections(tree: Tree, keyName: string, rename: bool, predictionOn: bool)
    ensures var out := Predicted(ScoreRenamed(tree, keyName, rename), keyName, predictionOn);
            SamePart(tree, out, PHONE) && SamePart(tree, out, EMAIL)
  {
    KeysDiffer();
  }

  ghost predicate MetaFree(tree: Tree) {
    ScoreOf(tree).Some? ==> Lacks(Obj(ScoreOf(tree).value), META) && REVERSE !in ScoreOf(tree).value
  }

  function Stripped(tree: Tree): Tree {
    match ScoreOf(tree)
    case Some(score) => WithScore(tree, Remove(Obj(score), META).fields - {REVERSE})
    case None => tree
  }

  // A score that was decoded, whatever else the tree holds.
  predicate ScorePlain(tree: Tree) {
    ScoreOf(tree).Some? ==> PlainTree(ScoreOf(tree).value)
  }

  lemma StrippedIsMetaFree(tree: Tree)
    requires ScorePlain(tree)
    ensures MetaFree(Stripped(tree))
  {
    if ScoreOf(tree).Some? {
      RemoveLeavesNone(Obj(ScoreOf(tree).value), META);
    }
  }

  lemma StrippedElsewhere(tree: Tree)
    ensures Stripped(tree).Keys == tree.Keys
    ensures forall k :: k in tree && k != INTELLIGENCE ==> Stripped(tree)[k] == tree[k]
  {
  }

  method StripScore(tree: Tree) returns (out: Tree)
    ensures out == Stripped(tree)
  {
    out := tree;
    if INTELLIGENCE !in tree || !tree[INTELLIGENCE].Obj? {
      return;
    }
    var id := tree[INTELLIGENCE].fields;
    if SCORE !in id || !id[SCORE].Obj? {
      return;
    }
    var score := Remove(id[SCORE], META).fields;
    score := score - {REVERSE};
    id := id[SCORE := Obj(score)];
    out := out[INTELLIGENCE := Obj(id)];
  }

  lemma StrippedStaysPresentable(sec: Tree, listed: bool, hidden: set<string>, upi: Upi)
    requires Presentable(sec, listed, hidden, upi)
    ensures Presentable(Stripped(sec), listed, hidden, upi)
  {
    StrippedElsewhere(sec);
  }

  function PartStripped(tree: Tree, part: string): Tree {
    if part in tree && tree[part].Obj? then tree[part := Obj(Stripped(tree[part].fields))] else tree
  }

  function MetaStripped(tree: Tree): Tree {
    PartStripped(PartStripped(Stripped(tree), PHONE), EMAIL)
  }

  method CleanupMeta(tree: Tree) returns (out: Tree)
    ensures out == MetaStripped(tree)
  {
    out := StripScore(tree);
    if PHONE in out && out[PHONE].Obj? {
      var sec := StripScore(out[PHONE].fields);
      out := out[PHONE := Obj(sec)];
    }
    if EMAIL in out && out[EMAIL].Obj? {
      var sec := StripScore(out[EMAIL].fields);
      out := out[EMAIL := Obj(sec)];
    }
  }

  lemma MetaStrippedParts(tree: Tree)
    ensures MetaStripped(tree).Keys == tree.Keys && ScoreOf(MetaStripped(tree)) == ScoreOf(Stripped(tree))
    ensures forall part :: part in {PHONE, EMAIL} && part in tree ==>
              MetaStripped(tree)[part] == if tree[part].Obj? then Obj(Stripped(tree[part].fields)) else tree[part]
  {
    KeysDiffer();
    StrippedElsewhere(tree);
  }

  ghost predicate AllScoresPlain(tree: Tree) {
    && ScorePlain(tree)
    && (PHONE in tree && tree[PHONE].Obj? ==> ScorePlain(tree[PHONE].fields))
    && (EMAIL in tree && tree[EMAIL].Obj? ==> ScorePlain(tree[EMAIL].fields))
  }

  // After the strip no meta key is left at any depth of any of the three scores, and of a tree or a section
  // nothing but its intelligence has changed.
  lemma MetaStrippedFacts(tree: Tree)
    requires AllScoresPlain(tree)
    ensures AllMetaFree(MetaStripped(tree)) && MetaStripped(tree).Keys == tree.Keys
    ensures forall k :: k in tree && k != INTELLIGENCE && k != PHONE && k != EMAIL ==> MetaStripped(tree)[k] == tree[k]
    ensures forall part :: part in {PHONE, EMAIL} && part in tree && tree[part].Obj? ==>
              MetaStripped(tree)[part].Obj? && SameBut(tree[part].fields, MetaStripped(tree)[part].fields, INTELLIGENCE)
  {
    KeysDiffer();
    MetaStrippedParts(tree);
    StrippedIsMetaFree(tree);
    StrippedElsewhere(tree);
    forall part | part in {PHONE, EMAIL} && part in tree && tree[part].Obj?
      ensures MetaStripped(tree)[part] == Obj(Stripped(tree[part].fields)) && MetaFree(Stripped(tree[part].fields))
      ensures SameBut(tree[part].fields, Stripped(tree[part].fields), INTELLIGENCE)
    {
      StrippedIsMetaFree(tree[part].fields);
      StrippedElsewhere(tree[part].fields);
    }
  }

  function Cleaned(tree: Tree): Tree {
    Clean(Obj(tree)).fields
  }

  lemma CleanedParts(tree: Tree, part: string)
    ensures part in Cleaned(tree) <==> part in tree && tree[part] != Null
    ensures part in Cleaned(tree) ==> Cleaned(tree)[part] == Clean(tree[part])
                                      && (Cleaned(tree)[part].Obj? <==> tree[part].Obj?)
    ensures part in tree && tree[part].Obj? ==> Cleaned(tree)[part] == Obj(Cleaned(tree[part].fields))
  {
  }

  lemma CleanedExists(v: Node)
    ensures Exists(Clean(v)) <==> Exists(v)
  {
    if v.Obj? {
      CleanedParts(v.fields, USER_EXIST);
    }
  }

  lemma CleanedKeepsProfiles(m: Tree)
    ensures Profiles(Cleaned(m)) == Profiles(m)
  {
    forall n | n in m ensures n in Profiles(Cleaned(m)) <==> n in Profiles(m) {
      CleanedParts(m, n);
      CleanedExists(m[n]);
    }
  }

  lemma CleanedStaysPresentable(sec: Tree, listed: bool, hidden: set<string>, upi: Upi)
    requires Presentable(sec, listed, hidden, upi)
    ensures Presentable(Cleaned(sec), listed, hidden, upi)
  {
    if listed {
      CleanedParts(sec, PRIMARY);
      CleanedParts(sec[PRIMARY].fields, ACCOUNTS);
      CleanedParts(sec[PRIMARY].fields, COUNT);
      CleanedKeepsProfiles(sec[PRIMARY].fields[ACCOUNTS].fields);
    }
  }

  lemma CleanedStaysMetaFree(tree: Tree)
    requires MetaFree(tree)
    ensures MetaFree(Cleaned(tree))
  {
    CleanedParts(tree, INTELLIGENCE);
    if INTELLIGENCE in tree && tree[INTELLIGENCE].Obj? {
      CleanedParts(tree[INTELLIGENCE].fields, SCORE);
      if ScoreOf(tree).Some? {
        CleanKeepsLacking(Obj(ScoreOf(tree).value), META);
      }
    }
  }

  // Whether a part of the response is a section with its accounts in list form.
  predicate Listed(resp: Tree, part: string) {
    part in resp && resp[part].Obj? && AccountList(resp[part].fields).Some?
  }

  ghost predicate SectionReady(tree: Tree, part: string, listed: bool, hidden: set<string>, upi: Upi) {
    part in tree && tree[part].Obj? ==> Presentable(tree[part].fields, listed, hidden, upi)
  }

  // The final cleaning keeps what the earlier steps have established.
  lemma CleanedStaysReady(tree: Tree, part: string, listed: bool, hidden: set<string>, upi: Upi)
    requires SectionReady(tree, part, listed, hidden, upi)
    ensures SectionReady(Cleaned(tree), part, listed, hidden, upi)
    ensures SectionMetaFree(tree, part) ==> SectionMetaFree(Cleaned(tree), part)
  {
    CleanedParts(tree, part);
    if part in tree && tree[part].Obj? {
      CleanedStaysPresentable(tree[part].fields, listed, hidden, upi);
      if MetaFree(tree[part].fields) {
        CleanedStaysMetaFree(tree[part].fields);
      }
    }
  }

  ghost predicate SectionMetaFree(tree: Tree, part: string) {
    part in tree && tree[part].Obj? ==> MetaFree(tree[part].fields)
  }

  function PartViewed(tree: Tree, part: string, hidden: set<string>, upi: Upi): Tree {
    if part in tree && tree[part].Obj? then tree[part := Obj(SectionView(tree[part].fields, hidden, upi))] else tree
  }

  function SectionsViewed(resp: Tree, hidden: set<string>, upi: Upi): Tree {
    PartViewed(PartViewed(resp, PHONE, hidden, upi), EMAIL, hidden, NoUpi)
  }

  ghost predicate Ready(resp: Tree, tree: Tree, hidden: set<string>, upi: Upi) {
    && SectionReady(tree, PHONE, Listed(resp, PHONE), hidden, upi)
    && SectionReady(tree, EMAIL, Listed(resp, EMAIL), hidden, NoUpi)
  }

  ghost predicate AllMetaFree(tree: Tree) {
    MetaFree(tree) && SectionMetaFree(tree, PHONE) && SectionMetaFree(tree, EMAIL)
  }

  lemma CleanedStaysAllReady(resp: Tree, tree: Tree, hidden: set<string>, upi: Upi)
    requires Ready(resp, tree, hidden, upi)
    ensures Ready(resp, Cleaned(tree), hidden, upi)
    ensures AllMetaFree(tree) ==> AllMetaFree(Cleaned(tree))
  {
    CleanedStaysReady(tree, PHONE, Listed(resp, PHONE), hidden, upi);
    CleanedStaysReady(tree, EMAIL, Listed(resp, EMAIL), hidden, NoUpi);
    if AllMetaFree(tree) {
      CleanedStaysMetaFree(tree);
    }
  }

  lemma SamePartsStayReady(resp: Tree, before: Tree, after: Tree, hidden: set<string>, upi: Upi)
    requires Ready(resp, before, hidden, upi) && SamePart(before, after, PHONE) && SamePart(before, after, EMAIL)
    ensures Ready(resp, after, hidden, upi)
  {
  }

  lemma SectionsViewedReady(resp: Tree, hidden: set<string>, upi: Upi)
    ensures Ready(resp, SectionsViewed(resp, hidden, upi), hidden, upi)
  {
    KeysDiffer();
    if PHONE in resp && resp[PHONE].Obj? {
      SectionViewPresentable(resp[PHONE].fields, hidden, upi);
    }
    if EMAIL in resp && resp[EMAIL].Obj? {
      SectionViewPresentable(resp[EMAIL].fields, hidden, NoUpi);
    }
  }

  lemma MetaStrippedReady(resp: Tree, tree: Tree, hidden: set<string>, upi: Upi)
    requires Ready(resp, tree, hidden, upi) && AllScoresPlain(tree)
    ensures Ready(resp, MetaStripped(tree), hidden, upi) && AllMetaFree(MetaStripped(tree))
  {
    MetaStrippedParts(tree);
    MetaStrippedFacts(tree);
    ReadyAfterMeta(tree, MetaStripped(tree), PHONE, Listed(resp, PHONE), hidden, upi);
    ReadyAfterMeta(tree, MetaStripped(tree), EMAIL, Listed(resp, EMAIL), hidden, NoUpi);
  }

  // The tenant's settings for the client response.
  datatype Settings = Settings(hidden: set<string>, upi: Upi, keyName: string, rename: bool, predictionOn: bool)

  // The response before nulls are dropped.
  function Prepared(resp: Tree, c: Settings, metaPresent: bool): Tree {
    var sections := SectionsViewed(resp, c.hidden, c.upi);
    var predicted := Predicted(ScoreRenamed(sections, c.keyName, c.rename), c.keyName, c.predictionOn);
    if metaPresent then predicted else MetaStripped(predicted)
  }

  function ResponseView(resp: Tree, c: Settings, metaPresent: bool): Tree {
    Cleaned(Prepared(resp, c, metaPresent))
  }

  method TransformResponse(resp: Tree, c: Settings, metaPresent: bool) returns (out: Tree)
    ensures out == ResponseView(resp, c, metaPresent)
  {
    out := resp;
    if PHONE in out && out[PHONE].Obj? {
      var sec := TransformSection(out[PHONE].fields, c.hidden, c.upi);
      out := out[PHONE := Obj(sec)];
    }
    if EMAIL in out && out[EMAIL].Obj? {
      var sec := TransformSection(out[EMAIL].fields, c.hidden, NoUpi);
      out := out[EMAIL := Obj(sec)];
    }
    out := CleanupPrediction(out, c.keyName, c.rename, c.predictionOn);
    if !metaPresent {
      out := CleanupMeta(out);
    }
    out := Cleaned(out);
  }

  lemma SectionScore(sec: Tree, hidden: set<string>, upi: Upi)
    ensures ScoreOf(SectionView(sec, hidden, upi)) == ScoreOf(sec)
  {
    var s := sec - {STATIC_DATA};
    assert ScoreOf(s) == ScoreOf(sec);
    if AccountList(s).Some? {
      var m := Accounts(AccountList(s).value, upi);
      DerivedKeepsScore(m, Intelligence(s), upi);
      assert ScoreOf(WithIntelligence(s, m, upi)) == ScoreOf(s);
    }
  }

  lemma DerivedKeepsScore(m: Tree, intel: Tree, upi: Upi)
    ensures SamePart(intel, Derived(m, intel, upi), SCORE)
  {
  }

  lemma SectionsScoresPlain(resp: Decoded, hidden: set<string>, upi: Upi)
    ensures AllScoresPlain(SectionsViewed(resp, hidden, upi))
  {
    KeysDiffer();
    PlainScore(resp);
    assert ScoreOf(SectionsViewed(resp, hidden, upi)) == ScoreOf(resp);
    if PHONE in resp && resp[PHONE].Obj? {
      PlainPart(resp, PHONE);
      PlainScore(resp[PHONE].fields);
      SectionScore(resp[PHONE].fields, hidden, upi);
    }
    if EMAIL in resp && resp[EMAIL].Obj? {
      PlainPart(resp, EMAIL);
      PlainScore(resp[EMAIL].fields);
      SectionScore(resp[EMAIL].fields, hidden, NoUpi);
    }
  }

  lemma PlainPart(t: Tree, k: string)
    requires PlainTree(t) && k in t && t[k].Obj?
    ensures PlainTree(t[k].fields)
  {
    assert Plain(t[k]);
  }

  lemma PlainScore(t: Tree)
    requires PlainTree(t)
    ensures ScorePlain(t)
  {
    if ScoreOf(t).Some? {
      PlainPart(t, INTELLIGENCE);
      PlainPart(t[INTELLIGENCE].fields, SCORE);
    }
  }

  lemma PredictedScoresPlain(tree: Tree, keyName: string, rename: bool, predictionOn: bool)
    requires AllScoresPlain(tree)
    ensures AllScoresPlain(Predicted(ScoreRenamed(tree, keyName, rename), keyName, predictionOn))
  {
    KeysDiffer();
    PredictedKeepsSections(tree, keyName, rename, predictionOn);
    assert ScorePlain(ScoreRenamed(tree, keyName, rename));
  }

  // Main result: whatever the crawl produced, the client's response holds no static data in a section, no
  // account it may not see, a count that agrees with the accounts shown, and, without the meta parameter, no
  // meta key at any depth of a score.
  lemma ClientGuarantees(resp: Decoded, c: Settings, metaPresent: bool)
    ensures var out := ResponseView(resp, c, metaPresent);
            && SectionReady(out, PHONE, Listed(resp, PHONE), c.hidden, c.upi)
            && SectionReady(out, EMAIL, Listed(resp, EMAIL), c.hidden, NoUpi)
            && (!metaPresent ==> MetaFree(out) && SectionMetaFree(out, PHONE) && SectionMetaFree(out, EMAIL))
  {
    var sections := SectionsViewed(resp, c.hidden, c.upi);
    SectionsViewedReady(resp, c.hidden, c.upi);
    var predicted := Predicted(ScoreRenamed(sections, c.keyName, c.rename), c.keyName, c.predictionOn);
    PredictedKeepsSections(sections, c.keyName, c.rename, c.predictionOn);
    SamePartsStayReady(resp, sections, predicted, c.hidden, c.upi);
    if metaPresent {
      CleanedStaysAllReady(resp, predicted, c.hidden, c.upi);
    } else {
      SectionsScoresPlain(resp, c.hidden, c.upi);
      PredictedScoresPlain(sections, c.keyName, c.rename, c.predictionOn);
      MetaStrippedReady(resp, predicted, c.hidden, c.upi);
      CleanedStaysAllReady(resp, MetaStripped(predicted), c.hidden, c.upi);
    }
  }

  // What the client gets for a prediction: nothing where there is none or the tenant has none; a bare error for
  // one that carries an error; else the predicted score alone, under the tenant's key and without its nulls; what
  // holds neither, or is no object, is passed on cleaned.
  lemma ClientPrediction(resp: Tree, c: Settings, metaPresent: bool)
    ensures var out := ResponseView(resp, c, metaPresent);
            && ("prediction" in out <==>
                  "prediction" in resp && resp["prediction"] != Null && (resp["prediction"].Obj? ==> c.predictionOn))
            && ("prediction" in out && resp["prediction"].Obj? ==>
                  var pred := resp["prediction"].fields;
                  && ("error" in pred ==> out["prediction"] == Obj(map["error" := Bool(true)]))
                  && ("error" !in pred && "predicted_score" in pred ==>
                        out["prediction"] == Clean(Obj(map[c.keyName := pred["predicted_score"]]))))
            && ("prediction" in out && !HoldsVerdict(resp["prediction"]) ==>
                  out["prediction"] == Clean(resp["prediction"]))
  {
    KeysDiffer();
    var sections := SectionsViewed(resp, c.hidden, c.upi);
    assert SamePart(resp, sections, PREDICTION);
    var renamed := ScoreRenamed(sections, c.keyName, c.rename);
    assert SamePart(resp, renamed, PREDICTION);
    var predicted := Predicted(renamed, c.keyName, c.predictionOn);
    MetaStrippedElsewhere(predicted, PREDICTION);
    CleanedParts(Prepared(resp, c, metaPresent), PREDICTION);
    assert Clean(FAILED) == FAILED by { assert Clean(FAILED).fields == FAILED.fields; }
  }

  predicate HoldsVerdict(v: Node) {
    v.Obj? && ("error" in v.fields || "predicted_score" in v.fields)
  }

  lemma MetaStrippedElsewhere(tree: Tree, k: string)
    requires k != INTELLIGENCE && k != PHONE && k != EMAIL
    ensures SamePart(tree, MetaStripped(tree), k)
  {
  }

  // The accounts of a section, followed through every later step.
  ghost predicate HoldsAccounts(tree: Tree, part: string, m: Tree) {
    && part in tree && tree[part].Obj? && PRIMARY in tree[part].fields && tree[part].fields[PRIMARY].Obj?
    && ACCOUNTS in tree[part].fields[PRIMARY].fields && tree[part].fields[PRIMARY].fields[ACCOUNTS] == Obj(m)
  }

  lemma CleanedHoldsAccounts(tree: Tree, part: string, m: Tree)
    requires HoldsAccounts(tree, part, m)
    ensures HoldsAccounts(Cleaned(tree), part, Cleaned(m))
  {
    CleanedParts(tree, part);
    CleanedParts(tree[part].fields, PRIMARY);
    CleanedParts(tree[part].fields[PRIMARY].fields, ACCOUNTS);
  }

  lemma MetaStrippedHoldsAccounts(tree: Tree, part: string, m: Tree)
    requires HoldsAccounts(tree, part, m) && (part == PHONE || part == EMAIL)
    ensures HoldsAccounts(MetaStripped(tree), part, m)
  {
    MetaStrippedParts(tree);
    StrippedElsewhere(tree[part].fields);
  }

  lemma SectionsViewedHoldAccounts(resp: Tree, part: string, hidden: set<string>, upi: Upi)
    requires part == PHONE || part == EMAIL
    requires Listed(resp, part)
    ensures var u := if part == PHONE then upi else NoUpi;
            HoldsAccounts(SectionsViewed(resp, hidden, upi), part,
                          Visible(Accounts(AccountList(resp[part].fields).value, u), hidden, u))
  {
    KeysDiffer();
    assert AccountList(resp[part].fields - {STATIC_DATA}) == AccountList(resp[part].fields);
  }

  // End to end: the client sees of a section exactly its visible accounts, each cleaned and otherwise as the
  // crawl (or the UPI mapper) left it.
  lemma ClientSeesVisibleAccounts(resp: Tree, c: Settings, metaPresent: bool, part: string)
    requires (part == PHONE || part == EMAIL) && Listed(resp, part)
    ensures var u := if part == PHONE then c.upi else NoUpi;
            HoldsAccounts(ResponseView(resp, c, metaPresent), part,
                          Cleaned(Visible(Accounts(AccountList(resp[part].fields).value, u), c.hidden, u)))
  {
    var u := if part == PHONE then c.upi else NoUpi;
    var m := Visible(Accounts(AccountList(resp[part].fields).value, u), c.hidden, u);
    var sections := SectionsViewed(resp, c.hidden, c.upi);
    SectionsViewedHoldAccounts(resp, part, c.hidden, c.upi);
    var predicted := Predicted(ScoreRenamed(sections, c.keyName, c.rename), c.keyName, c.predictionOn);
    PredictedKeepsSections(sections, c.keyName, c.rename, c.predictionOn);
    assert HoldsAccounts(predicted, part, m);
    if metaPresent {
      CleanedHoldsAccounts(predicted, part, m);
    } else {
      MetaStrippedHoldsAccounts(predicted, part, m);
      CleanedHoldsAccounts(MetaStripped(predicted), part, m);
    }
  }

  lemma ReadyAfterMeta(before: Tree, after: Tree, part: string, listed: bool, hidden: set<string>, upi: Upi)
    requires SectionReady(before, part, listed, hidden, upi) && before.Keys == after.Keys
    requires part in before ==>
               after[part] == if before[part].Obj? then Obj(Stripped(before[part].fields)) else before[part]
    ensures SectionReady(after, part, listed, hidden, upi)
  {
    if part in before && before[part].Obj? {
      StrippedStaysPresentable(before[part].fields, listed, hidden, upi);
    }
  }
}
