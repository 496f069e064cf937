/** When the response a client receives prints a null below its root. The final cleaning does not get into the
    two lists that the UPI mapper keeps in a type of its own, so the answer lies with them. */
module ClientNulls {
  import opened Base
  import opened ClientView
  import opened JsonTree
  import opened UpiResponse

  // What the UPI entry of an account list puts in front of the client prints as a whole: the list of profiles
  // where the entry is shown, the verified names where the entry or the names themselves are.
  ghost predicate UpiPrints(list: seq<Node>, upi: Upi) {
    upi.WithUpi? && UPI in Keyed(list) && Keyed(list)[UPI].Obj? && ERROR !in Keyed(list)[UPI].fields ==>
      var raw := Keyed(list)[UPI].fields;
      && (upi.clientResponse ==> ProfilesPrint(raw))
      && (upi.clientResponse || upi.namesEnabled ==> NamesPrint(raw, upi))
  }

  /******* Accounts *******/

  lemma {:induction false} KeyedPlain(list: seq<Node>)
    requires Plain(Arr(list))
    ensures PlainTree(Keyed(list))
  {
    if list != [] {
      var front, e := list[..|list| - 1], list[|list| - 1];
      assert forall i :: 0 <= i < |front| ==> front[i] == list[i];
      KeyedPlain(front);
      assert Plain(e);
    }
  }

  lemma WholeSwap(t: Tree, k: string, v: Node)
    requires v != NilRows && RowsWhole(v) && (k in t ==> t[k] != NilRows && RowsWhole(t[k]))
    ensures Whole(t[k := v]) <==> Whole(t)
  {
    var out := t[k := v];
    assert forall l :: l in t && l != k ==> out[l] == t[l];
  }

  lemma FailedWhole()
    ensures RowsWhole(FAILED) && Whole(FAILED.fields)
  {
    assert forall k :: k in FAILED.fields ==> FAILED.fields[k] == Bool(true);
  }

  lemma PhonePeWhole(raw: Tree)
    ensures PhonePeAccount(raw) != NilRows && RowsWhole(PhonePeAccount(raw))
  {
    FailedWhole();
    assert forall b, k :: k in map[USER_EXIST := Bool(b)] ==> map[USER_EXIST := Bool(b)][k] == Bool(b);
  }

  // Every shown account but UPI itself was decoded, or made up from plain values.
  lemma OthersWhole(m: Tree, hidden: set<string>, upi: Upi, k: string)
    requires PlainTree(m) && k in Visible(Reshaped(m, upi), hidden, upi)
    requires k != UPI || upi.NoUpi? || !m[UPI].Obj? || ERROR in m[UPI].fields
    ensures var v := Visible(Reshaped(m, upi), hidden, upi)[k];
            v != NilRows && RowsWhole(v)
  {
    var v := Visible(Reshaped(m, upi), hidden, upi)[k];
    FailedWhole();
    if UPI in m && m[UPI].Obj? {
      PhonePeWhole(m[UPI].fields);
      assert v == FAILED || v == PhonePeAccount(m[UPI].fields) || (k in m && v == m[k]);
    }
    if k in m {
      PlainIsWhole(m[k]);
    }
  }

  lemma VisibleWholeIff(m: Tree, hidden: set<string>, upi: Upi)
    requires PlainTree(m)
    ensures Whole(Visible(Reshaped(m, upi), hidden, upi)) <==>
            (upi.WithUpi? && upi.clientResponse && UPI in m && m[UPI].Obj? && ERROR !in m[UPI].fields ==>
               ProfilesPrint(m[UPI].fields) && NamesPrint(m[UPI].fields, upi))
  {
    var shown := Visible(Reshaped(m, upi), hidden, upi);
    var shaped := upi.WithUpi? && UPI in m && m[UPI].Obj? && ERROR !in m[UPI].fields;
    forall k | k in shown && !(shaped && k == UPI) ensures shown[k] != NilRows && RowsWhole(shown[k]) {
      OthersWhole(m, hidden, upi, k);
    }
    if shaped {
      var clean := CleanedProfile(m[UPI].fields, upi);
      PlainPart(m, UPI);
      ReshapedUpi(m, upi);
      CleanedProfileWholeIff(m[UPI].fields, upi);
      assert UPI in shown <==> upi.clientResponse;
      assert UPI in shown ==> shown[UPI] == Obj(clean);
      assert RowsWhole(Obj(clean)) <==> Whole(clean);
    }
  }

  /******* Intelligence *******/

  lemma DerivedWholeIff(m: Tree, intel: Tree, upi: Upi)
    requires PlainTree(m) && PlainTree(intel)
    ensures Whole(Derived(Reshaped(m, upi), intel, upi)) <==>
            (upi.WithUpi? && upi.namesEnabled && UPI in m && m[UPI].Obj? && ERROR !in m[UPI].fields ==>
               NamesPrint(m[UPI].fields, upi))
  {
    PlainTreeIsWhole(intel);
    if upi.WithUpi? && UPI in m && m[UPI].Obj? {
      var raw := m[UPI].fields;
      ReshapedUpi(m, upi);
      var entry := Reshaped(m, upi)[UPI].fields;
      var named := if upi.bankNameDisabled then intel else WithBankName(entry, intel);
      BankNameWhole(entry, intel);
      if upi.namesEnabled {
        NamesWholeIff(raw, entry, named, upi);
      }
    }
  }

  lemma BankNameWhole(entry: Tree, intel: Tree)
    requires Whole(intel)
    ensures Whole(WithBankName(entry, intel))
  {
  }

  lemma NamesWholeIff(raw: Tree, entry: Tree, intel: Tree, upi: Upi)
    requires upi.WithUpi? && Whole(intel)
    requires Obj(entry) == if ERROR in raw then FAILED else Obj(CleanedProfile(raw, upi))
    ensures Whole(WithNames(entry, intel)) <==> ERROR in raw || NamesPrint(raw, upi)
  {
    var ps := Ranged(ListAt(raw, PROFILES));
    if ERROR in raw {
      assert VERIFIED !in entry;
    } else if VERIFIED in raw {
      var v := FilteredNames(Coerced(raw[VERIFIED]), upi, EmailIds(ps));
      assert VERIFIED in entry && entry[VERIFIED] == v;
      FilteredNamesPrint(Coerced(raw[VERIFIED]), upi, EmailIds(ps));
      WholeUpdate(intel, VERIFIED, v);
    } else {
      assert VERIFIED !in Whitelisted(raw) by { assert forall k :: k in KEPT ==> |k| != |VERIFIED|; }
      assert VERIFIED !in entry;
      WholeUpdate(intel, VERIFIED, Arr([]));
    }
  }

  /******* One section *******/

  lemma WithAccountsWhole(pd: Tree, m: Tree)
    requires PlainTree(pd)
    ensures Whole(WithAccounts(pd, m)) <==> Whole(m)
  {
    var out := WithAccounts(pd, m);
    PlainTreeIsWhole(pd);
    assert |ACCOUNTS| != |COUNT|;
    assert out[ACCOUNTS] == Obj(m) && RowsWhole(out[COUNT]);
    assert forall k :: k in out && k != ACCOUNTS && k != COUNT ==> k in pd && out[k] == pd[k];
    assert RowsWhole(Obj(m)) <==> Whole(m);
  }

  lemma TwoUpdatesWhole(s: Tree, k: string, a: Tree, l: string, b: Tree)
    requires Whole(s) && k != l
    ensures Whole(s[k := Obj(a)][l := Obj(b)]) <==> Whole(a) && Whole(b)
  {
    var out := s[k := Obj(a)][l := Obj(b)];
    assert out[k] == Obj(a) && out[l] == Obj(b);
    assert RowsWhole(Obj(a)) <==> Whole(a);
    assert RowsWhole(Obj(b)) <==> Whole(b);
    assert forall j :: j in out && j != k && j != l ==> j in s && out[j] == s[j];
  }

  lemma OneUpdateWhole(s: Tree, k: string, a: Tree)
    requires Whole(s)
    ensures Whole(s[k := Obj(a)]) <==> Whole(a)
  {
    assert Whole(s - {k});
    WholeUpdate(s, k, Obj(a));
    assert RowsWhole(Obj(a)) <==> Whole(a);
  }

  // The two lists that a section shows, its accounts and its intelligence, print exactly when UpiPrints says so.
  lemma ListedWholeIff(list: seq<Node>, intel: Tree, hidden: set<string>, upi: Upi)
    requires Plain(Arr(list)) && PlainTree(intel)
    ensures Whole(Visible(Accounts(list, upi), hidden, upi)) && Whole(Derived(Accounts(list, upi), intel, upi)) <==>
            UpiPrints(list, upi)
  {
    KeyedPlain(list);
    VisibleWholeIff(Keyed(list), hidden, upi);
    DerivedWholeIff(Keyed(list), intel, upi);
  }

  lemma SectionParts(s: Tree)
    requires PlainTree(s) && AccountList(s).Some?
    ensures PlainTree(s[PRIMARY].fields) && Plain(Arr(AccountList(s).value)) && PlainTree(Intelligence(s))
  {
    PlainPart(s, PRIMARY);
    assert Plain(s[PRIMARY].fields[ACCOUNTS]);
    if INTELLIGENCE in s && s[INTELLIGENCE].Obj? {
      PlainPart(s, INTELLIGENCE);
    }
  }

  // A section with these accounts and this intelligence put into it.
  lemma PutTogetherWhole(s: Tree, pd: Tree, shown: Tree, intel: Tree, withIntel: bool)
    requires PlainTree(s) && PlainTree(pd) && (!withIntel ==> Whole(intel))
    ensures var t := if withIntel then s[INTELLIGENCE := Obj(intel)] else s;
            Whole(t[PRIMARY := Obj(WithAccounts(pd, shown))]) <==> Whole(shown) && Whole(intel)
  {
    PlainTreeIsWhole(s);
    WithAccountsWhole(pd, shown);
    if withIntel {
      assert |INTELLIGENCE| != |PRIMARY|;
      TwoUpdatesWhole(s, INTELLIGENCE, intel, PRIMARY, WithAccounts(pd, shown));
    } else {
      OneUpdateWhole(s, PRIMARY, WithAccounts(pd, shown));
    }
  }

  lemma SectionWholeIff(sec: Tree, hidden: set<string>, upi: Upi)
    requires PlainTree(sec)
    ensures Whole(SectionView(sec, hidden, upi)) <==>
            (AccountList(sec).Some? ==> UpiPrints(AccountList(sec).value, upi))
  {
    var s := sec - {STATIC_DATA};
    assert AccountList(s) == AccountList(sec);
    PlainTreeIsWhole(s);
    if AccountList(s).Some? {
      var list := AccountList(s).value;
      SectionParts(s);
      ListedWholeIff(list, Intelligence(s), hidden, upi);
      var m := Accounts(list, upi);
      var intel := Derived(m, Intelligence(s), upi);
      if upi.NoUpi? { PlainTreeIsWhole(intel); }
      PutTogetherWhole(s, s[PRIMARY].fields, Visible(m, hidden, upi), intel, upi.WithUpi? && intel != map[]);
    }
  }

  /******* The whole response *******/

  ghost predicate ResponsePrints(resp: Tree, upi: Upi) {
    Listed(resp, PHONE) ==> UpiPrints(AccountList(resp[PHONE].fields).value, upi)
  }

  lemma PhoneViewedWholeIff(resp: Decoded, hidden: set<string>, upi: Upi)
    ensures Whole(PartViewed(resp, PHONE, hidden, upi)) <==> ResponsePrints(resp, upi)
  {
    PlainTreeIsWhole(resp);
    if PHONE in resp && resp[PHONE].Obj? {
      PlainPart(resp, PHONE);
      SectionWholeIff(resp[PHONE].fields, hidden, upi);
      OneUpdateWhole(resp, PHONE, SectionView(resp[PHONE].fields, hidden, upi));
    }
  }

  lemma EmailViewedWhole(t: Tree, hidden: set<string>)
    requires EMAIL in t ==> Plain(t[EMAIL])
    ensures Whole(PartViewed(t, EMAIL, hidden, NoUpi)) <==> Whole(t)
  {
    if EMAIL in t && t[EMAIL].Obj? {
      var sec := t[EMAIL].fields;
      assert PlainTree(sec);
      var mailed := SectionView(sec, hidden, NoUpi);
      SectionWholeIff(sec, hidden, NoUpi);
      PlainTreeIsWhole(sec);
      assert RowsWhole(Obj(mailed)) <==> Whole(mailed);
      WholeSwap(t, EMAIL, Obj(mailed));
    }
  }

  lemma SectionsWholeIff(resp: Decoded, hidden: set<string>, upi: Upi)
    ensures Whole(SectionsViewed(resp, hidden, upi)) <==> ResponsePrints(resp, upi)
  {
    KeysDiffer();
    PhoneViewedWholeIff(resp, hidden, upi);
    EmailViewedWhole(PartViewed(resp, PHONE, hidden, upi), hidden);
  }

  lemma MemberSwapWhole(t: Tree, k: string, a: Tree)
    requires k in t && t[k].Obj? && (Whole(a) <==> Whole(t[k].fields))
    ensures Whole(t[k := Obj(a)]) <==> Whole(t)
  {
    var out := t[k := Obj(a)];
    assert RowsWhole(Obj(a)) <==> Whole(a);
    assert RowsWhole(t[k]) <==> Whole(t[k].fields);
    assert out[k] == Obj(a) && forall l :: l in t && l != k ==> out[l] == t[l];
  }

  lemma WithScoreWhole(tree: Tree, score: Tree)
    requires ScoreOf(tree).Some? && ScorePlain(tree) && Whole(score)
    ensures Whole(WithScore(tree, score)) <==> Whole(tree)
  {
    var id := tree[INTELLIGENCE].fields;
    PlainTreeIsWhole(ScoreOf(tree).value);
    MemberSwapWhole(id, SCORE, score);
    MemberSwapWhole(tree, INTELLIGENCE, id[SCORE := Obj(score)]);
  }

  lemma StrippedWhole(tree: Tree)
    requires ScorePlain(tree)
    ensures Whole(Stripped(tree)) <==> Whole(tree)
  {
    if ScoreOf(tree).Some? {
      var score := ScoreOf(tree).value;
      RemovePlain(Obj(score), META);
      PlainTreeIsWhole(Remove(Obj(score), META).fields - {REVERSE});
      WithScoreWhole(tree, Remove(Obj(score), META).fields - {REVERSE});
    }
  }

  lemma PredictedWhole(tree: Tree, keyName: string, rename: bool, predictionOn: bool)
    requires ScorePlain(tree) && (PREDICTION in tree ==> Plain(tree[PREDICTION]))
    ensures Whole(Predicted(ScoreRenamed(tree, keyName, rename), keyName, predictionOn)) <==> Whole(tree)
  {
    KeysDiffer();
    var renamed := ScoreRenamed(tree, keyName, rename);
    if rename && ScoreOf(tree).Some? {
      PlainTreeIsWhole(Renamed(ScoreOf(tree).value, keyName));
      WithScoreWhole(tree, Renamed(ScoreOf(tree).value, keyName));
    }
    assert SamePart(tree, renamed, PREDICTION);
    if PREDICTION in tree {
      PlainIsWhole(tree[PREDICTION]);
      PredictionWhole(renamed, keyName, predictionOn);
    }
  }

  lemma PredictionWhole(tree: Tree, keyName: string, predictionOn: bool)
    requires PREDICTION in tree && Plain(tree[PREDICTION])
    ensures Whole(Predicted(tree, keyName, predictionOn)) <==> Whole(tree)
  {
    PlainIsWhole(tree[PREDICTION]);
    FailedWhole();
    if tree[PREDICTION].Obj? {
      var pred := tree[PREDICTION].fields;
      PlainTreeIsWhole(pred);
      if !predictionOn {
        assert forall k :: k in tree && k != PREDICTION ==> (tree - {PREDICTION})[k] == tree[k];
      } else if ERROR in pred {
        WholeSame(tree, PREDICTION, FAILED);
      } else if "predicted_score" in pred {
        var shown: Tree := map[keyName := pred["predicted_score"]];
        assert Whole(shown) && (RowsWhole(Obj(shown)) <==> Whole(shown));
        WholeSame(tree, PREDICTION, Obj(shown));
      }
    }
  }

  lemma WholeSame(t: Tree, k: string, v: Node)
    requires k in t && v != NilRows && t[k] != NilRows && (RowsWhole(v) <==> RowsWhole(t[k]))
    ensures Whole(t[k := v]) <==> Whole(t)
  {
    var out := t[k := v];
    assert out[k] == v;
    assert forall l :: l in t && l != k ==> out[l] == t[l];
  }

  lemma PartStrippedWhole(tree: Tree, part: string)
    requires part in tree && tree[part].Obj? ==> ScorePlain(tree[part].fields)
    ensures Whole(PartStripped(tree, part)) <==> Whole(tree)
  {
    if part in tree && tree[part].Obj? {
      var f := tree[part].fields;
      StrippedWhole(f);
      assert RowsWhole(Obj(Stripped(f))) <==> Whole(Stripped(f));
      assert RowsWhole(tree[part]) <==> Whole(f);
      WholeSame(tree, part, Obj(Stripped(f)));
    }
  }

  lemma MetaStrippedWhole(tree: Tree)
    requires AllScoresPlain(tree)
    ensures Whole(MetaStripped(tree)) <==> Whole(tree)
  {
    KeysDiffer();
    StrippedWhole(tree);
    StrippedElsewhere(tree);
    PartStrippedWhole(Stripped(tree), PHONE);
    PartStrippedWhole(PartStripped(Stripped(tree), PHONE), EMAIL);
  }

  lemma PreparedWholeIff(resp: Decoded, c: Settings, metaPresent: bool)
    ensures Whole(Prepared(resp, c, metaPresent)) <==> ResponsePrints(resp, c.upi)
  {
    KeysDiffer();
    var sections := SectionsViewed(resp, c.hidden, c.upi);
    SectionsWholeIff(resp, c.hidden, c.upi);
    SectionsScoresPlain(resp, c.hidden, c.upi);
    assert SamePart(resp, sections, PREDICTION);
    PredictedWhole(sections, c.keyName, c.rename, c.predictionOn);
    PredictedScoresPlain(sections, c.keyName, c.rename, c.predictionOn);
    if !metaPresent {
      MetaStrippedWhole(Predicted(ScoreRenamed(sections, c.keyName, c.rename), c.keyName, c.predictionOn));
    }
  }

  // Main result: for every decoded response and every setting, the client's response prints without a null
  // below its root exactly when the UPI entry's lists do.
  lemma NoNullIff(resp: Decoded, c: Settings, metaPresent: bool)
    ensures NoNullBelow(Obj(ResponseView(resp, c, metaPresent))) <==> ResponsePrints(resp, c.upi)
  {
    var t := Prepared(resp, c, metaPresent);
    PreparedWholeIff(resp, c, metaPresent);
    CleanNoNullIff(Obj(t));
    assert Clean(Obj(t)) == Obj(Cleaned(t));
    assert RowsWhole(Obj(t)) <==> Whole(t);
  }

  // The crawler leaves out what a profile does not have, so its profiles hold no null; then a suffix among them
  // is all that the list needs.
  lemma CrawledProfilesPrintIff(raw: Tree)
    requires PlainTree(raw) && (PROFILES in raw ==> NoNullBelow(raw[PROFILES]))
    ensures var ps := Ranged(ListAt(raw, PROFILES));
            ProfilesPrint(raw) <==> exists i :: 0 <= i < |ps| && Text(ps[i], SUFFIX) != ""
  {
    if PROFILES in raw && raw[PROFILES].Arr? {
      ObjectsPrint(raw[PROFILES].items);
    }
  }

  lemma {:induction false} ObjectsPrint(items: seq<Node>)
    requires NoNullBelow(Arr(items))
    ensures forall i :: 0 <= i < |Objects(items)| ==> Prints(Objects(items)[i])
  {
    if items != [] {
      assert forall i :: 0 <= i < |items[1..]| ==> items[1..][i] == items[i + 1];
      ObjectsPrint(items[1..]);
      assert NoNullBelow(items[0]);
    }
  }

  lemma PlainUpdate(t: Tree, k: string, v: Node)
    requires PlainTree(t) && Plain(v)
    ensures PlainTree(t[k := v])
  {
  }

  // The entry the crawler builds of a PhonePe answer alone, when the number is not known there.
  const PHONEPE_PROFILE := Obj(map[SOURCE := Str(PHONEPE), SUFFIX := Str(""), USER_EXIST := Bool(false)])

  const PHONEPE_ONLY := Obj(map[
    WEBSITE := Str(UPI), USER_EXIST := Bool(false),
    VERIFIED := Arr([]), PROFILES := Arr([PHONEPE_PROFILE])])

  lemma PhonePeOnlyPlain()
    ensures Plain(PHONEPE_ONLY)
  {
    assert Plain(PHONEPE_PROFILE) && Plain(Arr([PHONEPE_PROFILE])) && Plain(Arr([]));
    var a: Tree := map[WEBSITE := Str(UPI)];
    var b := a[USER_EXIST := Bool(false)];
    var d := b[VERIFIED := Arr([])];
    PlainUpdate(map[], WEBSITE, Str(UPI));
    PlainUpdate(a, USER_EXIST, Bool(false));
    PlainUpdate(b, VERIFIED, Arr([]));
    PlainUpdate(d, PROFILES, Arr([PHONEPE_PROFILE]));
    assert PHONEPE_ONLY.fields == d[PROFILES := Arr([PHONEPE_PROFILE])];
  }

  lemma PhonePeOnlyKeyed()
    ensures Keyed([PHONEPE_ONLY]) == map[UPI := Obj(PHONEPE_ONLY.fields - {WEBSITE})]
    ensures ERROR !in PHONEPE_ONLY.fields && !ProfilesPrint(PHONEPE_ONLY.fields - {WEBSITE})
  {
    assert |ERROR| == 5 && |WEBSITE| == 8 && |USER_EXIST| == 10 && |VERIFIED| == 14 && |PROFILES| == 8;
    assert PROFILES[0] == 'p' && WEBSITE[0] == '_';
    assert [PHONEPE_ONLY][..0] == [] && NameOf(PHONEPE_ONLY) == UPI;
    var raw := PHONEPE_ONLY.fields - {WEBSITE};
    assert raw[PROFILES] == Arr([PHONEPE_PROFILE]);
    assert Objects([PHONEPE_PROFILE]) == [PHONEPE_PROFILE.fields] by { assert [PHONEPE_PROFILE][1..] == []; }
    assert ListAt(raw, PROFILES) == Some([PHONEPE_PROFILE.fields]) && Text(PHONEPE_PROFILE.fields, SUFFIX) == "";
  }

  function Listing(entry: Node): Tree {
    map[PHONE := Obj(map[PRIMARY := Obj(map[ACCOUNTS := Arr([entry])])])]
  }

  lemma ListingFacts(entry: Node)
    requires Plain(entry)
    ensures PlainTree(Listing(entry))
    ensures Listed(Listing(entry), PHONE) && AccountList(Listing(entry)[PHONE].fields) == Some([entry])
  {
    var pd: Tree := map[ACCOUNTS := Arr([entry])];
    var sec: Tree := map[PRIMARY := Obj(pd)];
    assert Plain(Arr([entry])) && PlainTree(pd) && Plain(Obj(pd)) && PlainTree(sec) && Plain(Obj(sec));
  }

  // A PhonePe answer has no suffix: shown alone, its list of profiles prints as null.
  lemma PhonePeAlonePrintsNull(c: Settings, metaPresent: bool)
    requires c.upi.WithUpi? && c.upi.clientResponse
    ensures PlainTree(Listing(PHONEPE_ONLY))
    ensures !NoNullBelow(Obj(ResponseView(Listing(PHONEPE_ONLY), c, metaPresent)))
  {
    PhonePeOnlyPlain();
    PhonePeOnlyKeyed();
    ListingFacts(PHONEPE_ONLY);
    NoNullIff(Listing(PHONEPE_ONLY), c, metaPresent);
  }
}
