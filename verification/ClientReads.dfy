/** What a client reads at each place of its response, said in terms of the crawled response and the tenant's
    settings alone. */
module ClientReads {
  import opened Base
  import opened ClientView
  import opened JsonTree
  import opened UpiResponse
  import opened UpiView

  /******* The accounts *******/

  // The section lists these accounts.
  predicate Lists(resp: Tree, part: string, list: seq<Node>) {
    Within(Within(Find(resp, part), "primary_data"), "account_details") == Some(Arr(list))
  }

  function AccountRead(out: Tree, part: string, name: string): Option<Node> {
    Within(Within(Within(Find(out, part), "primary_data"), "account_details"), name)
  }

  predicate Named(e: Node, name: string) {
    e.Obj? && "_website" in e.fields && e.fields["_website"] == Str(name)
  }

  ghost predicate LastNamed(list: seq<Node>, i: int, name: string) {
    0 <= i < |list| && Named(list[i], name) && forall j :: i < j < |list| ==> !Named(list[j], name)
  }

  ghost predicate NoneNamed(list: seq<Node>, name: string) {
    forall j :: 0 <= j < |list| ==> !Named(list[j], name)
  }

  // How the section treats UPI; e-mail sections do not.
  function UpiFor(c: Settings, part: string): Upi {
    if part == "phone_data" then c.upi else NoUpi
  }

  lemma NamedIff(list: seq<Node>, name: string)
    requires name != ""
    ensures forall i :: 0 <= i < |list| ==> (NameOf(list[i]) == name <==> Named(list[i], name))
  {
  }

  lemma KeyedLast(list: seq<Node>, i: int, name: string)
    requires name != "" && LastNamed(list, i, name)
    ensures name in Keyed(list) && Keyed(list)[name] == Obj(list[i].fields - {"_website"})
  {
    NamedIff(list, name);
    KeyedFacts(list, name);
    var k :| 0 <= k < |list| && NameOf(list[k]) == name && Keyed(list)[name] == Obj(list[k].fields - {WEBSITE})
             && forall j :: k < j < |list| ==> NameOf(list[j]) != name;
    assert k == i;
  }

  lemma KeyedNone(list: seq<Node>, name: string)
    requires name != "" && NoneNamed(list, name)
    ensures name !in Keyed(list)
  {
    NamedIff(list, name);
    KeyedFacts(list, name);
  }

  lemma ListsIsListed(resp: Tree, part: string, list: seq<Node>)
    requires Lists(resp, part, list)
    ensures Listed(resp, part) && AccountList(resp[part].fields) == Some(list)
  {
  }

  lemma HeldIsRead(out: Tree, part: string, m: Tree, name: string)
    requires HoldsAccounts(out, part, m)
    ensures AccountRead(out, part, name) == Find(m, name)
  {
  }

  lemma ReadIs(resp: Tree, c: Settings, metaPresent: bool, part: string, list: seq<Node>, name: string)
    requires (part == "phone_data" || part == "email_data") && Lists(resp, part, list)
    ensures var u := UpiFor(c, part);
            AccountRead(ResponseView(resp, c, metaPresent), part, name) ==
            CleanOption(Find(Visible(Reshaped(Keyed(list), u), c.hidden, u), name))
  {
    var m := Visible(Accounts(list, UpiFor(c, part)), c.hidden, UpiFor(c, part));
    ListsIsListed(resp, part, list);
    ClientSeesVisibleAccounts(resp, c, metaPresent, part);
    HeldIsRead(ResponseView(resp, c, metaPresent), part, Cleaned(m), name);
    FindCleaned(m, name);
  }

  lemma VisibleIs(m: Tree, hidden: set<string>, u: Upi, name: string)
    requires Untouched(u, name)
    ensures Find(Visible(Reshaped(m, u), hidden, u), name) == if name in hidden then None else Find(m, name)
  {
  }

  // The account is the crawl's own, not one the UPI mapper makes.
  predicate Untouched(u: Upi, name: string) {
    name != "" && name != "UPI" && (name == "PHONEPE" ==> u.NoUpi? || !u.phonepe)
  }

  // Of every website the client reads the last entry that names it, cleaned and without the name, unless the site
  // is hidden or no entry names it.
  lemma AccountReadIff(resp: Tree, c: Settings, metaPresent: bool, part: string, list: seq<Node>, name: string)
    requires (part == "phone_data" || part == "email_data") && Lists(resp, part, list)
    requires Untouched(UpiFor(c, part), name)
    ensures var read := AccountRead(ResponseView(resp, c, metaPresent), part, name);
            && (forall i :: LastNamed(list, i, name) ==>
                  read == if name in c.hidden then None else Some(Clean(Obj(list[i].fields - {"_website"}))))
            && (NoneNamed(list, name) ==> read == None)
  {
    ReadIs(resp, c, metaPresent, part, list, name);
    VisibleIs(Keyed(list), c.hidden, UpiFor(c, part), name);
    if NoneNamed(list, name) {
      KeyedNone(list, name);
    }
    forall i | LastNamed(list, i, name) ensures Find(Keyed(list), name) == Some(Obj(list[i].fields - {"_website"})) {
      KeyedLast(list, i, name);
    }
  }

  // The UPI account is read only in the phone section, and only where the tenant has it for clients.
  lemma UpiReadOnlyWhere(resp: Tree, c: Settings, metaPresent: bool, part: string, list: seq<Node>)
    requires (part == "phone_data" || part == "email_data") && Lists(resp, part, list)
    ensures AccountRead(ResponseView(resp, c, metaPresent), part, "UPI").Some? ==>
              part == "phone_data" && c.upi.WithUpi? && c.upi.clientResponse
  {
    ReadIs(resp, c, metaPresent, part, list, "UPI");
  }

  /******* How many of them exist *******/

  predicate TellsOfUser(v: Node) {
    v.Obj? && "user_exist" in v.fields && v.fields["user_exist"] == Bool(true)
  }

  ghost predicate Counted(accounts: Tree, count: Node) {
    exists found: set<string> :: count == Num(|found| as real)
                                 && forall n :: n in found <==> n in accounts && TellsOfUser(accounts[n])
  }

  // The count is that of the accounts read that tell of a user.
  lemma CountRead(resp: Decoded, c: Settings, metaPresent: bool, part: string, list: seq<Node>)
    requires (part == "phone_data" || part == "email_data") && Lists(resp, part, list)
    ensures var primary := Within(Find(ResponseView(resp, c, metaPresent), part), "primary_data");
            var accounts, count := Within(primary, "account_details"), Within(primary, "social_profile_count");
            accounts.Some? && accounts.value.Obj? && count.Some? && Counted(accounts.value.fields, count.value)
  {
    ListsIsListed(resp, part, list);
    ClientGuarantees(resp, c, metaPresent);
    ClientSeesVisibleAccounts(resp, c, metaPresent, part);
    var u := UpiFor(c, part);
    PresentedIsCounted(ResponseView(resp, c, metaPresent), part, Cleaned(Visible(Accounts(list, u), c.hidden, u)),
                       c.hidden, u);
  }

  lemma PresentedIsCounted(out: Tree, part: string, accounts: Tree, hidden: set<string>, u: Upi)
    requires HoldsAccounts(out, part, accounts) && SectionReady(out, part, true, hidden, u)
    ensures var primary := Within(Find(out, part), "primary_data");
            && Within(primary, "account_details") == Some(Obj(accounts))
            && Within(primary, "social_profile_count").Some?
            && Counted(accounts, Within(primary, "social_profile_count").value)
  {
    var found := Profiles(accounts);
    assert forall n :: n in found <==> n in accounts && TellsOfUser(accounts[n]);
  }

  /******* PhonePe *******/

  // An element of a list of profiles, in either kind of list.
  predicate Element(t: Tree, key: string, p: Tree) {
    key in t && ((t[key].Arr? && Obj(p) in t[key].items) || (t[key].Rows? && Obj(p) in t[key].rows))
  }

  ghost predicate PhonePeSays(raw: Tree, answer: bool) {
    exists p :: Element(raw, "profiles", p) && "app_name" in p && p["app_name"] == Str("PHONEPE") && "error" !in p
                && "user_exist" in p && p["user_exist"] == Bool(answer)
  }

  lemma {:induction false} ObjectsAre(items: seq<Node>, p: Tree)
    ensures p in Objects(items) <==> Obj(p) in items
  {
    if items != [] {
      ObjectsAre(items[1..], p);
      assert items == [items[0]] + items[1..];
    }
  }

  lemma ElementIff(raw: Tree, key: string, p: Tree)
    ensures Element(raw, key, p) <==> p in Ranged(ListAt(raw, key))
  {
    if key in raw && raw[key].Arr? {
      ObjectsAre(raw[key].items, p);
    } else if key in raw && raw[key].Rows? {
      ObjectsAre(raw[key].rows, p);
    }
  }

  lemma SaysIff(raw: Tree, answer: bool)
    ensures PhonePeSays(raw, answer) <==>
            exists i :: 0 <= i < |RawProfiles(raw)| && Answered(RawProfiles(raw)[i], answer)
  {
    var ps := RawProfiles(raw);
    forall p ensures Element(raw, "profiles", p) <==> p in ps { ElementIff(raw, "profiles", p); }
    if i :| 0 <= i < |ps| && Answered(ps[i], answer) {
      assert Element(raw, "profiles", ps[i]);
    }
  }

  function PhonePeVerdict(saysYes: bool, saysNo: bool): Node {
    if saysYes then Obj(map["user_exist" := Bool(true)])
    else if saysNo then Obj(map["user_exist" := Bool(false)])
    else Obj(map["error" := Bool(true)])
  }

  lemma AccountIsVerdict(raw: Tree)
    ensures PhonePeAccount(raw) == PhonePeVerdict(PhonePeSays(raw, true), PhonePeSays(raw, false))
  {
    var ps := Ranged(ListAt(raw, PROFILES));
    assert RawProfiles(raw) == ps;
    SaysIff(raw, true);
    SaysIff(raw, false);
  }

  lemma ReshapedPhonePe(m: Tree, upi: Upi, hidden: set<string>)
    requires "UPI" in m && m["UPI"].Obj? && upi.WithUpi? && upi.phonepe && "PHONEPE" !in hidden
    ensures var raw := m["UPI"].fields;
            Find(Visible(Reshaped(m, upi), hidden, upi), "PHONEPE") ==
            Some(if "error" in raw then FAILED else PhonePeAccount(raw))
  {
    assert |PHONEPE| != |UPI|;
  }

  // The PhonePe account is read off the profiles of the UPI account: a yes of any of them without an error, else a
  // no, else an error, as for a UPI account that failed.
  lemma PhonePeRead(resp: Tree, c: Settings, metaPresent: bool, list: seq<Node>, i: int)
    requires Lists(resp, "phone_data", list) && LastNamed(list, i, "UPI")
    requires c.upi.WithUpi? && c.upi.phonepe && "PHONEPE" !in c.hidden
    ensures var raw := list[i].fields - {"_website"};
            AccountRead(ResponseView(resp, c, metaPresent), "phone_data", "PHONEPE") ==
            Some(PhonePeVerdict("error" !in raw && PhonePeSays(raw, true), "error" !in raw && PhonePeSays(raw, false)))
  {
    var raw := list[i].fields - {"_website"};
    ReadIs(resp, c, metaPresent, "phone_data", list, "PHONEPE");
    KeyedLast(list, i, "UPI");
    ReshapedPhonePe(Keyed(list), c.upi, c.hidden);
    AccountIsVerdict(raw);
    VerdictStaysWhole("error" !in raw && PhonePeSays(raw, true), "error" !in raw && PhonePeSays(raw, false));
    assert FAILED == PhonePeVerdict(false, false);
    assert Keyed(list)["UPI"].fields == raw;
  }

  lemma VerdictStaysWhole(saysYes: bool, saysNo: bool)
    ensures Clean(PhonePeVerdict(saysYes, saysNo)) == PhonePeVerdict(saysYes, saysNo)
  {
    var v := PhonePeVerdict(saysYes, saysNo);
    assert Clean(v).fields == v.fields;
  }

  /******* The rows of verified names *******/

  function ItemsAt(t: Tree, key: string): seq<Node> {
    if key in t && t[key].Arr? then t[key].items else if key in t && t[key].Rows? then t[key].rows else []
  }

  ghost predicate FromEmail(raw: Tree, id: string) {
    id != "" && exists p :: Element(raw, "profiles", p) && Text(p, "match_type") == "email" && Text(p, "vpa") == id
  }

  // The id may be shown: well-formed, or built from an e-mail address, or any where the tenant takes any.
  ghost predicate Passes(raw: Tree, upi: Upi, cfg: Names, id: string)
    requires upi.WithUpi?
  {
    cfg.upiIDs == Yes && (cfg.alphanumericID == Yes || upi.formatOk(id) || FromEmail(raw, id))
  }

  // A row shows of its verified name the name, the ids that pass in their order, and the app, each as the tenant
  // has it.
  ghost predicate RowTells(raw: Tree, vn: Tree, upi: Upi, cfg: Names, row: Node, ids: seq<Node>)
    requires upi.WithUpi?
  {
    && Sieved(if "upi_ids" in vn && vn["upi_ids"].Arr? then vn["upi_ids"].items else [],
              (v: Node) => v.Str? && Passes(raw, upi, cfg, v.s), ids)
    && row.Obj?
    && Find(row.fields, "upi_ids") == (if ids == [] then None else Some(Arr(ids)))
    && Find(row.fields, "name") ==
       (if cfg.name != No && Text(vn, "name") != "" then Some(Str(Text(vn, "name"))) else None)
    && Find(row.fields, "source") ==
       Some(Str(if cfg.encoding == No then Text(vn, "source")
                else if Text(vn, "source") in upi.codes then upi.codes[Text(vn, "source")] else "UNKNOWN"))
    && forall k :: k in row.fields ==> k == "upi_ids" || k == "name" || k == "source"
  }

  ghost predicate RowsTell(raw: Tree, upi: Upi, cfg: Names, objs: seq<Node>, rows: seq<Node>)
    requires upi.WithUpi?
  {
    && Sieved(ItemsAt(raw, "verified_names"), (v: Node) => v.Obj?, objs) && |rows| == |objs|
    && forall i :: 0 <= i < |objs| ==>
         objs[i].Obj? && exists ids :: RowTells(raw, objs[i].fields, upi, cfg, rows[i], ids)
  }

  // What is read for the verified names: nothing, a nil list, or a row for each of them in their order.
  ghost predicate NamesTell(raw: Tree, upi: Upi, read: Option<Node>)
    requires upi.WithUpi?
  {
    if "error" in raw || "verified_names" !in raw then read == None
    else if upi.names.None? || !(raw["verified_names"].Arr? || raw["verified_names"].Rows?) then read == Some(NilRows)
    else exists objs, rows :: RowsTell(raw, upi, upi.names.value, objs, rows) && read == Some(Rows(rows))
  }

  lemma FromEmailIff(raw: Tree, id: string)
    ensures FromEmail(raw, id) <==> id in EmailIds(RawProfiles(raw))
  {
    var ps := RawProfiles(raw);
    forall p ensures Element(raw, "profiles", p) <==> p in ps { ElementIff(raw, "profiles", p); }
    if id in EmailIds(ps) {
      var i :| 0 <= i < |ps| && Text(ps[i], "match_type") == "email" && Text(ps[i], VPA) == id && id != "";
      assert Element(raw, "profiles", ps[i]);
    }
  }

  lemma {:induction false} ObjectsSieved(items: seq<Node>, keep: Node -> bool)
    requires forall v :: keep(v) <==> v.Obj?
    ensures Sieved(items, keep, AsObjects(Objects(items)))
  {
    if items != [] {
      ObjectsSieved(items[1..], keep);
      assert AsObjects(Objects(items))[if items[0].Obj? then 1 else 0..] == AsObjects(Objects(items[1..]));
    }
  }

  function AsObjects(ts: seq<Tree>): seq<Node> {
    seq(|ts|, i requires 0 <= i < |ts| => Obj(ts[i]))
  }

  // The ids that pass, of a list of values.
  function Passing(ids: seq<string>, upi: Upi, cfg: Names, emails: set<string>): seq<string>
    requires upi.WithUpi?
  {
    if cfg.upiIDs != Yes then [] else if cfg.alphanumericID == Yes then ids else Fitting(ids, upi, emails)
  }

  lemma {:induction false} PassingSieved(items: seq<Node>, upi: Upi, cfg: Names, emails: set<string>,
                                         keep: Node -> bool)
    requires upi.WithUpi?
    requires forall v: Node :: keep(v) <==>
               v.Str? && cfg.upiIDs == Yes && (cfg.alphanumericID == Yes || upi.formatOk(v.s) || v.s in emails)
    ensures Sieved(items, keep, Texts(Passing(StringsOf(items), upi, cfg, emails)).items)
  {
    if items != [] {
      PassingSieved(items[1..], upi, cfg, emails, keep);
      var out, rest := Texts(Passing(StringsOf(items), upi, cfg, emails)).items,
                       Texts(Passing(StringsOf(items[1..]), upi, cfg, emails)).items;
      if items[0].Str? {
        assert StringsOf(items)[1..] == StringsOf(items[1..]);
      } else {
        assert StringsOf(items) == StringsOf(items[1..]);
      }
      assert out[if keep(items[0]) then 1 else 0..] == rest;
    }
  }

  lemma RowIs(raw: Tree, vn: Tree, upi: Upi, cfg: Names)
    requires upi.WithUpi?
    ensures exists ids :: RowTells(raw, vn, upi, cfg, Obj(FilteredName(vn, upi, cfg, EmailIds(RawProfiles(raw)))), ids)
  {
    var emails := EmailIds(RawProfiles(raw));
    var items := if "upi_ids" in vn && vn["upi_ids"].Arr? then vn["upi_ids"].items else [];
    var ids := Texts(ListedIds(vn, upi, cfg, emails)).items;
    forall id ensures FromEmail(raw, id) <==> id in emails { FromEmailIff(raw, id); }
    PassingSieved(items, upi, cfg, emails, (v: Node) => v.Str? && Passes(raw, upi, cfg, v.s));
    assert |IDS| == 7 && |NAME| == 4 && |SOURCE| == 6;
    assert RowTells(raw, vn, upi, cfg, Obj(FilteredName(vn, upi, cfg, emails)), ids);
  }

  lemma RowsAre(raw: Tree, upi: Upi)
    requires upi.WithUpi? && upi.names.Some? && "verified_names" in raw && Coerced(raw["verified_names"]).Some?
    ensures var rows := RowsOf(FilteredNames(Coerced(raw["verified_names"]), upi, EmailIds(RawProfiles(raw))));
            RowsTell(raw, upi, upi.names.value, AsObjects(RawNames(raw)), rows)
  {
    ObjectsSieved(ItemsAt(raw, "verified_names"), (v: Node) => v.Obj?);
    forall i | 0 <= i < |RawNames(raw)|
      ensures var emails := EmailIds(RawProfiles(raw));
              exists ids :: RowTells(raw, RawNames(raw)[i], upi, upi.names.value,
                                     Obj(FilteredName(RawNames(raw)[i], upi, upi.names.value, emails)), ids)
    {
      RowIs(raw, RawNames(raw)[i], upi, upi.names.value);
    }
  }

  lemma EntryNamesTell(raw: Tree, upi: Upi)
    requires upi.WithUpi?
    ensures NamesTell(raw, upi, CleanOption(Find(Entry(raw, upi), "verified_names")))
  {
    EntryNames(raw, upi);
    if "error" !in raw && "verified_names" in raw && Coerced(raw["verified_names"]).Some? && upi.names.Some? {
      RowsAre(raw, upi);
    }
  }

  // Main result on verified names: wherever the client reads them, in the UPI account or among the intelligence,
  // they tell exactly this of the raw profile's.
  lemma NamesRead(resp: Tree, c: Settings, metaPresent: bool, list: seq<Node>, i: int)
    requires Lists(resp, "phone_data", list) && LastNamed(list, i, "UPI") && c.upi.WithUpi?
    ensures var out, raw := ResponseView(resp, c, metaPresent), list[i].fields - {"_website"};
            && (c.upi.clientResponse ==>
                  NamesTell(raw, c.upi, Within(AccountRead(out, "phone_data", "UPI"), "verified_names")))
            && (c.upi.namesEnabled ==>
                  var read := Within(Within(Find(out, "phone_data"), "intelligence_data"), "verified_names");
                  if "error" in raw || "verified_names" !in raw then read == Some(Arr([]))
                  else NamesTell(raw, c.upi, read))
  {
    var raw := list[i].fields - {"_website"};
    ListsIsListed(resp, "phone_data", list);
    KeyedLast(list, i, "UPI");
    EntryNamesTell(raw, c.upi);
    FindCleaned(Entry(raw, c.upi), VERIFIED);
    if c.upi.clientResponse {
      ViewUpi(resp, c, metaPresent);
    }
    if c.upi.namesEnabled {
      assert |VERIFIED| != |SCORE|;
      ViewIntel(resp, c, metaPresent, VERIFIED);
      DerivedNames(PhoneAccounts(resp), Intelligence(resp[PHONE].fields), c.upi);
    }
  }

  /******* The score *******/

  function ScoreRead(tree: Tree, key: string): Option<Node> {
    Within(Within(Find(tree, "intelligence_data"), "score"), key)
  }

  // What the client is to read under a key of the score: the fraud score has moved to the tenant's key where the
  // tenant renames it.
  function FromScore(score: Tree, c: Settings, key: string): Option<Node> {
    if !c.rename || "onboarding_fraud_detection" !in score then Find(score, key)
    else if key == "onboarding_fraud_detection" then None
    else if key == c.keyName then Find(score, "onboarding_fraud_detection")
    else Find(score, key)
  }

  function WithoutMeta(o: Option<Node>, key: string, metaPresent: bool): Option<Node> {
    if o.None? || (!metaPresent && (key == "meta" || key == "reverse_model_list")) then None
    else Some(Clean(if metaPresent then o.value else Remove(o.value, "meta")))
  }

  lemma ScoreOfRead(tree: Tree, key: string)
    ensures ScoreRead(tree, key) == match ScoreOf(tree) case Some(score) => Find(score, key) case None => None
  {
  }

  lemma RenamedIs(score: Tree, c: Settings, key: string)
    ensures Find(if c.rename then Renamed(score, c.keyName) else score, key) == FromScore(score, c, key)
  {
  }

  lemma PredictedScore(resp: Tree, c: Settings)
    ensures var sections := SectionsViewed(resp, c.hidden, c.upi);
            ScoreOf(Predicted(ScoreRenamed(sections, c.keyName, c.rename), c.keyName, c.predictionOn)) ==
            match ScoreOf(resp)
            case Some(score) => Some(if c.rename then Renamed(score, c.keyName) else score)
            case None => None
  {
    KeysDiffer();
    assert ScoreOf(SectionsViewed(resp, c.hidden, c.upi)) == ScoreOf(resp);
  }

  lemma StrippedRead(tree: Tree, key: string)
    ensures ScoreRead(MetaStripped(tree), key) ==
            match ScoreRead(tree, key)
            case Some(v) => if key == "meta" || key == "reverse_model_list" then None else Some(Remove(v, "meta"))
            case None => None
  {
    MetaStrippedParts(tree);
    ScoreOfRead(tree, key);
    ScoreOfRead(MetaStripped(tree), key);
    if ScoreOf(tree).Some? {
      RemovedMember(ScoreOf(tree).value, key);
    }
  }

  lemma RemovedMember(score: Tree, key: string)
    ensures Find(Remove(Obj(score), "meta").fields - {"reverse_model_list"}, key) ==
            match Find(score, key)
            case Some(v) => if key == "meta" || key == "reverse_model_list" then None else Some(Remove(v, "meta"))
            case None => None
  {
    if key in score {
      RemoveKeepsTheRest(score[key], "meta", []);
    }
  }

  lemma CleanedScore(tree: Tree, key: string)
    ensures ScoreRead(Cleaned(tree), key) == CleanOption(ScoreRead(tree, key))
  {
    FindCleaned(tree, "intelligence_data");
    WithinCleaned(Find(tree, "intelligence_data"), "score");
    WithinCleaned(Within(Find(tree, "intelligence_data"), "score"), key);
  }

  // Under every key of the score the client reads the value that stood there, or the fraud score moved to it,
  // cleaned and, without the meta parameter, without meta keys.
  lemma ScoreReadIs(resp: Tree, c: Settings, metaPresent: bool, key: string)
    ensures ScoreRead(ResponseView(resp, c, metaPresent), key) ==
            match Within(Find(resp, "intelligence_data"), "score")
            case Some(v) => (if v.Obj? then WithoutMeta(FromScore(v.fields, c, key), key, metaPresent) else None)
            case None => None
  {
    var sections := SectionsViewed(resp, c.hidden, c.upi);
    var predicted := Predicted(ScoreRenamed(sections, c.keyName, c.rename), c.keyName, c.predictionOn);
    PredictedScore(resp, c);
    ScoreOfRead(predicted, key);
    if ScoreOf(resp).Some? {
      RenamedIs(ScoreOf(resp).value, c, key);
    }
    StrippedRead(predicted, key);
    CleanedScore(Prepared(resp, c, metaPresent), key);
  }
}
