/** What a client may learn of the raw UPI profile: which of its members, profiles and ids reach the response,
    and what the section's intelligence says about the verified name. */
module UpiView {
  import opened Base
  import opened ClientView
  import opened JsonTree
  import opened UpiResponse

  /******* The raw profile and what the response holds of it *******/

  function PhoneAccounts(resp: Tree): Tree
    requires Listed(resp, PHONE)
  {
    Keyed(AccountList(resp[PHONE].fields).value)
  }

  // The phone section lists a UPI account.
  predicate HasUpi(resp: Tree) {
    Listed(resp, PHONE) && UPI in PhoneAccounts(resp) && PhoneAccounts(resp)[UPI].Obj?
  }

  function RawUpi(resp: Tree): Tree
    requires HasUpi(resp)
  {
    PhoneAccounts(resp)[UPI].fields
  }

  function RawProfiles(raw: Tree): seq<Tree> { Ranged(ListAt(raw, PROFILES)) }

  function RawNames(raw: Tree): seq<Tree> { Ranged(ListAt(raw, VERIFIED)) }

  // A member that is there and not null.
  function Find(t: Tree, key: string): Option<Node> {
    if key in t && t[key] != Null then Some(t[key]) else None
  }

  function Within(o: Option<Node>, key: string): Option<Node> {
    if o.Some? && o.value.Obj? then Find(o.value.fields, key) else None
  }

  // The UPI account that the phone section of a response shows.
  function ShownUpi(out: Tree): Option<Node> {
    Within(Within(Within(Find(out, "phone_data"), "primary_data"), "account_details"), "UPI")
  }

  // A member of the phone section's intelligence.
  function IntelAt(out: Tree, key: string): Option<Node> {
    Within(Within(Find(out, "phone_data"), "intelligence_data"), key)
  }

  lemma FindCleaned(t: Tree, key: string)
    ensures Find(Cleaned(t), key) == CleanOption(Find(t, key))
  {
    CleanedParts(t, key);
    if Find(t, key).Some? {
      CleanReachesNone(t[key]);
    }
  }

  lemma WithinCleaned(o: Option<Node>, key: string)
    ensures Within(CleanOption(o), key) == CleanOption(Within(o, key))
  {
    if o.Some? && o.value.Obj? {
      FindCleaned(o.value.fields, key);
    }
  }

  /******* The intelligence on its way to the client *******/

  lemma MetaStrippedIntel(tree: Tree, key: string)
    requires key != SCORE
    ensures IntelAt(MetaStripped(tree), key) == IntelAt(tree, key)
  {
    MetaStrippedParts(tree);
    if PHONE in tree && tree[PHONE].Obj? {
      StrippedElsewhere(tree[PHONE].fields);
    }
  }

  lemma PreparedIntel(resp: Tree, c: Settings, metaPresent: bool, key: string)
    requires key != SCORE
    ensures IntelAt(Prepared(resp, c, metaPresent), key) == IntelAt(SectionsViewed(resp, c.hidden, c.upi), key)
  {
    var sections := SectionsViewed(resp, c.hidden, c.upi);
    var predicted := Predicted(ScoreRenamed(sections, c.keyName, c.rename), c.keyName, c.predictionOn);
    PredictedKeepsSections(sections, c.keyName, c.rename, c.predictionOn);
    if !metaPresent {
      MetaStrippedIntel(predicted, key);
    }
  }

  lemma SectionIntel(sec: Tree, list: seq<Node>, hidden: set<string>, upi: Upi, key: string)
    requires AccountList(sec) == Some(list) && upi.WithUpi?
    ensures Find(Intelligence(SectionView(sec, hidden, upi)), key) ==
            Find(Derived(Reshaped(Keyed(list), upi), Intelligence(sec), upi), key)
  {
    var s := sec - {STATIC_DATA};
    assert AccountList(s) == Some(list) && Intelligence(s) == Intelligence(sec);
  }

  lemma IntelOf(tree: Tree, sec: Tree, key: string)
    requires PHONE in tree && tree[PHONE] == Obj(sec)
    ensures IntelAt(tree, key) == Find(Intelligence(sec), key)
  {
  }

  lemma SectionsIntel(resp: Tree, hidden: set<string>, upi: Upi, key: string)
    requires HasUpi(resp) && upi.WithUpi?
    ensures IntelAt(SectionsViewed(resp, hidden, upi), key) ==
            Find(Derived(Reshaped(PhoneAccounts(resp), upi), Intelligence(resp[PHONE].fields), upi), key)
  {
    KeysDiffer();
    var sec := resp[PHONE].fields;
    IntelOf(SectionsViewed(resp, hidden, upi), SectionView(sec, hidden, upi), key);
    SectionIntel(sec, AccountList(sec).value, hidden, upi, key);
  }

  lemma ViewIntel(resp: Tree, c: Settings, metaPresent: bool, key: string)
    requires HasUpi(resp) && c.upi.WithUpi? && key != SCORE
    ensures IntelAt(ResponseView(resp, c, metaPresent), key) ==
            var m := Reshaped(PhoneAccounts(resp), c.upi);
            CleanOption(Find(Derived(m, Intelligence(resp[PHONE].fields), c.upi), key))
  {
    var t := Prepared(resp, c, metaPresent);
    PreparedIntel(resp, c, metaPresent, key);
    SectionsIntel(resp, c.hidden, c.upi, key);
    FindCleaned(t, PHONE);
    WithinCleaned(Find(t, PHONE), INTELLIGENCE);
    WithinCleaned(Within(Find(t, PHONE), INTELLIGENCE), key);
  }

  /******* The verdict on the verified name *******/

  // The status a raw profile calls for; none where it has a name that is no text, or an empty one.
  function StatusOf(raw: Tree): Option<string> {
    if ERROR in raw then Some("error")
    else if NAME !in raw || (USER_EXIST in raw && raw[USER_EXIST] == Bool(false)) then Some("not-found")
    else if Text(raw, NAME) != "" then Some("found")
    else None
  }

  predicate Says(o: Option<Node>, text: string) { o == Some(Str(text)) }

  lemma EntryMember(raw: Tree, upi: Upi, k: string)
    requires upi.WithUpi? && k in KEPT
    ensures k in CleanedProfile(raw, upi) <==> k in raw
    ensures k in raw ==> CleanedProfile(raw, upi)[k] == raw[k]
  {
    assert k != PROFILES && k != VERIFIED by { KeptKeys(k); }
  }

  lemma KeptKeys(k: string)
    ensures k in KEPT <==> k == USER_EXIST || k == SUFFIX || k == VPA || k == NAME
    ensures k in KEPT ==> k != PROFILES && k != VERIFIED && k != ERROR
  {
    assert KEPT[0] == USER_EXIST && KEPT[1] == SUFFIX && KEPT[2] == VPA && KEPT[3] == NAME;
    assert |PROFILES| == 8 && |VERIFIED| == 14 && |USER_EXIST| == 10 && |SUFFIX| == 6 && |VPA| == 3 && |NAME| == 4;
  }

  lemma EntryLacksError(raw: Tree, upi: Upi)
    requires upi.WithUpi?
    ensures ERROR !in CleanedProfile(raw, upi)
  {
    KeptKeys(ERROR);
    assert |ERROR| == 5 && |PROFILES| == 8 && |VERIFIED| == 14;
  }

  lemma BankNameFacts(raw: Tree, upi: Upi, intel: Tree)
    requires upi.WithUpi?
    ensures var out := WithBankName(Entry(raw, upi), intel);
            && Find(out, NAMES_STATUS) == (match StatusOf(raw) case Some(s) => Some(Str(s))
                                                               case None => Find(intel, NAMES_STATUS))
            && Find(out, BANK_NAME) == if ERROR !in raw && Text(raw, NAME) != "" then Some(Str(Text(raw, NAME)))
                                       else Find(intel, BANK_NAME)
  {
    assert |NAMES_STATUS| != |BANK_NAME|;
    KeptKeys(NAME);
    KeptKeys(USER_EXIST);
    if ERROR in raw {
      assert |ERROR| != |NAME| && NAME !in FAILED.fields;
    } else {
      EntryMember(raw, upi, NAME);
      EntryMember(raw, upi, USER_EXIST);
      EntryLacksError(raw, upi);
    }
  }

  lemma DerivedStatus(m: Tree, intel: Tree, upi: Upi, key: string)
    requires upi.WithUpi? && UPI in m && m[UPI].Obj? && key != VERIFIED
    ensures Find(Derived(Reshaped(m, upi), intel, upi), key) ==
            Find(if upi.bankNameDisabled then intel else WithBankName(Entry(m[UPI].fields, upi), intel), key)
  {
    ReshapedUpi(m, upi);
  }

  // Main result on the verified name. For every response that lists a UPI account and every tenant that has the
  // name on: the status the client reads is the one the raw profile calls for, and the name it reads is the
  // profile's; where the profile calls for none, both are what the crawl had left.
  lemma NameVerdictIff(resp: Tree, c: Settings, metaPresent: bool, text: string)
    requires HasUpi(resp) && c.upi.WithUpi?
    ensures var out, raw, left := ResponseView(resp, c, metaPresent), RawUpi(resp), Intelligence(resp[PHONE].fields);
            && (Says(IntelAt(out, NAMES_STATUS), text) <==>
                  if !c.upi.bankNameDisabled && StatusOf(raw).Some? then StatusOf(raw) == Some(text)
                  else Says(Find(left, NAMES_STATUS), text))
            && (Says(IntelAt(out, BANK_NAME), text) <==>
                  if !c.upi.bankNameDisabled && ERROR !in raw && Text(raw, NAME) != "" then Text(raw, NAME) == text
                  else Says(Find(left, BANK_NAME), text))
  {
    assert |VERIFIED| != |NAMES_STATUS| && |VERIFIED| != |BANK_NAME| && |SCORE| == 5;
    var m, intel := PhoneAccounts(resp), Intelligence(resp[PHONE].fields);
    ViewIntel(resp, c, metaPresent, NAMES_STATUS);
    ViewIntel(resp, c, metaPresent, BANK_NAME);
    DerivedStatus(m, intel, c.upi, NAMES_STATUS);
    DerivedStatus(m, intel, c.upi, BANK_NAME);
    BankNameFacts(RawUpi(resp), c.upi, intel);
    CleanSays(Find(Derived(Reshaped(m, c.upi), intel, c.upi), NAMES_STATUS), text);
    CleanSays(Find(Derived(Reshaped(m, c.upi), intel, c.upi), BANK_NAME), text);
  }

  lemma CleanSays(o: Option<Node>, text: string)
    ensures Says(CleanOption(o), text) <==> Says(o, text)
  {
  }

  /******* The members of the shown entry *******/

  function RowsOf(v: Node): seq<Node> { if v.Rows? then v.rows else [] }

  function SuffixOf(row: Node): string { if row.Obj? then Text(row.fields, SUFFIX) else "" }

  ghost predicate DistinctRows(rows: seq<Node>) {
    forall i, j :: 0 <= i < j < |rows| ==> SuffixOf(rows[i]) != SuffixOf(rows[j])
  }

  // Every suffix of the raw profiles has one row.
  ghost predicate OneRowPerSuffix(rows: seq<Node>, ps: seq<Tree>) {
    && (forall r :: r in rows ==> SuffixOf(r) != "")
    && DistinctRows(rows)
    && (forall i :: 0 <= i < |ps| && Text(ps[i], "suffix") != "" ==>
          exists r :: r in rows && SuffixOf(r) == Text(ps[i], "suffix"))
  }

  // It is that of the first profile to carry the suffix, trimmed to the four members a client may know; the rows
  // come in the order of those profiles.
  ghost predicate RowsFrom(ps: seq<Tree>, n: nat, rows: seq<Node>)
    requires n <= |ps|
  {
    if n == 0 then rows == []
    else if Text(ps[n - 1], "suffix") != "" && NoneCarries(ps[..n - 1], Text(ps[n - 1], "suffix")) then
      rows != [] && TrimOf(rows[|rows| - 1], ps[n - 1]) && RowsFrom(ps, n - 1, rows[..|rows| - 1])
    else RowsFrom(ps, n - 1, rows)
  }

  predicate NoneCarries(ps: seq<Tree>, suffix: string) {
    forall i :: 0 <= i < |ps| ==> Text(ps[i], "suffix") != suffix
  }

  predicate ForClients(k: string) { k == "user_exist" || k == "suffix" || k == "vpa" || k == "name" }

  ghost predicate TrimOf(row: Node, p: Tree) {
    && row.Obj? && (forall k :: k in row.fields ==> ForClients(k))
    && forall k :: ForClients(k) ==> Find(row.fields, k) == Find(p, k)
  }

  lemma WhitelistedIsTrim(p: Tree)
    ensures TrimOf(Obj(Whitelisted(p)), p)
  {
    forall k ensures k in KEPT <==> ForClients(k) { KeptKeys(k); }
  }

  lemma {:induction false} KeptRowsFrom(ps: seq<Tree>, n: nat)
    requires n <= |ps|
    ensures RowsFrom(ps, n, KeptRows(ps, n))
  {
    if n > 0 {
      KeptRowsFrom(ps, n - 1);
      WhitelistedIsTrim(ps[n - 1]);
      var front, row := KeptRows(ps, n - 1), Obj(Whitelisted(ps[n - 1]));
      assert (front + [row])[..|front|] == front && front + [] == front;
      assert FirstOfSuffix(ps, n - 1) <==>
             Text(ps[n - 1], "suffix") != "" && NoneCarries(ps[..n - 1], Text(ps[n - 1], "suffix"));
    }
  }

  lemma {:induction false} FirstCarrier(ps: seq<Tree>, i: nat) returns (j: nat)
    requires i < |ps| && Text(ps[i], SUFFIX) != ""
    ensures j <= i && FirstOfSuffix(ps, j) && Text(ps[j], SUFFIX) == Text(ps[i], SUFFIX)
  {
    j := i;
    if !FirstOfSuffix(ps, i) {
      var k: nat :| k < i && Text(ps[k], SUFFIX) == Text(ps[i], SUFFIX);
      j := FirstCarrier(ps, k);
    }
  }

  lemma TrimmedSuffix(p: Tree)
    ensures SuffixOf(Obj(Whitelisted(p))) == Text(p, SUFFIX)
    ensures forall k :: k in KEPT ==> Find(Whitelisted(p), k) == Find(p, k)
  {
    KeptKeys(SUFFIX);
  }

  lemma DistinctSnoc(rows: seq<Node>, r: Node)
    requires DistinctRows(rows) && forall i :: 0 <= i < |rows| ==> SuffixOf(rows[i]) != SuffixOf(r)
    ensures DistinctRows(rows + [r])
  {
  }

  lemma {:induction false} RowsDistinct(ps: seq<Tree>, n: nat)
    requires n <= |ps|
    ensures DistinctRows(KeptRows(ps, n))
  {
    if n > 0 {
      RowsDistinct(ps, n - 1);
      var front, last := KeptRows(ps, n - 1), Obj(Whitelisted(ps[n - 1]));
      if FirstOfSuffix(ps, n - 1) {
        TrimmedSuffix(ps[n - 1]);
        forall i | 0 <= i < |front| ensures SuffixOf(front[i]) != SuffixOf(last) {
          var k := KeptRowsCome(ps, n - 1, front[i]);
          TrimmedSuffix(ps[k]);
        }
        DistinctSnoc(front, last);
      } else {
        assert KeptRows(ps, n) == front;
      }
    }
  }

  lemma RowsFacts(ps: seq<Tree>)
    ensures OneRowPerSuffix(KeptRows(ps, |ps|), ps)
  {
    var rows := KeptRows(ps, |ps|);
    RowsDistinct(ps, |ps|);
    forall r | r in rows ensures SuffixOf(r) != "" {
      var i := KeptRowsCome(ps, |ps|, r);
      TrimmedSuffix(ps[i]);
    }
    forall i | 0 <= i < |ps| && Text(ps[i], SUFFIX) != ""
      ensures exists r :: r in rows && SuffixOf(r) == Text(ps[i], SUFFIX)
    {
      var j := FirstCarrier(ps, i);
      KeptRowsHave(ps, |ps|, j);
      TrimmedSuffix(ps[j]);
    }
  }

  // The entry holds the raw profile's four members as they are, its profiles one row a suffix, its verified names
  // if it has any, and nothing else.
  ghost predicate TellsOnly(raw: Tree, entry: Tree) {
    && (forall k :: k in entry ==> ForClients(k) || k == "profiles" || k == "verified_names")
    && (forall k :: ForClients(k) ==> Find(entry, k) == CleanOption(Find(raw, k)))
    && (exists rows :: Find(entry, "profiles") == Some(if rows == [] then NilRows else Rows(rows))
                       && RowsFrom(RawProfiles(raw), |RawProfiles(raw)|, rows)
                       && OneRowPerSuffix(rows, RawProfiles(raw)))
    && ("verified_names" in entry <==> "verified_names" in raw)
  }

  lemma AccountOf(out: Tree, m: Tree)
    requires HoldsAccounts(out, PHONE, m)
    ensures ShownUpi(out) == Find(m, UPI)
  {
  }

  lemma ViewUpi(resp: Tree, c: Settings, metaPresent: bool)
    requires HasUpi(resp) && c.upi.WithUpi? && c.upi.clientResponse
    ensures ShownUpi(ResponseView(resp, c, metaPresent)) == Some(Obj(Cleaned(Entry(RawUpi(resp), c.upi))))
  {
    var m := Visible(Accounts(AccountList(resp[PHONE].fields).value, c.upi), c.hidden, c.upi);
    ClientSeesVisibleAccounts(resp, c, metaPresent, PHONE);
    AccountOf(ResponseView(resp, c, metaPresent), Cleaned(m));
    ReshapedUpi(PhoneAccounts(resp), c.upi);
    FindCleaned(m, UPI);
  }

  lemma CleanedMember(raw: Tree, upi: Upi, k: string)
    requires upi.WithUpi? && ERROR !in raw
    ensures k in KEPT ==> Find(Cleaned(CleanedProfile(raw, upi)), k) == CleanOption(Find(raw, k))
    ensures k in Cleaned(CleanedProfile(raw, upi)) ==> k in KEPT || k == PROFILES || k == VERIFIED
  {
    FindCleaned(CleanedProfile(raw, upi), k);
    if k in KEPT {
      EntryMember(raw, upi, k);
    }
  }

  lemma CleanedLists(raw: Tree, upi: Upi)
    requires upi.WithUpi? && ERROR !in raw
    ensures var ps, out := RawProfiles(raw), Cleaned(CleanedProfile(raw, upi));
            PROFILES in out && out[PROFILES] == AsRows(KeptRows(ps, |ps|)) && (VERIFIED in out <==> VERIFIED in raw)
  {
    var entry := CleanedProfile(raw, upi);
    KeptKeys(VERIFIED);
    assert |PROFILES| != |VERIFIED|;
    CleanedParts(entry, PROFILES);
    CleanedParts(entry, VERIFIED);
  }

  lemma CleanedEntry(raw: Tree, upi: Upi)
    requires upi.WithUpi? && ERROR !in raw
    ensures TellsOnly(raw, Cleaned(CleanedProfile(raw, upi)))
  {
    var ps := RawProfiles(raw);
    CleanedLists(raw, upi);
    RowsFacts(ps);
    KeptRowsFrom(ps, |ps|);
    var rows := KeptRows(ps, |ps|);
    assert Find(Cleaned(CleanedProfile(raw, upi)), "profiles") == Some(if rows == [] then NilRows else Rows(rows));
    forall k
      ensures ForClients(k) ==> Find(Cleaned(CleanedProfile(raw, upi)), k) == CleanOption(Find(raw, k))
      ensures k in Cleaned(CleanedProfile(raw, upi)) ==> ForClients(k) || k == PROFILES || k == VERIFIED
    {
      KeptKeys(k);
      CleanedMember(raw, upi, k);
    }
  }

  // A bare error for an error, else nothing of the raw profile but what TellsOnly allows.
  ghost predicate ShowsProperly(raw: Tree, shown: Node) {
    if "error" in raw then shown == Obj(map["error" := Bool(true)]) else shown.Obj? && TellsOnly(raw, shown.fields)
  }

  lemma CleanedShowsProperly(raw: Tree, upi: Upi)
    requires upi.WithUpi?
    ensures ShowsProperly(raw, Obj(Cleaned(Entry(raw, upi))))
  {
    if ERROR in raw {
      assert Obj(FAILED.fields) == FAILED;
      assert Clean(FAILED).fields == FAILED.fields;
    } else {
      CleanedEntry(raw, upi);
    }
  }

  // Main result on the entry, for every response that lists a UPI account and every tenant that shows it.
  lemma ShownEntryFacts(resp: Tree, c: Settings, metaPresent: bool)
    requires HasUpi(resp) && c.upi.WithUpi? && c.upi.clientResponse
    ensures var shown := ShownUpi(ResponseView(resp, c, metaPresent));
            shown.Some? && ShowsProperly(RawUpi(resp), shown.value)
  {
    ViewUpi(resp, c, metaPresent);
    CleanedShowsProperly(RawUpi(resp), c.upi);
  }

  /******* The ids shown *******/

  // A list of verified names that shows the id.
  ghost predicate ShowsId(o: Option<Node>, id: string) {
    o.Some? && exists r :: r in RowsOf(o.value) && HoldsId(r, id)
  }

  predicate HoldsId(row: Node, id: string) {
    row.Obj? && IDS in row.fields && row.fields[IDS].Arr? && Str(id) in row.fields[IDS].items
  }

  predicate RawHoldsId(vn: Tree, id: string) {
    IDS in vn && id in Strings(vn[IDS])
  }

  // The tenant asks for ids, the raw profile has this one under some name, and it is well-formed, or built from an
  // e-mail address, or the tenant takes ids of any form.
  ghost predicate MayShow(raw: Tree, upi: Upi, id: string)
    requires upi.WithUpi?
  {
    && ERROR !in raw && upi.names.Some? && upi.names.value.upiIDs == Yes
    && (exists i :: 0 <= i < |RawNames(raw)| && RawHoldsId(RawNames(raw)[i], id))
    && (upi.names.value.alphanumericID == Yes || upi.formatOk(id) || id in EmailIds(RawProfiles(raw)))
  }

  lemma {:induction false} FittingIff(ids: seq<string>, upi: Upi, emails: set<string>, id: string)
    requires upi.WithUpi?
    ensures id in Fitting(ids, upi, emails) <==> id in ids && (upi.formatOk(id) || id in emails)
  {
    if ids != [] {
      FittingIff(ids[1..], upi, emails, id);
      assert ids == [ids[0]] + ids[1..];
    }
  }

  lemma InTexts(ids: seq<string>, id: string)
    ensures Str(id) in Texts(ids).items <==> id in ids
  {
    if id in ids {
      var i :| 0 <= i < |ids| && ids[i] == id;
      assert Texts(ids).items[i] == Str(id);
    }
  }

  lemma NameRowIds(vn: Tree, upi: Upi, cfg: Names, emails: set<string>, id: string)
    requires upi.WithUpi?
    ensures HoldsId(Obj(FilteredName(vn, upi, cfg, emails)), id) <==>
            cfg.upiIDs == Yes && RawHoldsId(vn, id) &&
            (cfg.alphanumericID == Yes || upi.formatOk(id) || id in emails)
  {
    var ids := ListedIds(vn, upi, cfg, emails);
    assert |IDS| == 7 && |NAME| == 4 && |SOURCE| == 6;
    InTexts(ids, id);
    if IDS in vn {
      FittingIff(Strings(vn[IDS]), upi, emails, id);
    }
  }

  // Some name among the rows shows the id exactly when it stands under some name and passes.
  lemma RowsShowIff(vns: seq<Tree>, upi: Upi, emails: set<string>, id: string)
    requires upi.WithUpi? && upi.names.Some?
    ensures ShowsId(Some(FilteredNames(Some(vns), upi, emails)), id) <==>
            upi.names.value.upiIDs == Yes && (exists i :: 0 <= i < |vns| && RawHoldsId(vns[i], id)) &&
            (upi.names.value.alphanumericID == Yes || upi.formatOk(id) || id in emails)
  {
    var cfg, rows := upi.names.value, RowsOf(FilteredNames(Some(vns), upi, emails));
    if r :| r in rows && HoldsId(r, id) {
      var i :| 0 <= i < |rows| && rows[i] == r;
      NameRowIds(vns[i], upi, cfg, emails, id);
    } else if i :| 0 <= i < |vns| && RawHoldsId(vns[i], id) {
      assert rows[i] in rows;
      NameRowIds(vns[i], upi, cfg, emails, id);
    }
  }

  lemma NamesShowIff(raw: Tree, upi: Upi, id: string)
    requires upi.WithUpi? && ERROR !in raw && VERIFIED in raw
    ensures ShowsId(Some(FilteredNames(Coerced(raw[VERIFIED]), upi, EmailIds(RawProfiles(raw)))), id) <==>
            MayShow(raw, upi, id)
  {
    if Coerced(raw[VERIFIED]).Some? && upi.names.Some? {
      RowsShowIff(RawNames(raw), upi, EmailIds(RawProfiles(raw)), id);
    }
  }

  lemma EntryNames(raw: Tree, upi: Upi)
    requires upi.WithUpi?
    ensures Find(Entry(raw, upi), VERIFIED) ==
            if ERROR !in raw && VERIFIED in raw
            then Some(FilteredNames(Coerced(raw[VERIFIED]), upi, EmailIds(RawProfiles(raw)))) else None
  {
    KeptKeys(VERIFIED);
    assert |VERIFIED| != |ERROR| && |VERIFIED| != |PROFILES|;
  }

  lemma EntryShowsIff(raw: Tree, upi: Upi, id: string)
    requires upi.WithUpi?
    ensures ShowsId(Find(Entry(raw, upi), VERIFIED), id) <==> MayShow(raw, upi, id)
  {
    EntryNames(raw, upi);
    if ERROR !in raw && VERIFIED in raw {
      NamesShowIff(raw, upi, id);
    }
  }

  lemma DerivedNames(m: Tree, intel: Tree, upi: Upi)
    requires upi.WithUpi? && upi.namesEnabled && UPI in m && m[UPI].Obj?
    ensures Find(Derived(Reshaped(m, upi), intel, upi), VERIFIED) ==
            match Find(Entry(m[UPI].fields, upi), VERIFIED) case Some(v) => Some(v) case None => Some(Arr([]))
  {
    ReshapedUpi(m, upi);
  }

  lemma CleanShows(o: Option<Node>, id: string)
    ensures ShowsId(CleanOption(o), id) <==> ShowsId(o, id)
  {
  }

  lemma EntryShownIdIff(resp: Tree, c: Settings, metaPresent: bool, id: string)
    requires HasUpi(resp) && c.upi.WithUpi? && c.upi.clientResponse
    ensures ShowsId(Within(ShownUpi(ResponseView(resp, c, metaPresent)), VERIFIED), id) <==>
            MayShow(RawUpi(resp), c.upi, id)
  {
    var entry := Entry(RawUpi(resp), c.upi);
    ViewUpi(resp, c, metaPresent);
    FindCleaned(entry, VERIFIED);
    CleanShows(Find(entry, VERIFIED), id);
    EntryShowsIff(RawUpi(resp), c.upi, id);
  }

  lemma IntelShownIdIff(resp: Tree, c: Settings, metaPresent: bool, id: string)
    requires HasUpi(resp) && c.upi.WithUpi? && c.upi.namesEnabled
    ensures ShowsId(IntelAt(ResponseView(resp, c, metaPresent), VERIFIED), id) <==> MayShow(RawUpi(resp), c.upi, id)
  {
    assert |VERIFIED| != |SCORE|;
    var m, intel := PhoneAccounts(resp), Intelligence(resp[PHONE].fields);
    ViewIntel(resp, c, metaPresent, VERIFIED);
    DerivedNames(m, intel, c.upi);
    CleanShows(Find(Derived(Reshaped(m, c.upi), intel, c.upi), VERIFIED), id);
    EntryShowsIff(RawUpi(resp), c.upi, id);
  }

  // Main result on ids: for every response that lists a UPI account, wherever the tenant shows verified names, in
  // the UPI account or among the intelligence, an id is shown exactly when it may be.
  lemma ShownIdIff(resp: Tree, c: Settings, metaPresent: bool, id: string)
    requires HasUpi(resp) && c.upi.WithUpi?
    ensures var out := ResponseView(resp, c, metaPresent);
            && (c.upi.clientResponse ==>
                  (ShowsId(Within(ShownUpi(out), VERIFIED), id) <==> MayShow(RawUpi(resp), c.upi, id)))
            && (c.upi.namesEnabled ==> (ShowsId(IntelAt(out, VERIFIED), id) <==> MayShow(RawUpi(resp), c.upi, id)))
  {
    if c.upi.clientResponse {
      EntryShownIdIff(resp, c, metaPresent, id);
    }
    if c.upi.namesEnabled {
      IntelShownIdIff(resp, c, metaPresent, id);
    }
  }

  /******* The names shown *******/

  // A row of verified names holds a name only where the tenant takes names, and where it encodes them an app is
  // named by its code alone.
  ghost predicate NameRowOk(r: Node, upi: Upi)
    requires upi.WithUpi?
  {
    && r.Obj? && upi.names.Some? && (forall k :: k in r.fields ==> k == NAME || k == IDS || k == SOURCE)
    && (NAME in r.fields ==> upi.names.value.name != No)
    && (upi.names.value.encoding != No ==>
          SOURCE in r.fields &&
          (r.fields[SOURCE] == Str(OTHER_APP) ||
           exists app :: app in upi.codes && r.fields[SOURCE] == Str(upi.codes[app])))
  }

  ghost predicate NamesOk(o: Option<Node>, upi: Upi)
    requires upi.WithUpi?
  {
    o.Some? ==> forall r :: r in RowsOf(o.value) ==> NameRowOk(r, upi)
  }

  lemma NameRowIsOk(vn: Tree, upi: Upi, emails: set<string>)
    requires upi.WithUpi? && upi.names.Some?
    ensures NameRowOk(Obj(FilteredName(vn, upi, upi.names.value, emails)), upi)
  {
    assert |NAME| == 4 && |IDS| == 7 && |SOURCE| == 6;
    var row := FilteredName(vn, upi, upi.names.value, emails);
    assert row[SOURCE] == Str(ShownSource(Text(vn, SOURCE), upi, upi.names.value));
  }

  lemma EntryNamesOk(raw: Tree, upi: Upi)
    requires upi.WithUpi?
    ensures NamesOk(Find(Entry(raw, upi), VERIFIED), upi)
  {
    EntryNames(raw, upi);
    if ERROR !in raw && VERIFIED in raw && Coerced(raw[VERIFIED]).Some? && upi.names.Some? {
      var vns, emails := Coerced(raw[VERIFIED]), EmailIds(RawProfiles(raw));
      forall r | r in RowsOf(FilteredNames(vns, upi, emails)) ensures NameRowOk(r, upi) {
        var i :| 0 <= i < |vns.value| && r == Obj(FilteredName(vns.value[i], upi, upi.names.value, emails));
        NameRowIsOk(vns.value[i], upi, emails);
      }
    }
  }

  lemma CleanNamesOk(o: Option<Node>, upi: Upi)
    requires upi.WithUpi?
    ensures NamesOk(CleanOption(o), upi) <==> NamesOk(o, upi)
  {
  }

  // Wherever the client is shown verified names, they say no more than the tenant's flags allow.
  lemma ShownNamesOk(resp: Tree, c: Settings, metaPresent: bool)
    requires HasUpi(resp) && c.upi.WithUpi?
    ensures var out := ResponseView(resp, c, metaPresent);
            && (c.upi.clientResponse ==> NamesOk(Within(ShownUpi(out), VERIFIED), c.upi))
            && (c.upi.namesEnabled ==> NamesOk(IntelAt(out, VERIFIED), c.upi))
  {
    var entry := Entry(RawUpi(resp), c.upi);
    EntryNamesOk(RawUpi(resp), c.upi);
    if c.upi.clientResponse {
      ViewUpi(resp, c, metaPresent);
      FindCleaned(entry, VERIFIED);
      CleanNamesOk(Find(entry, VERIFIED), c.upi);
    }
    if c.upi.namesEnabled {
      IntelNamesOk(resp, c, metaPresent);
    }
  }

  lemma IntelNamesOk(resp: Tree, c: Settings, metaPresent: bool)
    requires HasUpi(resp) && c.upi.WithUpi? && c.upi.namesEnabled
    requires NamesOk(Find(Entry(RawUpi(resp), c.upi), VERIFIED), c.upi)
    ensures NamesOk(IntelAt(ResponseView(resp, c, metaPresent), VERIFIED), c.upi)
  {
    assert |VERIFIED| != |SCORE|;
    var m, intel := PhoneAccounts(resp), Intelligence(resp[PHONE].fields);
    ViewIntel(resp, c, metaPresent, VERIFIED);
    DerivedNames(m, intel, c.upi);
    CleanNamesOk(Find(Derived(Reshaped(m, c.upi), intel, c.upi), VERIFIED), c.upi);
  }
}
