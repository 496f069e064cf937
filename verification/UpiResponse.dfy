/** The client form of the UPI account: the raw profile trimmed to what a client may know, the derived PhonePe
    account, and the section's intelligence about verified names. Two of its members are lists in a type of
    their own, nil where nothing was collected. */
module UpiResponse {
  import opened Base
  import opened JsonTree

  const UPI := "UPI"
  const PHONEPE := "PHONEPE"
  const USER_EXIST := "user_exist"
  const SUFFIX := "suffix"
  const VPA := "vpa"
  const NAME := "name"
  const PROFILES := "profiles"
  const VERIFIED := "verified_names"
  const ERROR := "error"
  const SOURCE := "source"
  const IDS := "upi_ids"
  const OTHER_APP := "UNKNOWN"
  const BANK_NAME := "bank_verified_name"
  const NAMES_STATUS := "verified_names_status"
  const KEPT: seq<string> := [USER_EXIST, SUFFIX, VPA, NAME]

  const FAILED := Obj(map[ERROR := Bool(true)])

  // The tenant's configuration of verified names; a flag may be absent.
  datatype Names = Names(name: Answer, upiIDs: Answer, alphanumericID: Answer, encoding: Answer)

  // How one section treats UPI: not at all, or with the tenant's settings. formatOk is the id pattern, codes
  // the table of encoded app names.
  datatype Upi =
    | NoUpi
    | WithUpi(clientResponse: bool, phonepe: bool, bankNameDisabled: bool, namesEnabled: bool,
              names: Option<Names>, formatOk: string -> bool, codes: map<string, string>)

  function Text(t: Tree, key: string): string {
    if key in t && t[key].Str? then t[key].s else ""
  }

  /******* Reading lists of objects *******/

  function Objects(items: seq<Node>): seq<Tree> {
    if items == [] then [] else (if items[0].Obj? then [items[0].fields] else []) + Objects(items[1..])
  }

  // None is a nil list.
  function Coerced(v: Node): Option<seq<Tree>> {
    match v
    case Arr(items) => Some(Objects(items))
    case Rows(rows) => Some(Objects(rows))
    case _ => None
  }

  function ListAt(t: Tree, key: string): Option<seq<Tree>> {
    if key in t then Coerced(t[key]) else None
  }

  // Ranging over a nil list does nothing.
  function Ranged(list: Option<seq<Tree>>): seq<Tree> {
    match list case Some(ts) => ts case None => []
  }

  method OnlyObjects(items: seq<Node>) returns (out: seq<Tree>)
    ensures out == Objects(items)
  {
    out := [];
    for i := 0 to |items|
      invariant Objects(items) == out + Objects(items[i..])
    {
      assert items[i..][1..] == items[i + 1..];
      if items[i].Obj? {
        Regroup(out, [items[i].fields], Objects(items[i + 1..]));
        out := out + [items[i].fields];
      }
    }
  }

  method CoerceMaps(v: Node) returns (list: Option<seq<Tree>>)
    ensures list == Coerced(v)
  {
    list := None;
    if v.Arr? || v.Rows? {
      var out := OnlyObjects(if v.Arr? then v.items else v.rows);
      list := Some(out);
    }
  }

  lemma {:induction false} ObjectsPlain(items: seq<Node>)
    requires Plain(Arr(items))
    ensures forall i :: 0 <= i < |Objects(items)| ==> PlainTree(Objects(items)[i])
  {
    if items != [] {
      assert forall i :: 0 <= i < |items[1..]| ==> items[1..][i] == items[i + 1];
      ObjectsPlain(items[1..]);
      assert Plain(items[0]);
    }
  }

  /******* The profile *******/

  function Whitelisted(t: Tree): Tree {
    map k | k in t && k in KEPT :: t[k]
  }

  method Whitelist(t: Tree) returns (out: Tree)
    ensures out == Whitelisted(t)
  {
    out := map[];
    for i := 0 to |KEPT|
      invariant out == map k | k in t && k in KEPT[..i] :: t[k]
    {
      assert KEPT[..i + 1] == KEPT[..i] + [KEPT[i]];
      if KEPT[i] in t {
        out := out[KEPT[i] := t[KEPT[i]]];
      }
    }
    assert KEPT[..|KEPT|] == KEPT;
  }

  // A profile is kept when it is the first to carry its suffix.
  predicate FirstOfSuffix(ps: seq<Tree>, i: int) {
    0 <= i < |ps| && Text(ps[i], SUFFIX) != ""
    && forall j :: 0 <= j < i ==> Text(ps[j], SUFFIX) != Text(ps[i], SUFFIX)
  }

  // The kept ones among the first n, trimmed.
  function KeptRows(ps: seq<Tree>, n: nat): seq<Node>
    requires n <= |ps|
  {
    if n == 0 then []
    else KeptRows(ps, n - 1) + if FirstOfSuffix(ps, n - 1) then [Obj(Whitelisted(ps[n - 1]))] else []
  }

  function AsRows(rows: seq<Node>): Node {
    if rows == [] then NilRows else Rows(rows)
  }

  method CleanProfiles(ps: seq<Tree>) returns (rows: seq<Node>)
    ensures rows == KeptRows(ps, |ps|)
  {
    rows := [];
    var seen: set<string> := {};
    for i := 0 to |ps|
      invariant rows == KeptRows(ps, i)
      invariant forall s :: s in seen <==> SuffixBefore(ps, i, s)
    {
      var suffix := Text(ps[i], SUFFIX);
      assert FirstOfSuffix(ps, i) <==> suffix != "" && !SuffixBefore(ps, i, suffix);
      assert forall s :: SuffixBefore(ps, i + 1, s) <==> SuffixBefore(ps, i, s) || (s == suffix && s != "");
      if suffix == "" || suffix in seen {
        continue;
      }
      seen := seen + {suffix};
      var cp := Whitelist(ps[i]);
      assert SUFFIX in cp by { assert KEPT[1] == SUFFIX; }
      if cp != map[] {
        rows := rows + [Obj(cp)];
      }
    }
  }

  ghost predicate SuffixBefore(ps: seq<Tree>, i: int, s: string) {
    s != "" && exists j :: 0 <= j < i && j < |ps| && Text(ps[j], SUFFIX) == s
  }

  /******* Verified names *******/

  function Strings(v: Node): seq<string> {
    if v.Arr? then StringsOf(v.items) else []
  }

  function StringsOf(items: seq<Node>): seq<string> {
    if items == [] then [] else (if items[0].Str? then [items[0].s] else []) + StringsOf(items[1..])
  }

  function Fitting(ids: seq<string>, upi: Upi, emails: set<string>): seq<string>
    requires upi.WithUpi?
  {
    if ids == [] then []
    else (if upi.formatOk(ids[0]) || ids[0] in emails then [ids[0]] else []) + Fitting(ids[1..], upi, emails)
  }

  function ListedIds(vn: Tree, upi: Upi, cfg: Names, emails: set<string>): seq<string>
    requires upi.WithUpi?
  {
    var ids := if IDS in vn then Strings(vn[IDS]) else [];
    if cfg.upiIDs != Yes then [] else if cfg.alphanumericID == Yes then ids else Fitting(ids, upi, emails)
  }

  function ShownSource(source: string, upi: Upi, cfg: Names): string
    requires upi.WithUpi?
  {
    if cfg.encoding == No then source
    else if source in upi.codes then upi.codes[source] else OTHER_APP
  }

  function Texts(ids: seq<string>): Node {
    Arr(seq(|ids|, i requires 0 <= i < |ids| => Str(ids[i])))
  }

  function FilteredName(vn: Tree, upi: Upi, cfg: Names, emails: set<string>): Tree
    requires upi.WithUpi?
  {
    var named: Tree := if cfg.name != No && Text(vn, NAME) != "" then map[NAME := Str(Text(vn, NAME))] else map[];
    var ids := ListedIds(vn, upi, cfg, emails);
    var listed := if ids != [] then named[IDS := Texts(ids)] else named;
    listed[SOURCE := Str(ShownSource(Text(vn, SOURCE), upi, cfg))]
  }

  function FilteredNames(vns: Option<seq<Tree>>, upi: Upi, emails: set<string>): Node
    requires upi.WithUpi?
  {
    if vns.None? || upi.names.None? then NilRows
    else Rows(seq(|vns.value|, i requires 0 <= i < |vns.value| =>
                Obj(FilteredName(vns.value[i], upi, upi.names.value, emails))))
  }

  method FilterIds(ids: seq<string>, upi: Upi, emails: set<string>) returns (out: seq<string>)
    requires upi.WithUpi?
    ensures out == Fitting(ids, upi, emails)
  {
    out := [];
    for i := 0 to |ids|
      invariant Fitting(ids, upi, emails) == out + Fitting(ids[i..], upi, emails)
    {
      assert ids[i..][1..] == ids[i + 1..];
      Regroup(out, [ids[i]], Fitting(ids[i + 1..], upi, emails));
      if upi.formatOk(ids[i]) {
        out := out + [ids[i]];
        continue;
      }
      if ids[i] in emails {
        out := out + [ids[i]];
      }
    }
  }

  method FilterName(vn: Tree, upi: Upi, cfg: Names, emails: set<string>) returns (upd: Tree)
    requires upi.WithUpi?
    ensures upd == FilteredName(vn, upi, cfg, emails)
  {
    upd := map[];
    if cfg.name != No {
      if Text(vn, NAME) != "" {
        upd := upd[NAME := Str(Text(vn, NAME))];
      }
    }
    if cfg.upiIDs == Yes {
      var ids := if IDS in vn then Strings(vn[IDS]) else [];
      if cfg.alphanumericID != Yes {
        ids := FilterIds(ids, upi, emails);
      }
      if ids != [] {
        upd := upd[IDS := Texts(ids)];
      }
    }
    var source := Text(vn, SOURCE);
    if cfg.encoding != No {
      if source in upi.codes {
        upd := upd[SOURCE := Str(upi.codes[source])];
      } else {
        upd := upd[SOURCE := Str(OTHER_APP)];
      }
    } else {
      upd := upd[SOURCE := Str(source)];
    }
  }

  method FilterVerifiedNames(vns: Option<seq<Tree>>, upi: Upi, emails: set<string>) returns (out: Node)
    requires upi.WithUpi?
    ensures out == FilteredNames(vns, upi, emails)
  {
    if vns.None? || upi.names.None? {
      return NilRows;
    }
    var rows: seq<Node> := [];
    for i := 0 to |vns.value|
      invariant |rows| == i
      invariant forall j :: 0 <= j < i ==> rows[j] == Obj(FilteredName(vns.value[j], upi, upi.names.value, emails))
    {
      var upd := FilterName(vns.value[i], upi, upi.names.value, emails);
      assert SOURCE in upd;
      if upd != map[] {
        rows := rows + [Obj(upd)];
      }
    }
    out := Rows(rows);
  }

  // Ids built from an e-mail address are exempt from the format.
  function EmailIds(ps: seq<Tree>): set<string> {
    set i | 0 <= i < |ps| && Text(ps[i], "match_type") == "email" && Text(ps[i], VPA) != "" :: Text(ps[i], VPA)
  }

  function CleanedProfile(raw: Tree, upi: Upi): Tree
    requires upi.WithUpi?
  {
    var ps := Ranged(ListAt(raw, PROFILES));
    var clean := Whitelisted(raw)[PROFILES := AsRows(KeptRows(ps, |ps|))];
    if VERIFIED in raw then clean[VERIFIED := FilteredNames(Coerced(raw[VERIFIED]), upi, EmailIds(ps))] else clean
  }

  method CleanProfileForResponse(raw: Tree, upi: Upi, emails: set<string>) returns (clean: Tree)
    requires upi.WithUpi? && ERROR !in raw && emails == EmailIds(Ranged(ListAt(raw, PROFILES)))
    ensures clean == CleanedProfile(raw, upi)
  {
    clean := Whitelist(raw);
    var list: Option<seq<Tree>> := None;
    if PROFILES in raw {
      list := CoerceMaps(raw[PROFILES]);
    }
    var rows := CleanProfiles(Ranged(list));
    clean := clean[PROFILES := AsRows(rows)];
    if VERIFIED in raw {
      var vns := CoerceMaps(raw[VERIFIED]);
      var names := FilterVerifiedNames(vns, upi, emails);
      clean := clean[VERIFIED := names];
    }
  }

  /******* The accounts and the section's intelligence *******/

  predicate Answered(p: Tree, answer: bool) {
    && "app_name" in p && p["app_name"] == Str(PHONEPE) && ERROR !in p
    && USER_EXIST in p && p[USER_EXIST] == Bool(answer)
  }

  // A true answer of a PhonePe profile wins over false ones; without any answer the account is an error.
  function PhonePeAccount(raw: Tree): Node {
    var ps := Ranged(ListAt(raw, PROFILES));
    if exists i :: 0 <= i < |ps| && Answered(ps[i], true) then Obj(map[USER_EXIST := Bool(true)])
    else if exists i :: 0 <= i < |ps| && Answered(ps[i], false) then Obj(map[USER_EXIST := Bool(false)])
    else FAILED
  }

  method DerivePhonePe(raw: Tree) returns (account: Node)
    ensures account == PhonePeAccount(raw)
  {
    var list: Option<seq<Tree>> := None;
    if PROFILES in raw {
      list := CoerceMaps(raw[PROFILES]);
    }
    if list.None? {
      assert Ranged(ListAt(raw, PROFILES)) == [];
      return FAILED;
    }
    var ps := list.value;
    assert ps == Ranged(ListAt(raw, PROFILES));
    var sawTrue, sawFalse := false, false;
    for i := 0 to |ps|
      invariant sawTrue <==> exists j :: 0 <= j < i && Answered(ps[j], true)
      invariant sawFalse <==> exists j :: 0 <= j < i && Answered(ps[j], false)
    {
      var p := ps[i];
      if "app_name" !in p || p["app_name"] != Str(PHONEPE) {
        continue;
      }
      if ERROR in p {
        continue;
      }
      if USER_EXIST in p && p[USER_EXIST].Bool? {
        if p[USER_EXIST].b {
          sawTrue := true;
        } else {
          sawFalse := true;
        }
      }
    }
    account := if sawTrue then Obj(map[USER_EXIST := Bool(true)])
               else if sawFalse then Obj(map[USER_EXIST := Bool(false)])
               else FAILED;
  }

  // The accounts of a section once UPI has been reshaped.
  function Reshaped(m: Tree, upi: Upi): Tree {
    if upi.NoUpi? || UPI !in m || !m[UPI].Obj? then m
    else
      var raw := m[UPI].fields;
      var shaped := if ERROR in raw then m[UPI := FAILED] else m[UPI := Obj(CleanedProfile(raw, upi))];
      if !upi.phonepe then shaped
      else if ERROR in raw then shaped[PHONEPE := FAILED]
      else shaped[PHONEPE := PhonePeAccount(raw)]
  }

  // The entry the mapper leaves in the accounts.
  function Entry(raw: Tree, upi: Upi): Tree
    requires upi.WithUpi?
  {
    if ERROR in raw then FAILED.fields else CleanedProfile(raw, upi)
  }

  lemma ReshapedUpi(m: Tree, upi: Upi)
    requires upi.WithUpi? && UPI in m && m[UPI].Obj?
    ensures UPI in Reshaped(m, upi) && Reshaped(m, upi)[UPI] == Obj(Entry(m[UPI].fields, upi))
  {
    assert |UPI| != |PHONEPE|;
  }

  method TransformUPIResponse(m: Tree, upi: Upi) returns (out: Tree)
    ensures out == Reshaped(m, upi)
  {
    out := m;
    if upi.NoUpi? || UPI !in m || !m[UPI].Obj? {
      return;
    }
    var raw := m[UPI].fields;
    if ERROR in raw {
      out := out[UPI := FAILED];
      if upi.phonepe {
        out := out[PHONEPE := FAILED];
      }
      return;
    }
    var list: Option<seq<Tree>> := None;
    if PROFILES in raw {
      list := CoerceMaps(raw[PROFILES]);
    }
    var emails := CollectEmailIds(Ranged(list));
    var clean := CleanProfileForResponse(raw, upi, emails);
    out := out[UPI := Obj(clean)];
    if upi.phonepe {
      var account := DerivePhonePe(raw);
      out := out[PHONEPE := account];
    }
  }

  method CollectEmailIds(ps: seq<Tree>) returns (ids: set<string>)
    ensures ids == EmailIds(ps)
  {
    ids := {};
    for i := 0 to |ps|
      invariant ids == set j | 0 <= j < i && Text(ps[j], "match_type") == "email" && Text(ps[j], VPA) != "" ::
                         Text(ps[j], VPA)
    {
      if Text(ps[i], "match_type") == "email" {
        if Text(ps[i], VPA) != "" {
          ids := ids + {Text(ps[i], VPA)};
        }
      }
    }
  }

  function WithBankName(entry: Tree, intel: Tree): Tree {
    var found := if Text(entry, NAME) != ""
                 then intel[BANK_NAME := Str(Text(entry, NAME))][NAMES_STATUS := Str("found")] else intel;
    var denied := (USER_EXIST in entry && entry[USER_EXIST] == Bool(false)) || NAME !in entry;
    if ERROR in entry then found[NAMES_STATUS := Str("error")]
    else if denied then found[NAMES_STATUS := Str("not-found")]
    else found
  }

  // A nil list held in its own type is not nil to the test, so it is taken over as it is.
  function WithNames(entry: Tree, intel: Tree): Tree {
    if VERIFIED in entry && entry[VERIFIED] != Null then intel[VERIFIED := entry[VERIFIED]]
    else intel[VERIFIED := Arr([])]
  }

  function Derived(m: Tree, intel: Tree, upi: Upi): Tree {
    if upi.NoUpi? || UPI !in m || !m[UPI].Obj? then intel
    else
      var named := if upi.bankNameDisabled then intel else WithBankName(m[UPI].fields, intel);
      if upi.namesEnabled then WithNames(m[UPI].fields, named) else named
  }

  method DeriveUPIIntelligence(m: Tree, intel: Tree, upi: Upi) returns (out: Tree)
    ensures out == Derived(m, intel, upi)
  {
    out := intel;
    if upi.NoUpi? || UPI !in m || !m[UPI].Obj? {
      return;
    }
    var entry := m[UPI].fields;
    if !upi.bankNameDisabled {
      if Text(entry, NAME) != "" {
        out := out[BANK_NAME := Str(Text(entry, NAME))];
        out := out[NAMES_STATUS := Str("found")];
      }
      if (USER_EXIST in entry && entry[USER_EXIST] == Bool(false)) || NAME !in entry {
        out := out[NAMES_STATUS := Str("not-found")];
      }
      if ERROR in entry {
        out := out[NAMES_STATUS := Str("error")];
      }
    }
    if upi.namesEnabled {
      if VERIFIED in entry && entry[VERIFIED] != Null {
        out := out[VERIFIED := entry[VERIFIED]];
      } else {
        out := out[VERIFIED := Arr([])];
      }
    }
  }

  /******* What prints as null *******/

  // Each member prints, and prints no null further down.
  ghost predicate Prints(t: Tree) {
    forall k :: k in t ==> !PrintsNull(t[k]) && NoNullBelow(t[k])
  }

  ghost predicate Whole(t: Tree) {
    forall k :: k in t ==> t[k] != NilRows && RowsWhole(t[k])
  }

  // The list of profiles prints without a null when some profile has a suffix and none of those kept has a
  // null among the members it keeps.
  ghost predicate ProfilesPrint(raw: Tree) {
    var ps := Ranged(ListAt(raw, PROFILES));
    && (exists i :: 0 <= i < |ps| && Text(ps[i], SUFFIX) != "")
    && KeptPrint(ps, |ps|)
  }

  // The verified names are absent, or are a list and the tenant has them configured.
  predicate NamesPrint(raw: Tree, upi: Upi)
    requires upi.WithUpi?
  {
    VERIFIED in raw ==> Coerced(raw[VERIFIED]).Some? && upi.names.Some?
  }

  lemma {:induction false} KeptRowsSome(ps: seq<Tree>, n: nat)
    requires n <= |ps|
    ensures KeptRows(ps, n) != [] <==> exists i :: 0 <= i < n && Text(ps[i], SUFFIX) != ""
  {
    if n > 0 {
      KeptRowsSome(ps, n - 1);
    }
  }

  ghost predicate KeptPrint(ps: seq<Tree>, n: int) {
    forall i :: i < n && FirstOfSuffix(ps, i) ==> Prints(Whitelisted(ps[i]))
  }

  lemma {:induction false} KeptRowsHave(ps: seq<Tree>, n: nat, i: nat)
    requires i < n <= |ps| && FirstOfSuffix(ps, i)
    ensures Obj(Whitelisted(ps[i])) in KeptRows(ps, n)
  {
    if i < n - 1 {
      KeptRowsHave(ps, n - 1, i);
    }
  }

  lemma {:induction false} KeptRowsCome(ps: seq<Tree>, n: nat, r: Node) returns (i: nat)
    requires n <= |ps| && r in KeptRows(ps, n)
    ensures i < n && FirstOfSuffix(ps, i) && r == Obj(Whitelisted(ps[i]))
  {
    if r in KeptRows(ps, n - 1) {
      i := KeptRowsCome(ps, n - 1, r);
    } else {
      i := n - 1;
    }
  }

  lemma RowsPrint(rows: seq<Node>)
    requires forall r :: r in rows ==> r.Obj?
    ensures NoNullBelow(Rows(rows)) <==> forall r :: r in rows ==> Prints(r.fields)
  {
    if forall r :: r in rows ==> Prints(r.fields) {
      forall j | 0 <= j < |rows| ensures !PrintsNull(rows[j]) && NoNullBelow(rows[j]) {
        assert rows[j] in rows && Prints(rows[j].fields);
      }
    }
    if NoNullBelow(Rows(rows)) {
      forall r | r in rows ensures Prints(r.fields) {
        var j :| 0 <= j < |rows| && rows[j] == r;
        assert NoNullBelow(rows[j]);
      }
    }
  }

  lemma KeptRowsPrint(ps: seq<Tree>)
    ensures NoNullBelow(Rows(KeptRows(ps, |ps|))) <==> KeptPrint(ps, |ps|)
  {
    var rows := KeptRows(ps, |ps|);
    forall r | r in rows ensures r.Obj? && (KeptPrint(ps, |ps|) ==> Prints(r.fields)) {
      var i := KeptRowsCome(ps, |ps|, r);
    }
    RowsPrint(rows);
    if !KeptPrint(ps, |ps|) {
      var i :| i < |ps| && FirstOfSuffix(ps, i) && !Prints(Whitelisted(ps[i]));
      KeptRowsHave(ps, |ps|, i);
    }
  }

  lemma ProfilesPrintIff(raw: Tree)
    ensures var ps := Ranged(ListAt(raw, PROFILES));
            var v := AsRows(KeptRows(ps, |ps|));
            v != NilRows && RowsWhole(v) <==> ProfilesPrint(raw)
  {
    var ps := Ranged(ListAt(raw, PROFILES));
    KeptRowsSome(ps, |ps|);
    KeptRowsPrint(ps);
  }

  lemma FilteredNamesPrint(vns: Option<seq<Tree>>, upi: Upi, emails: set<string>)
    requires upi.WithUpi?
    ensures var v := FilteredNames(vns, upi, emails);
            v != NilRows && RowsWhole(v) <==> vns.Some? && upi.names.Some?
  {
    var v := FilteredNames(vns, upi, emails);
    if v.Rows? {
      forall i | 0 <= i < |v.rows| ensures !PrintsNull(v.rows[i]) && NoNullBelow(v.rows[i]) {
        FilteredNamePrints(vns.value[i], upi, upi.names.value, emails);
      }
    }
  }

  lemma FilteredNamePrints(vn: Tree, upi: Upi, cfg: Names, emails: set<string>)
    requires upi.WithUpi?
    ensures Prints(FilteredName(vn, upi, cfg, emails))
  {
    var ids := ListedIds(vn, upi, cfg, emails);
    assert forall i :: 0 <= i < |ids| ==> Texts(ids).items[i] == Str(ids[i]);
    assert NoNullBelow(Texts(ids));
  }

  lemma PlainTreeIsWhole(t: Tree)
    requires PlainTree(t)
    ensures Whole(t)
  {
    forall k | k in t ensures t[k] != NilRows && RowsWhole(t[k]) { PlainIsWhole(t[k]); }
  }

  lemma WholeUpdate(t: Tree, k: string, v: Node)
    requires Whole(t - {k})
    ensures Whole(t[k := v]) <==> v != NilRows && RowsWhole(v)
  {
    assert forall l :: l in t && l != k ==> t[k := v][l] == (t - {k})[l];
    assert t[k := v][k] == v;
  }

  // The client form of a decoded profile prints without a null below it exactly when both its lists do.
  lemma CleanedProfileWholeIff(raw: Tree, upi: Upi)
    requires upi.WithUpi? && PlainTree(raw)
    ensures Whole(CleanedProfile(raw, upi)) <==> ProfilesPrint(raw) && NamesPrint(raw, upi)
  {
    var ps := Ranged(ListAt(raw, PROFILES));
    var base, profiles := Whitelisted(raw), AsRows(KeptRows(ps, |ps|));
    PlainTreeIsWhole(base);
    WholeUpdate(base, PROFILES, profiles);
    ProfilesPrintIff(raw);
    if VERIFIED in raw {
      var names := FilteredNames(Coerced(raw[VERIFIED]), upi, EmailIds(ps));
      FilteredNamesPrint(Coerced(raw[VERIFIED]), upi, EmailIds(ps));
      BothWhole(base, profiles, names);
    }
  }

  lemma BothWhole(base: Tree, profiles: Node, names: Node)
    requires Whole(base)
    ensures Whole(base[PROFILES := profiles][VERIFIED := names]) <==>
            profiles != NilRows && RowsWhole(profiles) && names != NilRows && RowsWhole(names)
  {
    var t := base[PROFILES := profiles][VERIFIED := names];
    assert |PROFILES| != |VERIFIED|;
    assert t[PROFILES] == profiles && t[VERIFIED] == names;
    assert forall k :: k in t && k != PROFILES && k != VERIFIED ==> k in base && t[k] == base[k];
  }
}
