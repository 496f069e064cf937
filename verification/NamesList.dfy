/** The verified names of a number: one entry for each app among the true profiles, with the addresses that were
    found under it. */
module NamesList {
  import opened Aggregate
  import opened Base
  import opened ProbePlan

  /******* The ids that profiles produce *******/

  // The part of a VPA after its first @, or nothing.
  function SuffixOf(vpa: string): string {
    if vpa == "" then "" else if vpa[0] == '@' then vpa[1..] else SuffixOf(vpa[1..])
  }

  function ConstructVPA(phone: string, p: Profile): string {
    if p.vpa != "" then p.vpa
    else if p.suffix != "" && p.suffix != COMMON then phone + "@" + p.suffix
    else ""
  }

  // supported maps bank suffixes to app names.
  function AppName(supported: map<string, string>, p: Profile): string {
    var app := if p.appName == "" then UNKNOWN else p.appName;
    if app == COMMON && p.vpa != "" then
      if SuffixOf(p.vpa) in supported then supported[SuffixOf(p.vpa)] else UNKNOWN
    else app
  }

  // The app and the name an id is filed under.
  datatype Origin = Origin(app: string, name: string)

  // Each id, with what the first true profile that produces it says.
  function Origins(ps: seq<Profile>, phone: string, supported: map<string, string>): map<string, Origin> {
    if ps == [] then map[]
    else
      var before := Origins(ps[..|ps| - 1], phone, supported);
      var p := ps[|ps| - 1];
      var id := ConstructVPA(phone, p);
      if IsTrue(p) && id != "" && id !in before then before[id := Origin(AppName(supported, p), p.name)] else before
  }

  predicate Produces(p: Profile, phone: string, id: string) {
    IsTrue(p) && id != "" && ConstructVPA(phone, p) == id
  }

  // The first profile in line that produces the id.
  predicate FirstProducer(ps: seq<Profile>, phone: string, id: string, i: int) {
    0 <= i < |ps| && Produces(ps[i], phone, id) && forall j :: 0 <= j < i ==> !Produces(ps[j], phone, id)
  }

  // The ids are the non-empty VPAs of the true profiles.
  lemma {:induction false} OriginsIff(ps: seq<Profile>, phone: string, supported: map<string, string>, id: string)
    ensures id in Origins(ps, phone, supported) <==> exists i :: 0 <= i < |ps| && Produces(ps[i], phone, id)
  {
    if ps != [] {
      var front, last := ps[..|ps| - 1], |ps| - 1;
      OriginsIff(front, phone, supported, id);
      assert forall i :: 0 <= i < last ==> front[i] == ps[i];
    }
  }

  // The first profile in line decides the app and the name.
  lemma {:induction false} OriginsFacts(ps: seq<Profile>, phone: string, supported: map<string, string>, id: string)
    requires id in Origins(ps, phone, supported)
    ensures exists i :: FirstProducer(ps, phone, id, i)
                        && Origins(ps, phone, supported)[id] == Origin(AppName(supported, ps[i]), ps[i].name)
  {
    var front, last := ps[..|ps| - 1], |ps| - 1;
    assert forall i :: 0 <= i < last ==> front[i] == ps[i];
    if id in Origins(front, phone, supported) {
      OriginsFacts(front, phone, supported, id);
      var i :| FirstProducer(front, phone, id, i)
               && Origins(front, phone, supported)[id] == Origin(AppName(supported, front[i]), front[i].name);
      assert FirstProducer(ps, phone, id, i);
    } else {
      OriginsIff(front, phone, supported, id);
      assert FirstProducer(ps, phone, id, last);
    }
  }

  lemma OriginsSnoc(ps: seq<Profile>, i: nat, phone: string, supported: map<string, string>)
    requires i < |ps|
    ensures var before, id := Origins(ps[..i], phone, supported), ConstructVPA(phone, ps[i]);
            Origins(ps[..i + 1], phone, supported) ==
            if IsTrue(ps[i]) && id != "" && id !in before
            then before[id := Origin(AppName(supported, ps[i]), ps[i].name)] else before
  {
    assert ps[..i + 1][..i] == ps[..i];
  }

  // The apps in order of first sight, the name of each and its ids.
  datatype Shelf = Shelf(order: seq<string>, names: map<string, string>, ids: map<string, seq<string>>)

  datatype Entry = Entry(source: string, name: Option<string>, ids: seq<string>)

  // The apps in order of first sight, each with a non-empty list of ids.
  ghost predicate Shelved(order: seq<string>, names: map<string, string>, ids: map<string, seq<string>>) {
    && Distinct(order) && (forall a :: a in order <==> a in ids) && names.Keys == ids.Keys
    && (forall a :: a in ids ==> ids[a] != [] && Distinct(ids[a]))
  }

  // Each id made so far is listed under its own app and nowhere else.
  ghost predicate Booked(made: map<string, Origin>, ids: map<string, seq<string>>) {
    && (forall id :: id in made ==> made[id].app in ids && id in ids[made[id].app])
    && (forall a, id :: a in ids && id in ids[a] ==> id in made && made[id].app == a)
  }

  // An app is named after the profile that produced its first id.
  ghost predicate NamedByFirst(made: map<string, Origin>, names: map<string, string>, ids: map<string, seq<string>>) {
    forall a :: a in ids ==>
      a in names && ids[a] != [] && ids[a][0] in made && made[ids[a][0]] == Origin(a, names[a])
  }

  ghost predicate Shelves(made: map<string, Origin>, order: seq<string>, names: map<string, string>,
                          ids: map<string, seq<string>>) {
    Shelved(order, names, ids) && Booked(made, ids) && NamedByFirst(made, names, ids)
  }

  lemma DistinctSnoc(xs: seq<string>, x: string)
    requires Distinct(xs) && x !in xs
    ensures Distinct(xs + [x])
  {
  }

  lemma ShelvedAgain(order: seq<string>, names: map<string, string>, ids: map<string, seq<string>>,
                     app: string, id: string)
    requires Shelved(order, names, ids) && app in ids && id !in ids[app]
    ensures Shelved(order, names, ids[app := ids[app] + [id]])
  {
    var next := ids[app := ids[app] + [id]];
    DistinctSnoc(ids[app], id);
    assert next.Keys == ids.Keys;
    forall a | a in next ensures next[a] != [] && Distinct(next[a]) {
      if a != app { assert next[a] == ids[a]; }
    }
  }

  lemma ShelvedAnew(order: seq<string>, names: map<string, string>, ids: map<string, seq<string>>,
                    app: string, name: string, id: string)
    requires Shelved(order, names, ids) && app !in ids
    ensures Shelved(order + [app], names[app := name], ids[app := [id]])
  {
    var next := ids[app := [id]];
    DistinctSnoc(order, app);
    forall a | a in next ensures next[a] != [] && Distinct(next[a]) {
      if a != app { assert next[a] == ids[a]; }
    }
  }

  lemma NamedAgain(made: map<string, Origin>, names: map<string, string>, ids: map<string, seq<string>>,
                   id: string, o: Origin)
    requires NamedByFirst(made, names, ids) && id !in made && o.app in ids
    ensures NamedByFirst(made[id := o], names, ids[o.app := ids[o.app] + [id]])
  {
    var next := ids[o.app := ids[o.app] + [id]];
    forall a | a in next ensures next[a] != [] && next[a][0] == ids[a][0] {
      if a != o.app { assert next[a] == ids[a]; }
    }
  }

  lemma NamedAnew(made: map<string, Origin>, names: map<string, string>, ids: map<string, seq<string>>,
                  id: string, o: Origin)
    requires NamedByFirst(made, names, ids) && id !in made && o.app !in ids
    ensures NamedByFirst(made[id := o], names[o.app := o.name], ids[o.app := [id]])
  {
    forall a | a in ids ensures ids[o.app := [id]][a] == ids[a] {}
  }

  lemma BookedAgain(made: map<string, Origin>, ids: map<string, seq<string>>, id: string, o: Origin)
    requires Booked(made, ids) && id !in made && o.app in ids
    ensures id !in ids[o.app] && Booked(made[id := o], ids[o.app := ids[o.app] + [id]])
  {
    var next := ids[o.app := ids[o.app] + [id]];
    forall a, i | a in next && i in next[a] ensures i in made[id := o] && made[id := o][i].app == a {
      if a != o.app { assert next[a] == ids[a]; }
    }
  }

  // A further id of an app already seen.
  lemma Again(made: map<string, Origin>, order: seq<string>, names: map<string, string>,
              ids: map<string, seq<string>>, id: string, o: Origin)
    requires Shelves(made, order, names, ids) && id !in made && o.app in ids
    ensures id !in ids[o.app]
    ensures Shelves(made[id := o], order, names, ids[o.app := ids[o.app] + [id]])
  {
    BookedAgain(made, ids, id, o);
    ShelvedAgain(order, names, ids, o.app, id);
    NamedAgain(made, names, ids, id, o);
  }

  // The first id of a new app.
  lemma Anew(made: map<string, Origin>, order: seq<string>, names: map<string, string>,
             ids: map<string, seq<string>>, id: string, o: Origin)
    requires Shelves(made, order, names, ids) && id !in made && o.app !in ids
    ensures Shelves(made[id := o], order + [o.app], names[o.app := o.name], ids[o.app := [id]])
  {
    ShelvedAnew(order, names, ids, o.app, o.name, id);
    NamedAnew(made, names, ids, id, o);
  }

  /******* The order of things *******/

  // Every id with the index of its first producer.
  ghost predicate Placed(ps: seq<Profile>, phone: string, at: map<string, int>) {
    forall id :: id in at ==> FirstProducer(ps, phone, id, at[id])
  }

  ghost predicate Rising(at: map<string, int>, xs: seq<string>) {
    && (forall k :: 0 <= k < |xs| ==> xs[k] in at)
    && (forall j, k :: 0 <= j < k < |xs| ==> at[xs[j]] < at[xs[k]])
  }

  // The first id of each app.
  function Firsts(order: seq<string>, ids: map<string, seq<string>>): seq<string> {
    seq(|order|, k requires 0 <= k < |order| =>
          if order[k] in ids && ids[order[k]] != [] then ids[order[k]][0] else "")
  }

  // Within an app the ids stand in the order of their first producers, and the apps in that of their first ids.
  ghost predicate InLine(at: map<string, int>, s: Shelf) {
    && (forall a :: a in s.ids ==> s.ids[a] != [] && Rising(at, s.ids[a]))
    && (forall k :: 0 <= k < |s.order| ==> s.order[k] in s.ids)
    && Rising(at, Firsts(s.order, s.ids))
  }

  lemma RisingSnoc(at: map<string, int>, xs: seq<string>, id: string, i: int)
    requires Rising(at, xs) && id !in at && forall x :: x in at ==> at[x] < i
    ensures Rising(at[id := i], xs) && Rising(at[id := i], xs + [id])
  {
    assert forall k :: 0 <= k < |xs| ==> (xs + [id])[k] == xs[k];
  }

  lemma InLineOn(at: map<string, int>, s: Shelf, app: string, name: string, id: string, i: int)
    requires InLine(at, s) && id !in at && forall x :: x in at ==> at[x] < i
    ensures InLine(at[id := i], Shelve1(s, app, name, id))
  {
    var t, at' := Shelve1(s, app, name, id), at[id := i];
    forall a | a in t.ids ensures t.ids[a] != [] && Rising(at', t.ids[a]) {
      if a in s.ids {
        RisingSnoc(at, s.ids[a], id, i);
      } else {
        assert t.ids[a] == [id];
      }
    }
    RisingSnoc(at, Firsts(s.order, s.ids), id, i);
    if app in s.ids {
      assert Firsts(t.order, t.ids) == Firsts(s.order, s.ids);
    } else {
      assert Firsts(t.order, t.ids) == Firsts(s.order, s.ids) + [id];
    }
  }

  lemma NewProducer(ps: seq<Profile>, phone: string, supported: map<string, string>, i: nat, id: string)
    requires i < |ps| && id !in Origins(ps[..i], phone, supported) && Produces(ps[i], phone, id)
    ensures FirstProducer(ps, phone, id, i)
  {
    OriginsIff(ps[..i], phone, supported, id);
    assert forall j :: 0 <= j < i ==> ps[..i][j] == ps[j];
  }

  /******* The first loop *******/

  function Shelve1(s: Shelf, app: string, name: string, id: string): Shelf {
    if app in s.ids then s.(ids := s.ids[app := s.ids[app] + [id]])
    else Shelf(s.order + [app], s.names[app := name], s.ids[app := [id]])
  }

  // The shelves once the first n profiles are through.
  function ShelfOf(ps: seq<Profile>, n: nat, phone: string, supported: map<string, string>): Shelf
    requires n <= |ps|
  {
    if n == 0 then Shelf([], map[], map[])
    else
      var before, p := ShelfOf(ps, n - 1, phone, supported), ps[n - 1];
      var id := ConstructVPA(phone, p);
      if IsTrue(p) && id != "" && id !in Origins(ps[..n - 1], phone, supported)
      then Shelve1(before, AppName(supported, p), p.name, id) else before
  }

  lemma {:induction false} ShelfIsShelved(ps: seq<Profile>, n: nat, phone: string, supported: map<string, string>)
    requires n <= |ps|
    ensures var s := ShelfOf(ps, n, phone, supported);
            Shelves(Origins(ps[..n], phone, supported), s.order, s.names, s.ids)
  {
    if n > 0 {
      ShelfIsShelved(ps, n - 1, phone, supported);
      OriginsSnoc(ps, n - 1, phone, supported);
      var p, made := ps[n - 1], Origins(ps[..n - 1], phone, supported);
      var id := ConstructVPA(phone, p);
      if IsTrue(p) && id != "" && id !in made {
        ShelvedOn(made, ShelfOf(ps, n - 1, phone, supported), id, Origin(AppName(supported, p), p.name));
      }
    }
  }

  // One new id, under an app seen before or not; the search of the app's own list never finds it.
  lemma ShelvedOn(made: map<string, Origin>, s: Shelf, id: string, o: Origin)
    requires Shelves(made, s.order, s.names, s.ids) && id !in made
    ensures o.app in s.ids ==> id !in s.ids[o.app]
    ensures var t := Shelve1(s, o.app, o.name, id); Shelves(made[id := o], t.order, t.names, t.ids)
  {
    if o.app in s.ids {
      Again(made, s.order, s.names, s.ids, id, o);
    } else {
      Anew(made, s.order, s.names, s.ids, id, o);
    }
  }

  lemma NeverPresent(ps: seq<Profile>, i: nat, phone: string, supported: map<string, string>)
    requires i < |ps|
    ensures var s, id := ShelfOf(ps, i, phone, supported), ConstructVPA(phone, ps[i]);
            var app := AppName(supported, ps[i]);
            id !in Origins(ps[..i], phone, supported) && app in s.ids ==> id !in s.ids[app]
  {
    var id := ConstructVPA(phone, ps[i]);
    if id !in Origins(ps[..i], phone, supported) {
      ShelfIsShelved(ps, i, phone, supported);
      ShelvedOn(Origins(ps[..i], phone, supported), ShelfOf(ps, i, phone, supported), id,
                Origin(AppName(supported, ps[i]), ps[i].name));
    }
  }

  lemma {:induction false} ShelfInLine(ps: seq<Profile>, n: nat, phone: string, supported: map<string, string>)
    returns (at: map<string, int>)
    requires n <= |ps|
    ensures at.Keys == Origins(ps[..n], phone, supported).Keys && Placed(ps, phone, at)
    ensures InLine(at, ShelfOf(ps, n, phone, supported)) && forall x :: x in at ==> at[x] < n
  {
    if n == 0 {
      at := map[];
    } else {
      at := ShelfInLine(ps, n - 1, phone, supported);
      OriginsSnoc(ps, n - 1, phone, supported);
      var p, id := ps[n - 1], ConstructVPA(phone, ps[n - 1]);
      if IsTrue(p) && id != "" && id !in Origins(ps[..n - 1], phone, supported) {
        NewProducer(ps, phone, supported, n - 1, id);
        InLineOn(at, ShelfOf(ps, n - 1, phone, supported), AppName(supported, p), p.name, id, n - 1);
        at := at[id := n - 1];
      }
    }
  }

  method Shelve(order: seq<string>, names: map<string, string>, appIDs: map<string, seq<string>>,
                app: string, id: string, name: string)
    returns (order': seq<string>, names': map<string, string>, appIDs': map<string, seq<string>>)
    requires app in appIDs ==> id !in appIDs[app]
    ensures Shelf(order', names', appIDs') == Shelve1(Shelf(order, names, appIDs), app, name, id)
  {
    order', names', appIDs' := order, names, appIDs;
    if app !in appIDs {
      order', names', appIDs' := order + [app], names[app := name], appIDs[app := [id]];
    } else {
      var present := id in appIDs[app];
      if !present {
        appIDs' := appIDs[app := appIDs[app] + [id]];
      }
    }
  }

  // The apps, their names and their ids.
  method ShelveProfiles(phone: string, ps: seq<Profile>, supported: map<string, string>)
    returns (order: seq<string>, names: map<string, string>, appIDs: map<string, seq<string>>)
    ensures Shelf(order, names, appIDs) == ShelfOf(ps, |ps|, phone, supported)
  {
    order, names, appIDs := [], map[], map[];
    var seen: set<string> := {};
    for i := 0 to |ps|
      invariant Shelf(order, names, appIDs) == ShelfOf(ps, i, phone, supported)
      invariant seen == Origins(ps[..i], phone, supported).Keys
    {
      var p := ps[i];
      OriginsSnoc(ps, i, phone, supported);
      NeverPresent(ps, i, phone, supported);
      if p.err || p.userExist != Yes {
        continue;
      }
      var app := AppName(supported, p);
      var id := ConstructVPA(phone, p);
      if id == "" || id in seen {
        continue;
      }
      order, names, appIDs := Shelve(order, names, appIDs, app, id, p.name);
      seen := seen + {id};
    }
  }

  function EntryOf(app: string, names: map<string, string>, ids: map<string, seq<string>>): Entry
    requires app in names && app in ids
  {
    Entry(app, if names[app] != "" then Some(names[app]) else None, ids[app])
  }

  // An entry lists each of its ids once, every one of them filed under its source, and carries the name
  // filed with the first.
  ghost predicate Fits(e: Entry, made: map<string, Origin>) {
    && e.ids != [] && Distinct(e.ids)
    && (forall id :: id in e.ids ==> id in made && made[id].app == e.source)
    && e.ids[0] in made
    && e.name == (if made[e.ids[0]].name != "" then Some(made[e.ids[0]].name) else None)
  }

  lemma EntryFits(made: map<string, Origin>, order: seq<string>, names: map<string, string>,
                  ids: map<string, seq<string>>, app: string)
    requires Shelves(made, order, names, ids) && app in order
    ensures app in names && app in ids && Fits(EntryOf(app, names, ids), made)
  {
  }

  lemma EveryIdListed(made: map<string, Origin>, order: seq<string>, names: map<string, string>,
                      ids: map<string, seq<string>>, id: string) returns (k: nat)
    requires Shelves(made, order, names, ids) && id in made
    ensures k < |order| && order[k] in ids && id in ids[order[k]]
  {
    k :| k < |order| && order[k] == made[id].app;
  }

  ghost predicate Covered(order: seq<string>, names: map<string, string>, ids: map<string, seq<string>>) {
    forall k :: 0 <= k < |order| ==> order[k] in names && order[k] in ids
  }

  // The second loop: one entry per app.
  method ListEntries(order: seq<string>, names: map<string, string>, appIDs: map<string, seq<string>>)
    returns (out: seq<Entry>)
    requires Covered(order, names, appIDs)
    ensures |out| == |order| && forall k :: 0 <= k < |out| ==> out[k] == EntryOf(order[k], names, appIDs)
  {
    out := [];
    for i := 0 to |order|
      invariant |out| == i && forall k :: 0 <= k < i ==> out[k] == EntryOf(order[k], names, appIDs)
    {
      out := out + [EntryOf(order[i], names, appIDs)];
    }
  }

  ghost predicate Listed(out: seq<Entry>, id: string) {
    exists k :: 0 <= k < |out| && id in out[k].ids
  }

  // What the entries listed from the shelves say.
  ghost predicate Partitioned(made: map<string, Origin>, out: seq<Entry>) {
    && (forall i, j :: 0 <= i < j < |out| ==> out[i].source != out[j].source)
    && (forall k :: 0 <= k < |out| ==> Fits(out[k], made))
    && (forall id {:trigger Listed(out, id)} :: id in made ==> Listed(out, id))
  }

  lemma ListedIsPartitioned(made: map<string, Origin>, order: seq<string>, names: map<string, string>,
                            ids: map<string, seq<string>>, out: seq<Entry>)
    requires Shelves(made, order, names, ids) && Covered(order, names, ids) && |out| == |order|
    requires forall k :: 0 <= k < |out| ==> out[k] == EntryOf(order[k], names, ids)
    ensures Partitioned(made, out)
  {
    forall k | 0 <= k < |out| ensures Fits(out[k], made) {
      EntryFits(made, order, names, ids, order[k]);
    }
    forall id | id in made ensures Listed(out, id) {
      var k := EveryIdListed(made, order, names, ids, id);
      assert id in out[k].ids;
    }
    assert Distinct(order);
  }

  /******* The list in terms of the profiles alone *******/

  // A true profile's own address, or the number at its bank suffix.
  predicate MadeBy(p: Profile, phone: string, id: string) {
    && !p.err && p.userExist == Yes && id != ""
    && if p.vpa != "" then id == p.vpa else p.suffix != "" && p.suffix != "COMMON" && id == phone + "@" + p.suffix
  }

  predicate FirstMade(ps: seq<Profile>, phone: string, id: string, i: int) {
    0 <= i < |ps| && MadeBy(ps[i], phone, id) && forall j :: 0 <= j < i ==> !MadeBy(ps[j], phone, id)
  }

  function OwnerOf(supported: map<string, string>, suffix: string): string {
    if suffix in supported then supported[suffix] else "UNKNOWN"
  }

  // The app a profile names; one of the common flow stands for the owner of what follows the first @ of its address.
  predicate FiledUnder(p: Profile, supported: map<string, string>, app: string) {
    if p.appName == "" then app == "UNKNOWN"
    else if p.appName == "COMMON" && p.vpa != "" then
      && ('@' !in p.vpa ==> app == OwnerOf(supported, ""))
      && forall i :: 0 <= i < |p.vpa| && p.vpa[i] == '@' && '@' !in p.vpa[..i] ==>
           app == OwnerOf(supported, p.vpa[i + 1..])
    else app == p.appName
  }

  // The ids stand in the order of their first producers.
  ghost predicate IdsInOrder(ps: seq<Profile>, phone: string, ids: seq<string>) {
    forall j, k, x, y :: 0 <= j < k < |ids| && FirstMade(ps, phone, ids[j], x) && FirstMade(ps, phone, ids[k], y) ==>
      x < y
  }

  // What an entry says of the profiles: each id under the app of its first producer, in the order of those, and the
  // name that the first of all gives.
  ghost predicate Tells(ps: seq<Profile>, phone: string, supported: map<string, string>, e: Entry) {
    && e.ids != [] && Distinct(e.ids)
    && (forall k, i :: 0 <= k < |e.ids| && FirstMade(ps, phone, e.ids[k], i) ==> FiledUnder(ps[i], supported, e.source))
    && (forall i :: FirstMade(ps, phone, e.ids[0], i) ==>
          e.name == if ps[i].name != "" then Some(ps[i].name) else None)
    && IdsInOrder(ps, phone, e.ids)
  }

  ghost predicate AllIds(ps: seq<Profile>, phone: string, out: seq<Entry>) {
    forall id :: Listed(out, id) <==> exists i :: 0 <= i < |ps| && MadeBy(ps[i], phone, id)
  }

  ghost predicate FirstIdBefore(ps: seq<Profile>, phone: string, d: Entry, e: Entry) {
    d.ids != [] && e.ids != [] &&
    forall x, y :: FirstMade(ps, phone, d.ids[0], x) && FirstMade(ps, phone, e.ids[0], y) ==> x < y
  }

  // The whole list: one entry an app in the order of their first ids, and every id in some entry.
  ghost predicate ListOf(ps: seq<Profile>, phone: string, supported: map<string, string>, out: seq<Entry>) {
    && (forall k :: 0 <= k < |out| ==> Tells(ps, phone, supported, out[k]))
    && (forall j, k :: 0 <= j < k < |out| ==>
          out[j].source != out[k].source && FirstIdBefore(ps, phone, out[j], out[k]))
    && AllIds(ps, phone, out)
  }

  lemma MadeByIff(p: Profile, phone: string, id: string)
    ensures MadeBy(p, phone, id) <==> Produces(p, phone, id)
  {
  }

  lemma FirstMadeIff(ps: seq<Profile>, phone: string, id: string, i: int)
    ensures FirstMade(ps, phone, id, i) <==> FirstProducer(ps, phone, id, i)
  {
    forall j | 0 <= j < |ps| ensures MadeBy(ps[j], phone, id) <==> Produces(ps[j], phone, id) {
      MadeByIff(ps[j], phone, id);
    }
  }

  lemma {:induction false} SuffixAt(vpa: string, i: nat)
    requires i < |vpa| && vpa[i] == '@' && '@' !in vpa[..i]
    ensures SuffixOf(vpa) == vpa[i + 1..]
  {
    if i > 0 {
      assert vpa[0] == vpa[..i][0];
      assert forall c :: c in vpa[1..][..i - 1] ==> c in vpa[..i];
      SuffixAt(vpa[1..], i - 1);
    }
  }

  lemma {:induction false} NoSuffix(vpa: string)
    requires '@' !in vpa
    ensures SuffixOf(vpa) == ""
  {
    if vpa != "" {
      NoSuffix(vpa[1..]);
    }
  }

  lemma FiledUnderApp(p: Profile, supported: map<string, string>)
    ensures FiledUnder(p, supported, AppName(supported, p))
  {
    if '@' !in p.vpa {
      NoSuffix(p.vpa);
    }
    forall i | 0 <= i < |p.vpa| && p.vpa[i] == '@' && '@' !in p.vpa[..i] ensures SuffixOf(p.vpa) == p.vpa[i + 1..] {
      SuffixAt(p.vpa, i);
    }
  }

  // The one first producer of an id that was made.
  lemma OriginAt(ps: seq<Profile>, phone: string, supported: map<string, string>, id: string, i: int)
    requires id in Origins(ps, phone, supported) && FirstMade(ps, phone, id, i)
    ensures var o := Origins(ps, phone, supported)[id];
            FiledUnder(ps[i], supported, o.app) && o.name == ps[i].name
  {
    OriginsFacts(ps, phone, supported, id);
    var j :| FirstProducer(ps, phone, id, j)
             && Origins(ps, phone, supported)[id] == Origin(AppName(supported, ps[j]), ps[j].name);
    FirstMadeIff(ps, phone, id, i);
    assert i == j;
    FiledUnderApp(ps[i], supported);
  }

  lemma RisingInOrder(ps: seq<Profile>, phone: string, at: map<string, int>, ids: seq<string>)
    requires Placed(ps, phone, at) && Rising(at, ids)
    ensures IdsInOrder(ps, phone, ids)
  {
    forall k, x | 0 <= k < |ids| && FirstMade(ps, phone, ids[k], x) ensures x == at[ids[k]] {
      FirstMadeIff(ps, phone, ids[k], x);
    }
  }

  lemma ShelfInOrder(ps: seq<Profile>, phone: string, supported: map<string, string>, app: string)
    ensures var s := ShelfOf(ps, |ps|, phone, supported);
            && IdsInOrder(ps, phone, Firsts(s.order, s.ids))
            && (app in s.ids ==> IdsInOrder(ps, phone, s.ids[app]))
  {
    var at := ShelfInLine(ps, |ps|, phone, supported);
    var s := ShelfOf(ps, |ps|, phone, supported);
    RisingInOrder(ps, phone, at, Firsts(s.order, s.ids));
    if app in s.ids {
      RisingInOrder(ps, phone, at, s.ids[app]);
    }
  }

  lemma EntryTells(ps: seq<Profile>, phone: string, supported: map<string, string>, e: Entry)
    requires Fits(e, Origins(ps, phone, supported)) && IdsInOrder(ps, phone, e.ids)
    ensures Tells(ps, phone, supported, e)
  {
    forall k, i | 0 <= k < |e.ids| && FirstMade(ps, phone, e.ids[k], i)
      ensures FiledUnder(ps[i], supported, e.source)
      ensures k == 0 ==> e.name == if ps[i].name != "" then Some(ps[i].name) else None
    {
      assert e.ids[k] in e.ids;
      OriginAt(ps, phone, supported, e.ids[k], i);
    }
  }

  lemma ListedIff(made: map<string, Origin>, out: seq<Entry>, id: string)
    requires Partitioned(made, out)
    ensures Listed(out, id) <==> id in made
  {
    if k :| 0 <= k < |out| && id in out[k].ids {
      assert Fits(out[k], made);
    }
  }

  lemma ProducedIff(ps: seq<Profile>, phone: string, supported: map<string, string>, id: string)
    ensures id in Origins(ps, phone, supported) <==> exists i :: 0 <= i < |ps| && MadeBy(ps[i], phone, id)
  {
    OriginsIff(ps, phone, supported, id);
    forall i | 0 <= i < |ps| ensures MadeBy(ps[i], phone, id) <==> Produces(ps[i], phone, id) {
      MadeByIff(ps[i], phone, id);
    }
  }

  lemma ListedIds(ps: seq<Profile>, phone: string, supported: map<string, string>, out: seq<Entry>)
    requires Partitioned(Origins(ps, phone, supported), out)
    ensures AllIds(ps, phone, out)
  {
    forall id ensures Listed(out, id) <==> exists i :: 0 <= i < |ps| && MadeBy(ps[i], phone, id) {
      ListedIff(Origins(ps, phone, supported), out, id);
      ProducedIff(ps, phone, supported, id);
    }
  }

  // The entries made of the shelves.
  ghost predicate Made(s: Shelf, out: seq<Entry>) {
    && Covered(s.order, s.names, s.ids) && |out| == |s.order|
    && forall k :: 0 <= k < |out| ==> out[k] == EntryOf(s.order[k], s.names, s.ids)
  }

  lemma ShelfCovered(ps: seq<Profile>, phone: string, supported: map<string, string>)
    ensures var s := ShelfOf(ps, |ps|, phone, supported); Covered(s.order, s.names, s.ids)
  {
    ShelfIsShelved(ps, |ps|, phone, supported);
    assert ps[..|ps|] == ps;
  }

  lemma MadeIsPartitioned(ps: seq<Profile>, phone: string, supported: map<string, string>, out: seq<Entry>)
    requires Made(ShelfOf(ps, |ps|, phone, supported), out)
    ensures Partitioned(Origins(ps, phone, supported), out)
  {
    var s := ShelfOf(ps, |ps|, phone, supported);
    ShelfIsShelved(ps, |ps|, phone, supported);
    assert ps[..|ps|] == ps;
    ListedIsPartitioned(Origins(ps, phone, supported), s.order, s.names, s.ids, out);
  }

  lemma MadeTells(ps: seq<Profile>, phone: string, supported: map<string, string>, out: seq<Entry>, k: nat)
    requires Made(ShelfOf(ps, |ps|, phone, supported), out) && k < |out|
    ensures Tells(ps, phone, supported, out[k])
  {
    var s := ShelfOf(ps, |ps|, phone, supported);
    MadeIsPartitioned(ps, phone, supported, out);
    ShelfInOrder(ps, phone, supported, s.order[k]);
    EntryTells(ps, phone, supported, out[k]);
  }

  lemma MadeInOrder(ps: seq<Profile>, phone: string, supported: map<string, string>, out: seq<Entry>, j: nat, k: nat)
    requires Made(ShelfOf(ps, |ps|, phone, supported), out) && j < k < |out|
    requires out[j].ids != [] && out[k].ids != []
    ensures FirstIdBefore(ps, phone, out[j], out[k])
  {
    var s := ShelfOf(ps, |ps|, phone, supported);
    ShelfInOrder(ps, phone, supported, "");
    var firsts := Firsts(s.order, s.ids);
    assert firsts[j] == out[j].ids[0] && firsts[k] == out[k].ids[0];
  }

  // Main result on the list, for every list of profiles.
  lemma MadeIsList(ps: seq<Profile>, phone: string, supported: map<string, string>, out: seq<Entry>)
    requires Made(ShelfOf(ps, |ps|, phone, supported), out)
    ensures ListOf(ps, phone, supported, out)
  {
    MadeIsPartitioned(ps, phone, supported, out);
    ListedIds(ps, phone, supported, out);
    forall k | 0 <= k < |out| ensures Tells(ps, phone, supported, out[k]) {
      MadeTells(ps, phone, supported, out, k);
    }
    forall j, k | 0 <= j < k < |out| ensures FirstIdBefore(ps, phone, out[j], out[k]) {
      MadeInOrder(ps, phone, supported, out, j, k);
    }
  }

  // One entry per app. The ids of all the entries together are exactly the addresses of the true profiles, each
  // listed once, under the app of the first profile that produces it.
  method VerifiedNames(phone: string, ps: seq<Profile>, supported: map<string, string>) returns (out: seq<Entry>)
    ensures ListOf(ps, phone, supported, out)
    ensures Partitioned(Origins(ps, phone, supported), out)
  {
    var order, names, appIDs := ShelveProfiles(phone, ps, supported);
    ShelfCovered(ps, phone, supported);
    out := ListEntries(order, names, appIDs);
    assert Made(ShelfOf(ps, |ps|, phone, supported), out);
    MadeIsPartitioned(ps, phone, supported, out);
    MadeIsList(ps, phone, supported, out);
  }

  // An id turns up in one entry only, once.
  lemma IdsDisjoint(out: seq<Entry>, made: map<string, Origin>, i: nat, j: nat, id: string)
    requires Partitioned(made, out) && i < |out| && j < |out| && id in out[i].ids && id in out[j].ids
    ensures i == j
  {
    assert Fits(out[i], made) && Fits(out[j], made);
    assert out[i].source == out[j].source;
  }
}
