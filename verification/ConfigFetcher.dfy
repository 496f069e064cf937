/** The fetcher as the program runs it: its map and its id, updated step by step against tables that the protocol
    of ConfigCache lets change at any moment. Each method is proved to be a benign stretch of that protocol. */
module ConfigFetcher {
  import opened Base
  import opened ConfigCache
  import opened JsonValue

  predicate InLoop(phase: Phase) {
    phase.Loading? || phase.Refreshing?
  }

  function WithWork(phase: Phase, w: Work): Phase
    requires InLoop(phase)
  {
    match phase
    case Loading(_, more) => Loading(w, more)
    case Refreshing(latest, _) => Refreshing(latest, w)
  }

  const PAGE_LIMIT := 30

  // m1 is m0 with every listed key that has a value set to that value, and nothing else changed.
  ghost predicate Refreshed(p: Deploy, db: Tables, m0: map<string, Json>, m1: map<string, Json>, keys: set<string>) {
    forall k ::
      var v := Effective(p, db, k);
      if k in keys && v.Some? then k in m1 && m1[k] == ParseValue(p, v.value)
      else (k in m1 <==> k in m0) && (k in m0 ==> m1[k] == m0[k])
  }

  // Two refreshes one after the other are one of both sets of keys.
  lemma RefreshedBoth(p: Deploy, db: Tables, m0: map<string, Json>, m1: map<string, Json>, m2: map<string, Json>,
                      a: set<string>, b: set<string>)
    requires Refreshed(p, db, m0, m1, a) && Refreshed(p, db, m1, m2, b)
    ensures Refreshed(p, db, m0, m2, a + b)
  {
  }

  // The rows of the base table in listing order.
  ghost predicate Listing(db: Tables, rows: seq<string>) {
    && (forall k :: k in db.base <==> k in rows)
    && (forall i, j :: 0 <= i < j < |rows| ==> rows[i] != rows[j])
  }

  function KeysOf(rows: seq<string>): set<string> {
    set k | k in rows && k != ""
  }

  function FirstGap(rows: seq<string>): nat {
    if rows == [] || rows[0] == "" then 0 else 1 + FirstGap(rows[1..])
  }

  // Where paging stops: the end of the first page that holds an unusable row or runs past the table.
  function PagesEnd(rows: seq<string>): nat {
    var stop := (FirstGap(rows) / PAGE_LIMIT + 1) * PAGE_LIMIT;
    if stop < |rows| then stop else |rows|
  }

  lemma {:induction false} FirstGapSplits(rows: seq<string>)
    ensures FirstGap(rows) <= |rows|
    ensures forall i :: 0 <= i < FirstGap(rows) ==> rows[i] != ""
    ensures FirstGap(rows) < |rows| ==> rows[FirstGap(rows)] == ""
  {
    if rows != [] && rows[0] != "" {
      FirstGapSplits(rows[1..]);
      assert forall i :: 0 < i < |rows| ==> rows[i] == rows[1..][i - 1];
    }
  }

  function Usable(page: seq<string>): seq<string> {
    if page == [] then [] else (if page[0] == "" then [] else [page[0]]) + Usable(page[1..])
  }

  lemma {:induction false} UsableKeys(page: seq<string>)
    ensures |Usable(page)| <= |page|
    ensures |Usable(page)| == |page| <==> forall i :: 0 <= i < |page| ==> page[i] != ""
    ensures forall k :: k in Usable(page) <==> k in page && k != ""
  {
    if page != [] {
      UsableKeys(page[1..]);
      assert page == [page[0]] + page[1..];
    }
  }

  function PageEnd(rows: seq<string>, offset: nat): nat
    requires offset <= |rows|
    ensures offset <= PageEnd(rows, offset) <= |rows|
  {
    if offset + PAGE_LIMIT < |rows| then offset + PAGE_LIMIT else |rows|
  }

  // A page is full of usable keys exactly when the first gap lies beyond it.
  lemma FullPage(rows: seq<string>, offset: nat)
    requires offset <= FirstGap(rows) && offset <= |rows|
    ensures var page := rows[offset..PageEnd(rows, offset)];
            |Usable(page)| <= PAGE_LIMIT &&
            (|Usable(page)| == PAGE_LIMIT <==> offset + PAGE_LIMIT <= FirstGap(rows))
  {
    var page := rows[offset..PageEnd(rows, offset)];
    UsableKeys(page);
    FirstGapSplits(rows);
    var gap := FirstGap(rows);
    assert forall i :: 0 <= i < |page| ==> page[i] == rows[offset + i];
    if gap < offset + PAGE_LIMIT && |page| == PAGE_LIMIT {
      assert page[gap - offset] == "";
    }
  }

  lemma PageStops(rows: seq<string>, offset: nat)
    requires offset % PAGE_LIMIT == 0 && offset <= FirstGap(rows) < offset + PAGE_LIMIT && offset <= |rows|
    ensures PageEnd(rows, offset) == PagesEnd(rows)
  {
    assert FirstGap(rows) / PAGE_LIMIT == offset / PAGE_LIMIT;
  }

  lemma PageKeys(rows: seq<string>, a: nat, b: nat)
    requires a <= b <= |rows|
    ensures KeysOf(rows[..b]) == KeysOf(rows[..a]) + set k | k in Usable(rows[a..b])
    ensures "" !in Usable(rows[a..b])
  {
    UsableKeys(rows[a..b]);
    assert rows[..b] == rows[..a] + rows[a..b];
  }

  // The load covers every usable key exactly when none lies past the page of the first unusable row:
  // one empty key among the first rows hides every later page.
  lemma LoadCompleteIff(db: Tables, rows: seq<string>)
    requires Listing(db, rows)
    ensures KeysOf(rows[..PagesEnd(rows)]) == KeysOf(rows) <==>
            forall i :: (FirstGap(rows) / PAGE_LIMIT + 1) * PAGE_LIMIT <= i < |rows| ==> rows[i] == ""
  {
    var end := PagesEnd(rows);
    if i :| end <= i < |rows| && rows[i] != "" {
      assert rows[i] in KeysOf(rows);
      assert rows[i] !in rows[..end];
    } else {
      forall k | k in KeysOf(rows) ensures k in KeysOf(rows[..end]) {
        var i :| 0 <= i < |rows| && rows[i] == k;
        assert rows[..end][i] == k;
      }
    }
  }

  lemma RefreshIsRun(p: Deploy, s0: State, s: State, key: string) returns (t: State)
    requires Reaches(p, s0, s) && InLoop(s.phase)
    requires CurrentWork(s).cur == None && key in CurrentWork(s).todo
    ensures Reaches(p, s0, t)
    ensures var v := Effective(p, s.db, key);
            t == s.(phase := WithWork(s.phase, Work(CurrentWork(s).todo - {key}, None)),
                    configMap := if v.Some? then s.configMap[key := ParseValue(p, v.value)] else s.configMap)
  {
    t := Extend(p, s0, s, LoopReadBase(key, true));
    if p.hasOverride {
      t := Extend(p, s0, t, LoopReadOverride(true));
    }
    t := Extend(p, s0, t, LoopWrite);
  }

  // What one refresh reads of a key whose base read succeeds.
  function ReadKey(p: Deploy, atBase: Tables, atOverride: Tables, key: string, overrideOk: bool): (r: Reading)
    ensures r.HaveValue?
  {
    var r := AfterBase(p, atBase, key);
    if p.hasOverride then AfterOverride(atOverride, r, overrideOk) else r
  }

  class Fetcher {
    const p: Deploy
    var configMap: map<string, Json>
    var auditID: int

    constructor (p: Deploy)
      ensures this.p == p && configMap == map[] && auditID == 0
    {
      this.p := p;
      configMap, auditID := map[], 0;
    }

    ghost function View(db: Tables, phase: Phase): State
      reads this
    {
      State(db, configMap, auditID, phase, [])
    }

    // The two reads see the tables at two moments, and either may fail: what is stored is what the protocol's
    // read and write steps store.
    method RefreshKey(atBase: Tables, atOverride: Tables, key: string, baseOk: bool, overrideOk: bool)
      modifies this`configMap
      ensures configMap == if baseOk then Stored(p, old(configMap), ReadKey(p, atBase, atOverride, key, overrideOk))
                           else old(configMap)
      ensures baseOk && overrideOk && atBase == atOverride ==>
                Refreshed(p, atBase, old(configMap), configMap, {key})
      // In terms of the cells: an override that was read and is not NULL hides the base value, a NULL or missing value
      // stores nothing, and a text that is no JSON is stored as an empty object.
      ensures var hidden := p.hasOverride && overrideOk && key in atOverride.over && atOverride.over[key].Some?;
              var text := if hidden then atOverride.over[key]
                          else if key in atBase.base then atBase.base[key] else None;
              configMap == if !baseOk || text.None? then old(configMap)
                           else old(configMap)[key := if p.decode(text.value).Some? then p.decode(text.value).value
                                                      else Obj(map[])]
    {
      if !baseOk {
        return;
      }
      var value := Cell(atBase.base, key);
      if p.hasOverride {
        if overrideOk {
          var ov := Cell(atOverride.over, key);
          if ov.Some? {
            value := ov;
          }
        }
      }
      if value.None? {
        return;
      }
      configMap := configMap[key := ParseValue(p, value.value)];
    }

    // The request path: a miss fetches the key, then falls back to the caller's default.
    method Get(atBase: Tables, atOverride: Tables, key: string, def: Json, baseOk: bool, overrideOk: bool)
      returns (v: Json)
      modifies this`configMap
      ensures key in old(configMap) ==> v == old(configMap)[key] && configMap == old(configMap)
      ensures key !in old(configMap) ==>
                var text := ReadKey(p, atBase, atOverride, key, overrideOk).value;
                if baseOk && text.Some?
                then v == ParseValue(p, text.value) && configMap == old(configMap)[key := v]
                else v == def && configMap == old(configMap)
    {
      if key in configMap {
        return configMap[key];
      }
      RefreshKey(atBase, atOverride, key, baseOk, overrideOk);
      v := if key in configMap then configMap[key] else def;
    }

    // Refreshes the keys of a worklist in any order, as a benign stretch of the protocol.
    method RefreshAll(db: Tables, keys: set<string>, ghost phase: Phase)
      requires InLoop(phase)
      modifies this`configMap
      ensures Refreshed(p, db, old(configMap), configMap, keys)
      ensures Reaches(p, old(View(db, WithWork(phase, Work(keys, None)))), View(db, WithWork(phase, Work({}, None))))
    {
      ghost var start := View(db, WithWork(phase, Work(keys, None)));
      Stays(p, start);
      var todo := keys;
      while todo != {}
        invariant todo <= keys
        invariant Refreshed(p, db, old(configMap), configMap, keys - todo)
        invariant Reaches(p, start, View(db, WithWork(phase, Work(todo, None))))
      {
        var key :| key in todo;
        ghost var before, done := configMap, keys - todo;
        ghost var next := RefreshIsRun(p, start, View(db, WithWork(phase, Work(todo, None))), key);
        RefreshKey(db, db, key, true, true);
        RefreshedBoth(p, db, old(configMap), before, configMap, done, {key});
        todo := todo - {key};
        assert keys - todo == done + {key};
      }
    }

    // One cycle over tables that do not change meanwhile: it visits exactly the keys with a newer row.
    method FetchUpdates(db: Tables)
      modifies this
      ensures auditID == if LatestId(p, db.audit) > old(auditID) then LatestId(p, db.audit) else old(auditID)
      ensures Refreshed(p, db, old(configMap), configMap, DeltaKeys(p, db.audit, old(auditID)))
      ensures Reaches(p, old(View(db, Idle)), View(db, Idle))
    {
      ghost var start := View(db, Idle);
      Stays(p, start);
      var latest := LatestId(p, db.audit);
      if latest <= auditID {
        forall i | 0 <= i < |db.audit| && Relevant(p, db.audit[i].table) ensures db.audit[i].id <= auditID {
          LatestIdIsMax(p, db.audit, i);
        }
        return;
      }
      var seen := DeltaKeys(p, db.audit, auditID);
      ghost var at := Extend(p, start, start, ReadLatest(true));
      at := Extend(p, start, at, ReadDelta(true));
      RefreshAll(db, seen, Refreshing(latest, Work({}, None)));
      Joins(p, start, at, View(db, Refreshing(latest, Work({}, None))));
      at := Extend(p, start, View(db, Refreshing(latest, Work({}, None))), Advance);
      auditID := latest;
    }

    method LoadPage(db: Tables, keys: set<string>, ghost more: bool, ghost start: State)
      requires "" !in keys && Reaches(p, start, View(db, Loading(Work({}, None), true)))
      modifies this`configMap
      ensures Refreshed(p, db, old(configMap), configMap, keys)
      ensures Reaches(p, start, View(db, Loading(Work({}, None), more)))
    {
      ghost var at := Extend(p, start, View(db, Loading(Work({}, None), true)), PageRead(keys, more));
      RefreshAll(db, keys, Loading(Work({}, None), more));
      Joins(p, start, at, View(db, Loading(Work({}, None), more)));
    }

    // The first load, page by page: it stops after the first page that yields fewer usable keys than asked.
    method FetchAllConfigs(db: Tables, rows: seq<string>)
      requires Listing(db, rows)
      modifies this`configMap
      ensures Refreshed(p, db, old(configMap), configMap, KeysOf(rows[..PagesEnd(rows)]))
      ensures Reaches(p, old(View(db, Loading(Work({}, None), true))), View(db, Idle))
    {
      ghost var start := View(db, Loading(Work({}, None), true));
      Stays(p, start);
      var offset := 0;
      while true
        invariant offset % PAGE_LIMIT == 0 && offset <= FirstGap(rows) && offset <= |rows|
        invariant Refreshed(p, db, old(configMap), configMap, KeysOf(rows[..offset]))
        invariant Reaches(p, start, View(db, Loading(Work({}, None), true)))
        decreases |rows| - offset
      {
        var end := PageEnd(rows, offset);
        var keys := Usable(rows[offset..end]);
        PageKeys(rows, offset, end);
        FullPage(rows, offset);
        ghost var was, more := configMap, |keys| == PAGE_LIMIT;
        LoadPage(db, (set k | k in keys), more, start);
        RefreshedBoth(p, db, old(configMap), was, configMap, KeysOf(rows[..offset]), set k | k in keys);
        FirstGapSplits(rows);
        if |keys| < PAGE_LIMIT {
          PageStops(rows, offset);
          ghost var done := Extend(p, start, View(db, Loading(Work({}, None), more)), LoadDone);
          return;
        }
        offset := offset + |keys|;
      }
    }

    // Start-up: the audit id is taken before anything is loaded.
    method Start(db: Tables, rows: seq<string>)
      requires Listing(db, rows)
      modifies this
      ensures auditID == LatestId(p, db.audit)
      ensures Refreshed(p, db, old(configMap), configMap, KeysOf(rows[..PagesEnd(rows)]))
      ensures Reaches(p, old(View(db, Boot)), View(db, Idle))
    {
      ghost var start := View(db, Boot);
      Stays(p, start);
      ghost var at := Extend(p, start, start, StartUp(true));
      auditID := LatestId(p, db.audit);
      FetchAllConfigs(db, rows);
      Joins(p, start, at, View(db, Idle));
    }
  }
}
