/** How a configuration update is lost all the same: over every run at all, which of its steps leave a key
    behind for good. */
module ConfigLoss {
  import opened Base
  import opened ConfigCache
  import opened JsonValue

  /******* Three runs *******/

  // A pod without override table whose values are all plain JSON strings.
  function PlainPod(): Deploy {
    Deploy(false, text => Some(Str(text)))
  }

  const ROW := AuditRow(1, "k", BaseTable)
  const BEFORE := Tables(map["k" := Some("old")], map[], [])
  const AFTER := Tables(map["k" := Some("new")], map[], [ROW])

  const STARTED := State(BEFORE, map[], 0, Boot, [])

  lemma LoadedRow() returns (s: State)
    ensures Reaches(PlainPod(), STARTED, s) && s == State(BEFORE, map["k" := Str("old")], -1, Idle, [])
  {
    var p := PlainPod();
    Stays(p, STARTED);
    s := Extend(p, STARTED, STARTED, StartUp(true));
    s := Extend(p, STARTED, s, PageRead({"k"}, false));
    s := Extend(p, STARTED, s, LoopReadBase("k", true));
    s := Extend(p, STARTED, s, LoopWrite);
    s := Extend(p, STARTED, s, LoadDone);
  }

  lemma FailedLoad(fallback: bool) returns (s: State)
    ensures Reaches(PlainPod(), STARTED, s)
    ensures s == State(BEFORE, map[], -1, Idle, if fallback then [Fallback(-1, HaveValue("k", Some("old")))] else [])
  {
    var p := PlainPod();
    Stays(p, STARTED);
    s := Extend(p, STARTED, STARTED, StartUp(true));
    s := Extend(p, STARTED, s, PageFails);
    if fallback {
      s := Extend(p, STARTED, s, GetReadBase("k", true));
    }
  }

  // Start-up over one row whose load fails, or succeeds, by the time the value is changed.
  lemma ChangedAfterLoad(loaded: bool, fallback: bool) returns (s0: State, s: State)
    ensures Initial(s0) && Reaches(PlainPod(), s0, s)
    ensures s == State(AFTER, if loaded then map["k" := Str("old")] else map[], -1, Idle,
                       if fallback && !loaded then [Fallback(-1, HaveValue("k", Some("old")))] else [])
  {
    s0 := STARTED;
    if loaded {
      s := LoadedRow();
    } else {
      s := FailedLoad(fallback);
    }
    s := Extend(PlainPod(), s0, s, Upsert(BaseTable, "k", Some("new"), 1));
    assert s.db.base == map["k" := Some("new")];
  }

  // The cycle that finds the new row.
  lemma FindsTheRow(s0: State, s: State) returns (t: State)
    requires Reaches(PlainPod(), s0, s) && s.phase.Idle? && s.auditID == -1 && s.db == AFTER
    ensures Reaches(PlainPod(), s0, t) && t == s.(phase := Refreshing(1, Work({"k"}, None)))
  {
    assert [ROW][..0] == [] && LatestId(PlainPod(), [ROW]) == 1;
    assert [ROW][0].key in DeltaKeys(PlainPod(), [ROW], -1);
    assert DeltaKeys(PlainPod(), [ROW], -1) == {"k"};
    t := Extend(PlainPod(), s0, s, ReadLatest(true));
    t := Extend(PlainPod(), s0, t, ReadDelta(true));
  }

  lemma CyclePasses(s0: State, s: State) returns (t: State)
    requires Reaches(PlainPod(), s0, s) && s.db == AFTER && s.phase == Refreshing(1, Work({"k"}, None))
    ensures Reaches(PlainPod(), s0, t)
    ensures t == s.(auditID := 1, phase := Idle, configMap := s.configMap["k" := Str("new")])
  {
    t := Extend(PlainPod(), s0, s, LoopReadBase("k", true));
    t := Extend(PlainPod(), s0, t, LoopWrite);
    t := Extend(PlainPod(), s0, t, Advance);
  }

  // A fallback that straddles a whole cycle puts the old value back for good: the run is benign up to its
  // last write, which loses the key.
  lemma StraddlingFallbackLosesUpdate() returns (s0: State, s: State)
    ensures Initial(s0) && Reaches(PlainPod(), s0, s)
    ensures s.phase.Idle? && Step(PlainPod(), s, GetWrite(0)).Some? && !Benign(PlainPod(), s, GetWrite(0))
    ensures Lost(PlainPod(), Step(PlainPod(), s, GetWrite(0)).value, "k")
  {
    s0, s := ChangedAfterLoad(false, true);
    s := FindsTheRow(s0, s);
    s := CyclePasses(s0, s);
    assert s.db.audit[0] == ROW;
    assert RowAbove(PlainPod(), s.db.audit, "k", s.gets[0].seen);
  }

  // A cycle whose base read fails still advances, and the key is lost.
  lemma FailedRefreshLosesUpdate() returns (s0: State, s: State)
    ensures Initial(s0) && Reaches(PlainPod(), s0, s)
    ensures Step(PlainPod(), s, LoopReadBase("k", false)).Some?
    ensures var t := Step(PlainPod(), s, LoopReadBase("k", false)).value;
            Step(PlainPod(), t, Advance).Some? &&
            var u := Step(PlainPod(), t, Advance).value;
            u.phase.Idle? && Lost(PlainPod(), u, "k")
  {
    s0, s := ChangedAfterLoad(true, false);
    s := FindsTheRow(s0, s);
  }

  // A pod with an override table, whose values are plain JSON strings too.
  function OverridePod(): Deploy {
    Deploy(true, text => Some(Str(text)))
  }

  const BOTH := Tables(map["k" := Some("b")], map["k" := Some("o")], [])

  lemma HalfLoaded(s0: State) returns (s: State)
    requires s0 == State(BOTH, map[], 0, Boot, [])
    ensures Reaches(OverridePod(), s0, s)
    ensures s == State(BOTH, map[], -1, Loading(Work({}, Some(HaveBase("k", Some("b")))), false), [])
  {
    var p := OverridePod();
    Stays(p, s0);
    s := Extend(p, s0, s0, StartUp(true));
    s := Extend(p, s0, s, PageRead({"k"}, false));
    s := Extend(p, s0, s, LoopReadBase("k", true));
    assert {"k"} - {"k"} == {};
  }

  // A first load whose override read fails leaves the base value behind for good, with no cycle involved.
  lemma FailedOverrideLosesUpdate() returns (s0: State, s: State, t: State, u: State, v: State)
    ensures Initial(s0) && Reaches(OverridePod(), s0, s)
    ensures Step(OverridePod(), s, LoopReadOverride(false)) == Some(t)
    ensures Step(OverridePod(), t, LoopWrite) == Some(u)
    ensures Step(OverridePod(), u, LoadDone) == Some(v)
    ensures v.phase.Idle? && Lost(OverridePod(), v, "k")
  {
    s0 := State(BOTH, map[], 0, Boot, []);
    s := HalfLoaded(s0);
    t := s.(phase := Loading(Work({}, Some(HaveValue("k", Some("b")))), false));
    u := s.(configMap := map["k" := Str("b")], phase := Loading(Work({}, None), false));
    v := u.(phase := Idle);
  }

  /******* Exactly what is lost *******/

  // No step of the run makes up for the key.
  ghost predicate NeverHealed(p: Deploy, s: State, es: seq<Event>, key: string)
    decreases |es|
  {
    es == [] ||
    (!Heals(p, s, es[0], key) &&
     match Step(p, s, es[0])
     case None => true
     case Some(s') => NeverHealed(p, s', es[1..], key))
  }

  // Some step of the run loses the key and no later step makes up for it.
  ghost predicate LeftLost(p: Deploy, s: State, es: seq<Event>, key: string)
    decreases |es|
  {
    es != [] &&
    match Step(p, s, es[0])
    case None => false
    case Some(s') =>
      (Loses(p, s, es[0], key) && NeverHealed(p, s', es[1..], key)) || LeftLost(p, s', es[1..], key)
  }

  lemma {:induction false} RunLosesIff(p: Deploy, s: State, es: seq<Event>, s': State, key: string)
    requires Sound(p, s) && Exec(p, s, es) == Some(s') && key != ""
    ensures Lost(p, s', key) <==> LeftLost(p, s, es, key) || (Lost(p, s, key) && NeverHealed(p, s, es, key))
    decreases |es|
  {
    if es != [] {
      var t := Step(p, s, es[0]).value;
      StepKeepsSound(p, s, es[0], t);
      StepLosesIff(p, s, es[0], t, key);
      RunLosesIff(p, t, es[1..], s', key);
    }
  }

  // Main result: at the end of any run from start-up, whatever fails in it and whenever fallbacks land, a key is
  // lost exactly when some step has lost it and no later step has made up for that.
  lemma LostIff(p: Deploy, s0: State, es: seq<Event>, s: State, key: string)
    requires Initial(s0) && Exec(p, s0, es) == Some(s) && key != ""
    ensures Lost(p, s, key) <==> LeftLost(p, s0, es, key)
  {
    InitialIsInv(p, s0);
    RunLosesIff(p, s0, es, s, key);
  }

  /******* A cycle left to itself *******/

  // The events of a cycle's own refresh, left to itself.
  predicate CycleOnly(es: seq<Event>) {
    forall i :: 0 <= i < |es| ==> es[i].LoopReadBase? || es[i].LoopReadOverride? || es[i].LoopWrite? || es[i].Advance?
  }

  // What became of the reads of one key in a cycle.
  datatype Fate = Unread | BaseFailed | OverrideFailed | Read

  function FateOf(p: Deploy, es: seq<Event>, key: string): Fate {
    if es == [] then Unread
    else match es[0]
      case LoopReadBase(k, ok) =>
        if k != key then FateOf(p, es[1..], key)
        else if !ok then BaseFailed
        else if p.hasOverride && |es| > 1 && es[1] == LoopReadOverride(false) then OverrideFailed
        else Read
      case _ => FateOf(p, es[1..], key)
  }

  predicate SameEntry(m: map<string, Json>, m': map<string, Json>, key: string) {
    (key in m <==> key in m') && (key in m ==> m[key] == m'[key])
  }

  predicate TakesValue(p: Deploy, m: map<string, Json>, m': map<string, Json>, key: string, v: Option<string>) {
    if v.Some? then key in m' && m'[key] == ParseValue(p, v.value) else SameEntry(m, m', key)
  }

  // What a cycle that starts its work list over leaves at a key.
  predicate Leaves(p: Deploy, db: Tables, m: map<string, Json>, m': map<string, Json>, key: string, fate: Fate) {
    match fate
    case Unread => SameEntry(m, m', key)
    case BaseFailed => SameEntry(m, m', key)
    case OverrideFailed => TakesValue(p, m, m', key, Cell(db.base, key))
    case Read => TakesValue(p, m, m', key, Effective(p, db, key))
  }

  // The first n events read one key of the work list to the end and lead to t.
  ghost predicate OneKey(p: Deploy, s: State, es: seq<Event>, n: nat, t: State)
    requires s.phase.Refreshing? && es != []
  {
    && 0 < n <= |es| && es[0].LoopReadBase? && es[0].key in s.phase.work.todo
    && (forall i :: 0 < i < n ==> !es[i].LoopReadBase?)
    && t == s.(phase := Refreshing(s.phase.latest, Work(s.phase.work.todo - {es[0].key}, None)),
               configMap := t.configMap)
    && Leaves(p, s.db, s.configMap, t.configMap, es[0].key, FateOf(p, es, es[0].key))
    && forall k :: k != es[0].key ==> SameEntry(s.configMap, t.configMap, k)
  }

  lemma ReadsBase(p: Deploy, s: State, es: seq<Event>, s': State) returns (t: State)
    requires s.phase.Refreshing? && s.phase.work.cur == None
    requires es != [] && es[0].LoopReadBase? && es[0].ok && !p.hasOverride
    requires CycleOnly(es) && Exec(p, s, es) == Some(s') && s'.phase.Idle?
    ensures OneKey(p, s, es, 2, t) && Exec(p, t, es[2..]) == Some(s')
  {
    assert es[0..] == es;
    t := TakeStep(p, s, es, 0, s');
    t := TakeStep(p, t, es, 1, s');
  }

  lemma ReadsBoth(p: Deploy, s: State, es: seq<Event>, s': State) returns (t: State)
    requires s.phase.Refreshing? && s.phase.work.cur == None
    requires es != [] && es[0].LoopReadBase? && es[0].ok && p.hasOverride
    requires CycleOnly(es) && Exec(p, s, es) == Some(s') && s'.phase.Idle?
    ensures OneKey(p, s, es, 3, t) && Exec(p, t, es[3..]) == Some(s')
  {
    assert es[0..] == es;
    t := TakeStep(p, s, es, 0, s');
    t := TakeStep(p, t, es, 1, s');
    t := TakeStep(p, t, es, 2, s');
  }

  // Between keys, a cycle that goes on reads one key to the end.
  lemma ReadsOneKey(p: Deploy, s: State, es: seq<Event>, s': State) returns (n: nat, t: State)
    requires s.phase.Refreshing? && s.phase.work.cur == None
    requires CycleOnly(es) && es != [] && es[0] != Advance
    requires Exec(p, s, es) == Some(s') && s'.phase.Idle?
    ensures OneKey(p, s, es, n, t) && Exec(p, t, es[n..]) == Some(s')
  {
    assert es[0..] == es;
    n := 1;
    t := TakeStep(p, s, es, 0, s');
    if es[0].ok {
      if p.hasOverride {
        n := 3;
        t := ReadsBoth(p, s, es, s');
      } else {
        n := 2;
        t := ReadsBase(p, s, es, s');
      }
    }
  }

  // A cycle that closes has read its whole work list, and nothing follows.
  lemma Closes(p: Deploy, s: State, es: seq<Event>, s': State)
    requires s.phase.Refreshing? && es != [] && es[0] == Advance
    requires CycleOnly(es) && Exec(p, s, es) == Some(s') && s'.phase.Idle?
    ensures |es| == 1 && s.phase.work.todo == {} && s' == s.(auditID := s.phase.latest, phase := Idle)
  {
    assert es[0..] == es;
    var t := TakeStep(p, s, es, 0, s');
    if |es| > 1 {
      NothingFromIdle(p, t, es[1]);
    }
  }

  lemma NothingFromIdle(p: Deploy, s: State, e: Event)
    requires s.phase.Idle? && (e.LoopReadBase? || e.LoopReadOverride? || e.LoopWrite? || e.Advance?)
    ensures Step(p, s, e) == None
  {
  }

  lemma TakeStep(p: Deploy, s: State, es: seq<Event>, i: nat, s': State) returns (t: State)
    requires i <= |es| && Exec(p, s, es[i..]) == Some(s') && (s' != s || i < |es|)
    ensures i < |es| && Step(p, s, es[i]) == Some(t) && Exec(p, t, es[i + 1..]) == Some(s')
  {
    assert es[i..] != [] && es[i..][0] == es[i] && es[i..][1..] == es[i + 1..];
    t := Step(p, s, es[i]).value;
  }

  lemma {:induction false} FateSkips(p: Deploy, es: seq<Event>, n: nat, key: string)
    requires n <= |es| && forall i :: 0 <= i < n ==> !es[i].LoopReadBase? || es[i].key != key
    ensures FateOf(p, es, key) == FateOf(p, es[n..], key)
  {
    if n > 0 {
      assert es[1..][n - 1..] == es[n..];
      assert forall i :: 0 <= i < n - 1 ==> es[1..][i] == es[i + 1];
      FateSkips(p, es[1..], n - 1, key);
    } else {
      assert es[0..] == es;
    }
  }

  lemma LeavesAfterSame(p: Deploy, db: Tables, m: map<string, Json>, m1: map<string, Json>, m2: map<string, Json>,
                        key: string, fate: Fate)
    requires SameEntry(m, m1, key) && Leaves(p, db, m1, m2, key, fate)
    ensures Leaves(p, db, m, m2, key, fate)
  {
  }

  lemma SameAfterLeaves(p: Deploy, db: Tables, m: map<string, Json>, m1: map<string, Json>, m2: map<string, Json>,
                        key: string, fate: Fate)
    requires Leaves(p, db, m, m1, key, fate) && SameEntry(m1, m2, key)
    ensures Leaves(p, db, m, m2, key, fate)
  {
  }

  // A whole cycle leaves at each key what the fate of its reads says, and reads exactly its work list.
  lemma {:induction false} CycleLeaves(p: Deploy, s: State, es: seq<Event>, s': State, key: string)
    requires s.phase.Refreshing? && s.phase.work.cur == None
    requires CycleOnly(es) && Exec(p, s, es) == Some(s') && s'.phase.Idle?
    ensures s'.db == s.db && s'.gets == s.gets && s'.auditID == s.phase.latest
    ensures FateOf(p, es, key) == Unread <==> key !in s.phase.work.todo
    ensures Leaves(p, s.db, s.configMap, s'.configMap, key, FateOf(p, es, key))
    decreases |es|
  {
    if es[0] == Advance {
      Closes(p, s, es, s');
      FateSkips(p, es, 1, key);
    } else {
      var n, t := ReadsOneKey(p, s, es, s');
      var rest := es[n..];
      assert forall i :: 0 <= i < |rest| ==> rest[i] == es[n + i];
      CycleLeaves(p, t, rest, s', key);
      if es[0].key != key {
        FateSkips(p, es, n, key);
        LeavesAfterSame(p, s.db, s.configMap, t.configMap, s'.configMap, key, FateOf(p, es, key));
      } else {
        SameAfterLeaves(p, s.db, s.configMap, t.configMap, s'.configMap, key, FateOf(p, es, key));
      }
    }
  }

  // What a failed override read stores in place of the override: the base value, if there is one.
  predicate StoredWrong(p: Deploy, s: State, key: string) {
    var b, o := Cell(s.db.base, key), Cell(s.db.over, key);
    p.hasOverride && o.Some? && if b.Some? then ParseValue(p, b.value) != ParseValue(p, o.value) else Stale(p, s, key)
  }

  lemma {:induction false} OverrideFate(p: Deploy, es: seq<Event>, key: string)
    requires FateOf(p, es, key) == OverrideFailed
    ensures p.hasOverride
  {
    if !(es[0].LoopReadBase? && es[0].key == key) {
      OverrideFate(p, es[1..], key);
    }
  }

  // A cycle left to itself, from any state at all: unless a row above the id it is going to take names the key,
  // the key is lost afterwards exactly when it was lost and not read, when its base read failed on it stale, or
  // when its override read failed and the base value says something else.
  lemma CycleLosesIff(p: Deploy, s: State, es: seq<Event>, s': State, key: string)
    requires s.phase.Refreshing? && s.phase.work.cur == None
    requires CycleOnly(es) && Exec(p, s, es) == Some(s') && s'.phase.Idle?
    ensures Lost(p, s', key) <==>
            !RowAbove(p, s.db.audit, key, s.phase.latest) &&
            match FateOf(p, es, key)
            case Unread => Stale(p, s, key)
            case BaseFailed => Stale(p, s, key)
            case OverrideFailed => StoredWrong(p, s, key)
            case Read => false
  {
    CycleLeaves(p, s, es, s', key);
    match FateOf(p, es, key)
    case Unread => assert Stale(p, s', key) <==> Stale(p, s, key);
    case BaseFailed => assert Stale(p, s', key) <==> Stale(p, s, key);
    case OverrideFailed =>
      OverrideFate(p, es, key);
      assert Stale(p, s', key) <==> StoredWrong(p, s, key);
    case Read => assert !Stale(p, s', key);
  }

  // Late fallbacks: after any benign run, the write of a fallback whose reads succeeded loses its key exactly
  // when the loop has passed every row the key has got since the fallback's first read, there is such a row, and
  // what was read says something else than the tables do now.
  lemma StraddlingWriteLosesIff(p: Deploy, s0: State, before: seq<Event>, s: State, i: nat)
    requires Initial(s0) && BenignRun(p, s0, before) && Exec(p, s0, before) == Some(s)
    requires Step(p, s, GetWrite(i)).Some? && s.gets[i].read.key != ""
    ensures var s', f := Step(p, s, GetWrite(i)).value, s.gets[i];
            var k, v, now := f.read.key, f.read.value, Effective(p, s.db, f.read.key);
            Lost(p, s', k) <==>
            RowAbove(p, s.db.audit, k, f.seen) && !Covered(p, s, k)
            && v.Some? && now.Some? && ParseValue(p, v.value) != ParseValue(p, now.value)
  {
    InitialIsInv(p, s0);
    RunKeepsInv(p, s0, before);
    var k := s.gets[i].read.key;
    assert !Lost(p, s, k);
    StepLosesIff(p, s, GetWrite(i), Step(p, s, GetWrite(i)).value, k);
  }
}
