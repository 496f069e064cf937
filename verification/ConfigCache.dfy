/** The configuration cache: an in-memory map that follows a database through an audit log.

    The database takes upserts at any moment, each leaving one audit row with a fresh, larger id. The
    refresh loop reads in separate steps (latest id, rows since its own id, then base and override
    value of one key at a time), so upserts and request-path fallbacks interleave with every step. */
module ConfigCache {
  import opened Base
  import opened JsonValue

  /******* The database *******/

  datatype Table = BaseTable | OverrideTable | OtherTable

  // A NULL key and an empty one are treated alike by the service; both are "" here.
  datatype AuditRow = AuditRow(id: int, key: string, table: Table)

  // None stands for a NULL value.
  datatype Tables = Tables(base: map<string, Option<string>>,
                           over: map<string, Option<string>>,
                           audit: seq<AuditRow>)

  // Whether this pod consults an override table, and how a value string decodes (None: not JSON).
  datatype Deploy = Deploy(hasOverride: bool, decode: string -> Option<Json>)

  function Cell(t: map<string, Option<string>>, key: string): Option<string> {
    if key in t then t[key] else None
  }

  // The override value when the pod has one that is not NULL, else the base value.
  function Effective(p: Deploy, db: Tables, key: string): Option<string> {
    var ov := Cell(db.over, key);
    if p.hasOverride && ov.Some? then ov else Cell(db.base, key)
  }

  function ParseValue(p: Deploy, text: string): Json {
    match p.decode(text)
    case Some(v) => v
    case None => Obj(map[])
  }

  predicate Relevant(p: Deploy, t: Table) {
    t == BaseTable || (p.hasOverride && t == OverrideTable)
  }

  // The largest id among the rows of this pod's tables, or -1.
  function LatestId(p: Deploy, audit: seq<AuditRow>): int {
    if audit == [] then -1
    else
      var last, rest := audit[|audit| - 1], LatestId(p, audit[..|audit| - 1]);
      if Relevant(p, last.table) && last.id > rest then last.id else rest
  }

  ghost predicate RowAbove(p: Deploy, audit: seq<AuditRow>, key: string, floor: int) {
    exists i :: 0 <= i < |audit| && audit[i].key == key && audit[i].id > floor && Relevant(p, audit[i].table)
  }

  // The non-empty keys with a row above the given id: what the delta query returns.
  function DeltaKeys(p: Deploy, audit: seq<AuditRow>, above: int): set<string> {
    set i | 0 <= i < |audit| && audit[i].id > above && Relevant(p, audit[i].table) && audit[i].key != "" ::
      audit[i].key
  }

  /******* The protocol *******/

  // One refreshKey call in progress.
  datatype Reading = HaveBase(key: string, base: Option<string>) | HaveValue(key: string, value: Option<string>)

  datatype Work = Work(todo: set<string>, cur: Option<Reading>)

  datatype Phase =
    | Boot
    | Loading(work: Work, more: bool)
    | Idle
    | Checked(latest: int)
    | Refreshing(latest: int, work: Work)

  // A Get that missed and is fetching its key; seen is the latest id when it read the base table.
  datatype Fallback = Fallback(seen: int, read: Reading)

  datatype State = State(db: Tables, configMap: map<string, Json>, auditID: int,
                         phase: Phase, gets: seq<Fallback>)

  datatype Event =
    | Upsert(table: Table, key: string, value: Option<string>, id: int)
    | StartUp(ok: bool)
    | PageRead(keys: set<string>, more: bool)
    | PageFails
    | LoadDone
    | ReadLatest(ok: bool)
    | ReadDelta(ok: bool)
    | LoopReadBase(key: string, ok: bool)
    | LoopReadOverride(ok: bool)
    | LoopWrite
    | Advance
    | GetReadBase(key: string, ok: bool)
    | GetReadOverride(i: nat, ok: bool)
    | GetWrite(i: nat)

  function AfterBase(p: Deploy, db: Tables, key: string): Reading {
    var b := Cell(db.base, key);
    if p.hasOverride then HaveBase(key, b) else HaveValue(key, b)
  }

  // A failed override query leaves the base value standing.
  function AfterOverride(db: Tables, r: Reading, ok: bool): Reading
    requires r.HaveBase?
  {
    var ov := Cell(db.over, r.key);
    HaveValue(r.key, if ok && ov.Some? then ov else r.base)
  }

  function Stored(p: Deploy, m: map<string, Json>, r: Reading): map<string, Json>
    requires r.HaveValue?
  {
    if r.value.Some? then m[r.key := ParseValue(p, r.value.value)] else m
  }

  function WithUpsert(db: Tables, table: Table, key: string, value: Option<string>, id: int): Tables {
    var log := db.audit + [AuditRow(id, key, table)];
    match table
    case BaseTable => Tables(db.base[key := value], db.over, log)
    case OverrideTable => Tables(db.base, db.over[key := value], log)
    case OtherTable => Tables(db.base, db.over, log)
  }

  // The step of the refresh loop's own refreshKey, shared by the first load and by later cycles.
  function WorkStep(p: Deploy, s: State, w: Work, e: Event): Option<(Work, map<string, Json>)> {
    match e
    case LoopReadBase(k, ok) =>
      if k in w.todo && w.cur == None
      then Some((Work(w.todo - {k}, if ok then Some(AfterBase(p, s.db, k)) else None), s.configMap))
      else None
    case LoopReadOverride(ok) =>
      if w.cur.Some? && w.cur.value.HaveBase?
      then Some((Work(w.todo, Some(AfterOverride(s.db, w.cur.value, ok))), s.configMap))
      else None
    case LoopWrite =>
      if w.cur.Some? && w.cur.value.HaveValue?
      then Some((Work(w.todo, None), Stored(p, s.configMap, w.cur.value)))
      else None
    case _ => None
  }

  // One atomic step; None when the event is not possible in the state.
  function Step(p: Deploy, s: State, e: Event): Option<State> {
    match e
    case Upsert(t, k, v, id) =>
      if id >= 0 && forall i :: 0 <= i < |s.db.audit| ==> s.db.audit[i].id < id
      then Some(s.(db := WithUpsert(s.db, t, k, v, id))) else None
    case StartUp(ok) =>
      if s.phase.Boot?
      then Some(s.(auditID := if ok then LatestId(p, s.db.audit) else -1,
                   phase := Loading(Work({}, None), true)))
      else None
    case PageRead(keys, more) =>
      if s.phase.Loading? && s.phase.work == Work({}, None) && s.phase.more && "" !in keys
      then Some(s.(phase := Loading(Work(keys, None), more))) else None
    case PageFails =>
      if s.phase.Loading? && s.phase.work == Work({}, None) && s.phase.more
      then Some(s.(phase := Idle)) else None
    case LoadDone =>
      if s.phase == Loading(Work({}, None), false) then Some(s.(phase := Idle)) else None
    case ReadLatest(ok) =>
      var latest := if ok then LatestId(p, s.db.audit) else -1;
      if !s.phase.Idle? then None
      else if latest <= s.auditID then Some(s)
      else Some(s.(phase := Checked(latest)))
    case ReadDelta(ok) =>
      if !s.phase.Checked? then None
      else if !ok then Some(s.(phase := Idle))
      else Some(s.(phase := Refreshing(s.phase.latest, Work(DeltaKeys(p, s.db.audit, s.auditID), None))))
    case Advance =>
      if s.phase.Refreshing? && s.phase.work == Work({}, None)
      then Some(s.(auditID := s.phase.latest, phase := Idle)) else None
    case GetReadBase(k, ok) =>
      if s.phase.Boot? || k in s.configMap then None
      else if !ok then Some(s)
      else Some(s.(gets := s.gets + [Fallback(LatestId(p, s.db.audit), AfterBase(p, s.db, k))]))
    case GetReadOverride(i, ok) =>
      if i < |s.gets| && s.gets[i].read.HaveBase?
      then Some(s.(gets := s.gets[i := s.gets[i].(read := AfterOverride(s.db, s.gets[i].read, ok))]))
      else None
    case GetWrite(i) =>
      if i < |s.gets| && s.gets[i].read.HaveValue?
      then Some(s.(configMap := Stored(p, s.configMap, s.gets[i].read),
                   gets := s.gets[..i] + s.gets[i + 1..]))
      else None
    case _ =>
      match s.phase
      case Loading(w, more) =>
        (match WorkStep(p, s, w, e)
         case None => None
         case Some((w', m)) => Some(s.(phase := Loading(w', more), configMap := m)))
      case Refreshing(latest, w) =>
        (match WorkStep(p, s, w, e)
         case None => None
         case Some((w', m)) => Some(s.(phase := Refreshing(latest, w'), configMap := m)))
      case _ => None
  }

  function Exec(p: Deploy, s: State, es: seq<Event>): Option<State>
    decreases |es|
  {
    if es == [] then Some(s)
    else
      match Step(p, s, es[0])
      case None => None
      case Some(s') => Exec(p, s', es[1..])
  }

  // The id below which every change is already accounted for.
  function Floor(s: State): int {
    if s.phase.Refreshing? then s.phase.latest else s.auditID
  }

  // What the protocol needs of its surroundings: the reads of a refresh succeed, and a fallback does not
  // land after the loop has passed the last change its key has had since the fallback started.
  ghost predicate Benign(p: Deploy, s: State, e: Event) {
    match e
    case LoopReadBase(_, ok) => ok
    case LoopReadOverride(ok) => ok
    case GetReadOverride(_, ok) => ok
    case GetWrite(i) =>
      i < |s.gets| && RowAbove(p, s.db.audit, s.gets[i].read.key, s.gets[i].seen) ==>
        RowAbove(p, s.db.audit, s.gets[i].read.key, Floor(s))
    case _ => true
  }

  ghost predicate BenignRun(p: Deploy, s: State, es: seq<Event>)
    decreases |es|
  {
    es == [] ||
    (Benign(p, s, es[0]) &&
     match Step(p, s, es[0])
     case None => true
     case Some(s') => BenignRun(p, s', es[1..]))
  }

  predicate Initial(s: State) {
    && s.phase.Boot? && s.configMap == map[] && s.gets == []
    && forall i :: 0 <= i < |s.db.audit| ==> s.db.audit[i].id >= 0
  }

  /******* Lost keys *******/

  predicate Stale(p: Deploy, s: State, key: string) {
    && key in s.configMap
    && var v := Effective(p, s.db, key);
       v.Some? && s.configMap[key] != ParseValue(p, v.value)
  }

  // A stale key has a row above the floor, or the running cycle is still going to refresh it.
  ghost predicate Covered(p: Deploy, s: State, key: string) {
    || RowAbove(p, s.db.audit, key, Floor(s))
    || (s.phase.Refreshing? &&
        (key in s.phase.work.todo || (s.phase.work.cur.Some? && s.phase.work.cur.value.key == key)))
  }

  // A loaded key that differs from its tables and that nothing will make the fetcher look at again.
  ghost predicate Lost(p: Deploy, s: State, key: string) {
    Stale(p, s, key) && !Covered(p, s, key)
  }

  function CurrentWork(s: State): Work {
    match s.phase
    case Loading(w, _) => w
    case Refreshing(_, w) => w
    case _ => Work({}, None)
  }

  // Storing what was read leaves the key saying something else than its tables do.
  predicate LeavesStale(p: Deploy, s: State, r: Reading)
    requires r.HaveValue?
  {
    if r.value.Some? then
      var now := Effective(p, s.db, r.key);
      now.Some? && ParseValue(p, r.value.value) != ParseValue(p, now.value)
    else Stale(p, s, r.key)
  }

  // The steps that lose a key: a cycle's failed base read, and a write of the loop or of a fallback that leaves
  // the key stale, each where nothing else is going to refresh it.
  ghost predicate Loses(p: Deploy, s: State, e: Event, key: string) {
    match e
    case LoopReadBase(k, ok) =>
      k == key && !ok && s.phase.Refreshing? && Stale(p, s, k) && !RowAbove(p, s.db.audit, k, s.phase.latest)
    case LoopWrite =>
      var r := CurrentWork(s).cur;
      r.Some? && r.value.HaveValue? && r.value.key == key &&
      LeavesStale(p, s, r.value) && !RowAbove(p, s.db.audit, key, Floor(s))
    case GetWrite(i) =>
      i < |s.gets| && s.gets[i].read.HaveValue? && s.gets[i].read.key == key &&
      LeavesStale(p, s, s.gets[i].read) && !Covered(p, s, key)
    case _ => false
  }

  // The steps that make up for it: a change of the key in the pod's tables, and a write that says what they say.
  predicate Heals(p: Deploy, s: State, e: Event, key: string) {
    match e
    case Upsert(t, k, _, _) => k == key && Relevant(p, t)
    case LoopWrite =>
      var r := CurrentWork(s).cur;
      r.Some? && r.value.HaveValue? && r.value.key == key && !LeavesStale(p, s, r.value)
    case GetWrite(i) =>
      i < |s.gets| && s.gets[i].read.HaveValue? && s.gets[i].read.key == key && !LeavesStale(p, s, s.gets[i].read)
    case _ => false
  }

  /******* Audit rows *******/

  lemma {:induction false} LatestIdBounds(p: Deploy, audit: seq<AuditRow>, n: int)
    requires n >= 0 && forall i :: 0 <= i < |audit| ==> audit[i].id < n
    ensures LatestId(p, audit) < n
  {
    if audit != [] {
      LatestIdBounds(p, audit[..|audit| - 1], n);
    }
  }

  // No row of this pod's tables lies above the latest id.
  lemma {:induction false} LatestIdIsMax(p: Deploy, audit: seq<AuditRow>, i: int)
    requires 0 <= i < |audit| && Relevant(p, audit[i].table)
    ensures audit[i].id <= LatestId(p, audit)
  {
    if i < |audit| - 1 {
      LatestIdIsMax(p, audit[..|audit| - 1], i);
    }
  }

  // It is the id of such a row, or -1 where there is none above that.
  lemma {:induction false} LatestIdIsRow(p: Deploy, audit: seq<AuditRow>)
    ensures LatestId(p, audit) == -1 ||
            exists i :: 0 <= i < |audit| && Relevant(p, audit[i].table) && audit[i].id == LatestId(p, audit)
  {
    if audit != [] {
      var front := audit[..|audit| - 1];
      LatestIdIsRow(p, front);
      if LatestId(p, audit) == LatestId(p, front) && LatestId(p, audit) != -1 {
        var i :| 0 <= i < |front| && Relevant(p, front[i].table) && front[i].id == LatestId(p, front);
        assert audit[i] == front[i];
      }
    }
  }

  lemma NoRowAboveLatest(p: Deploy, audit: seq<AuditRow>, key: string, floor: int)
    requires floor >= LatestId(p, audit)
    ensures !RowAbove(p, audit, key, floor)
  {
    forall i | 0 <= i < |audit| && Relevant(p, audit[i].table) ensures audit[i].id <= floor {
      LatestIdIsMax(p, audit, i);
    }
  }

  lemma {:induction false} LatestIdAtLeast(p: Deploy, audit: seq<AuditRow>)
    ensures LatestId(p, audit) >= -1
  {
    if audit != [] {
      LatestIdAtLeast(p, audit[..|audit| - 1]);
    }
  }

  lemma LatestIdGrows(p: Deploy, audit: seq<AuditRow>, row: AuditRow)
    ensures LatestId(p, audit) <= LatestId(p, audit + [row])
  {
    assert (audit + [row])[..|audit|] == audit;
  }

  lemma RowAboveGrows(p: Deploy, audit: seq<AuditRow>, row: AuditRow, key: string, floor: int)
    ensures RowAbove(p, audit + [row], key, floor) <==>
            RowAbove(p, audit, key, floor) || (row.key == key && row.id > floor && Relevant(p, row.table))
  {
    var log := audit + [row];
    assert log[|audit|] == row && forall i :: 0 <= i < |audit| ==> log[i] == audit[i];
  }

  /******* What every step does to a key *******/

  // How the parts of a state hang together, whatever the reads bring.
  ghost predicate Sound(p: Deploy, s: State) {
    && (s.phase.Boot? ==> s.configMap == map[] && s.gets == [])
    && (forall i :: 0 <= i < |s.db.audit| ==> s.db.audit[i].id >= 0)
    && (!s.phase.Boot? ==> s.auditID <= Floor(s) <= LatestId(p, s.db.audit))
    && (s.phase.Checked? ==> s.auditID < s.phase.latest <= LatestId(p, s.db.audit))
    && (CurrentWork(s).cur.Some? ==> CurrentWork(s).cur.value.key !in CurrentWork(s).todo)
  }

  lemma UpsertKeepsSound(p: Deploy, s: State, e: Event, s': State)
    requires Sound(p, s) && e.Upsert? && Step(p, s, e) == Some(s')
    ensures Sound(p, s')
  {
    var row := AuditRow(e.id, e.key, e.table);
    LatestIdGrows(p, s.db.audit, row);
    assert s'.phase == s.phase && s'.auditID == s.auditID && s'.db.audit == s.db.audit + [row];
    assert Floor(s') == Floor(s) && CurrentWork(s') == CurrentWork(s);
    assert forall i :: 0 <= i < |s'.db.audit| ==> s'.db.audit[i] == if i < |s.db.audit| then s.db.audit[i] else row;
  }

  lemma LoopKeepsSound(p: Deploy, s: State, e: Event, s': State)
    requires Sound(p, s) && Step(p, s, e) == Some(s')
    requires e.LoopReadBase? || e.LoopReadOverride? || e.LoopWrite?
    ensures Sound(p, s')
  {
    assert Floor(s') == Floor(s) && s'.db == s.db && !s'.phase.Checked?;
  }

  lemma GetKeepsSound(p: Deploy, s: State, e: Event, s': State)
    requires Sound(p, s) && Step(p, s, e) == Some(s')
    requires e.GetReadBase? || e.GetReadOverride? || e.GetWrite?
    ensures Sound(p, s')
  {
    assert s'.phase == s.phase && s'.db == s.db && s'.auditID == s.auditID;
  }

  lemma StepKeepsSound(p: Deploy, s: State, e: Event, s': State)
    requires Sound(p, s) && Step(p, s, e) == Some(s')
    ensures Sound(p, s')
  {
    match e
    case Upsert(_, _, _, _) => UpsertKeepsSound(p, s, e, s');
    case LoopReadBase(_, _) => LoopKeepsSound(p, s, e, s');
    case LoopReadOverride(_) => LoopKeepsSound(p, s, e, s');
    case LoopWrite => LoopKeepsSound(p, s, e, s');
    case GetReadBase(_, _) => GetKeepsSound(p, s, e, s');
    case GetReadOverride(_, _) => GetKeepsSound(p, s, e, s');
    case GetWrite(_) => GetKeepsSound(p, s, e, s');
    case _ => LatestIdAtLeast(p, s.db.audit);
  }

  lemma UpsertLosesNone(p: Deploy, s: State, e: Event, s': State, key: string)
    requires Sound(p, s) && e.Upsert? && Step(p, s, e) == Some(s')
    ensures Lost(p, s', key) <==> Lost(p, s, key) && !Heals(p, s, e, key)
  {
    RowAboveGrows(p, s.db.audit, AuditRow(e.id, e.key, e.table), key, Floor(s));
    LatestIdBounds(p, s.db.audit, e.id);
  }

  lemma DeltaCovers(p: Deploy, audit: seq<AuditRow>, above: int, latest: int, key: string)
    requires above <= latest && key != ""
    ensures RowAbove(p, audit, key, above) <==> RowAbove(p, audit, key, latest) || key in DeltaKeys(p, audit, above)
  {
  }

  lemma CycleLosesNone(p: Deploy, s: State, e: Event, s': State, key: string)
    requires Sound(p, s) && Step(p, s, e) == Some(s') && key != ""
    requires e.StartUp? || e.PageRead? || e.PageFails? || e.LoadDone? || e.ReadLatest? || e.ReadDelta? || e.Advance?
    ensures Lost(p, s', key) <==> Lost(p, s, key)
  {
    if s.phase.Checked? {
      DeltaCovers(p, s.db.audit, s.auditID, s.phase.latest, key);
    }
  }

  lemma LoopLosesIff(p: Deploy, s: State, e: Event, s': State, key: string)
    requires Sound(p, s) && Step(p, s, e) == Some(s')
    requires e.LoopReadBase? || e.LoopReadOverride? || e.LoopWrite?
    ensures Lost(p, s', key) <==> Loses(p, s, e, key) || (Lost(p, s, key) && !Heals(p, s, e, key))
  {
    assert Floor(s') == Floor(s) && s'.db == s.db;
  }

  lemma GetLosesIff(p: Deploy, s: State, e: Event, s': State, key: string)
    requires Sound(p, s) && Step(p, s, e) == Some(s')
    requires e.GetReadBase? || e.GetReadOverride? || e.GetWrite?
    ensures Lost(p, s', key) <==> Loses(p, s, e, key) || (Lost(p, s, key) && !Heals(p, s, e, key))
  {
    assert Covered(p, s', key) <==> Covered(p, s, key);
  }

  // What any step at all does to a key: it is lost afterwards exactly when the step loses it, or it was lost and
  // the step does not make up for that.
  lemma StepLosesIff(p: Deploy, s: State, e: Event, s': State, key: string)
    requires Sound(p, s) && Step(p, s, e) == Some(s') && key != ""
    ensures Lost(p, s', key) <==> Loses(p, s, e, key) || (Lost(p, s, key) && !Heals(p, s, e, key))
  {
    match e
    case Upsert(_, _, _, _) => UpsertLosesNone(p, s, e, s', key);
    case LoopReadBase(_, _) => LoopLosesIff(p, s, e, s', key);
    case LoopReadOverride(_) => LoopLosesIff(p, s, e, s', key);
    case LoopWrite => LoopLosesIff(p, s, e, s', key);
    case GetReadBase(_, _) => GetLosesIff(p, s, e, s', key);
    case GetReadOverride(_, _) => GetLosesIff(p, s, e, s', key);
    case GetWrite(_) => GetLosesIff(p, s, e, s', key);
    case _ => CycleLosesNone(p, s, e, s', key);
  }

  /******* The invariant *******/

  // What has been read is current, or the change since then has a row above the floor.
  ghost predicate ReadingOk(p: Deploy, db: Tables, r: Reading, floor: int) {
    || RowAbove(p, db.audit, r.key, floor)
    || match r
       case HaveBase(k, b) => p.hasOverride && b == Cell(db.base, k)
       case HaveValue(k, v) => v == Effective(p, db, k)
  }

  ghost predicate ReadingsOk(p: Deploy, s: State) {
    && (CurrentWork(s).cur.Some? ==> ReadingOk(p, s.db, CurrentWork(s).cur.value, Floor(s)))
    && (forall i :: 0 <= i < |s.gets| ==>
          s.gets[i].seen <= LatestId(p, s.db.audit) && ReadingOk(p, s.db, s.gets[i].read, s.gets[i].seen))
  }

  ghost predicate Inv(p: Deploy, s: State) {
    && Sound(p, s)
    && ReadingsOk(p, s)
    && forall k :: k != "" ==> !Lost(p, s, k)
  }

  lemma UpsertKeepsReading(p: Deploy, db: Tables, e: Event, r: Reading, floor: int)
    requires e.Upsert? && floor < e.id && ReadingOk(p, db, r, floor)
    ensures ReadingOk(p, WithUpsert(db, e.table, e.key, e.value, e.id), r, floor)
  {
    RowAboveGrows(p, db.audit, AuditRow(e.id, e.key, e.table), r.key, floor);
  }

  lemma UpsertKeepsReadings(p: Deploy, s: State, e: Event, s': State)
    requires Sound(p, s) && ReadingsOk(p, s) && e.Upsert? && Step(p, s, e) == Some(s')
    ensures ReadingsOk(p, s')
  {
    LatestIdBounds(p, s.db.audit, e.id);
    LatestIdGrows(p, s.db.audit, AuditRow(e.id, e.key, e.table));
    if CurrentWork(s).cur.Some? {
      UpsertKeepsReading(p, s.db, e, CurrentWork(s).cur.value, Floor(s));
    }
    forall i | 0 <= i < |s'.gets| ensures ReadingOk(p, s'.db, s'.gets[i].read, s'.gets[i].seen) {
      UpsertKeepsReading(p, s.db, e, s.gets[i].read, s.gets[i].seen);
    }
  }

  lemma GetKeepsReadings(p: Deploy, s: State, e: Event, s': State)
    requires Sound(p, s) && ReadingsOk(p, s) && Benign(p, s, e) && Step(p, s, e) == Some(s')
    requires e.GetReadBase? || e.GetReadOverride? || e.GetWrite?
    ensures ReadingsOk(p, s')
  {
    forall i | 0 <= i < |s'.gets|
      ensures s'.gets[i].seen <= LatestId(p, s.db.audit) && ReadingOk(p, s.db, s'.gets[i].read, s'.gets[i].seen)
    {
      if e.GetWrite? {
        assert s'.gets[i] == s.gets[if i < e.i then i else i + 1];
      }
    }
  }

  lemma StepKeepsReadings(p: Deploy, s: State, e: Event, s': State)
    requires Sound(p, s) && ReadingsOk(p, s) && Benign(p, s, e) && Step(p, s, e) == Some(s')
    ensures ReadingsOk(p, s')
  {
    if e.Upsert? {
      UpsertKeepsReadings(p, s, e, s');
    } else if e.GetReadBase? || e.GetReadOverride? || e.GetWrite? {
      GetKeepsReadings(p, s, e, s');
    }
  }

  // No benign step loses anything.
  lemma BenignLosesNone(p: Deploy, s: State, e: Event, key: string)
    requires Inv(p, s) && Benign(p, s, e) && key != ""
    ensures !Loses(p, s, e, key)
  {
    assert !Lost(p, s, key);
  }

  lemma StepKeepsInv(p: Deploy, s: State, e: Event, s': State)
    requires Inv(p, s) && Benign(p, s, e) && Step(p, s, e) == Some(s')
    ensures Inv(p, s')
  {
    StepKeepsSound(p, s, e, s');
    StepKeepsReadings(p, s, e, s');
    forall k | k != "" ensures !Lost(p, s', k) {
      BenignLosesNone(p, s, e, k);
      StepLosesIff(p, s, e, s', k);
    }
  }

  lemma InitialIsInv(p: Deploy, s: State)
    requires Initial(s)
    ensures Inv(p, s)
  {
    assert CurrentWork(s) == Work({}, None);
    assert forall k :: !Stale(p, s, k);
  }

  /******* No update is lost *******/

  lemma {:induction false} RunKeepsInv(p: Deploy, s: State, es: seq<Event>)
    requires Inv(p, s) && BenignRun(p, s, es) && Exec(p, s, es).Some?
    ensures Inv(p, Exec(p, s, es).value)
    decreases |es|
  {
    if es != [] {
      var s' := Step(p, s, es[0]).value;
      StepKeepsInv(p, s, es[0], s');
      RunKeepsInv(p, s', es[1..]);
    }
  }

  // Main result: over every run from start-up in which the reads of a refresh succeed and no fallback lands late,
  // no key is ever lost.
  lemma NoLostUpdate(p: Deploy, s0: State, es: seq<Event>)
    requires Initial(s0) && BenignRun(p, s0, es) && Exec(p, s0, es).Some?
    ensures forall k :: k != "" ==> !Lost(p, Exec(p, s0, es).value, k)
  {
    InitialIsInv(p, s0);
    RunKeepsInv(p, s0, es);
  }

  predicate Quiet(es: seq<Event>) {
    forall i :: 0 <= i < |es| ==> !es[i].Upsert? && es[i] != ReadDelta(false)
  }

  predicate CaughtUp(s: State, latest: int) {
    match s.phase
    case Idle => s.auditID >= latest
    case Checked(l) => l >= latest
    case Refreshing(l, _) => l >= latest
    case _ => false
  }

  lemma {:induction false} QuietRunCatchesUp(p: Deploy, s: State, es: seq<Event>)
    requires Quiet(es) && Exec(p, s, es).Some? && CaughtUp(s, LatestId(p, s.db.audit))
    ensures Exec(p, s, es).value.db == s.db && CaughtUp(Exec(p, s, es).value, LatestId(p, s.db.audit))
    decreases |es|
  {
    if es != [] {
      assert Quiet(es[1..]);
      QuietRunCatchesUp(p, Step(p, s, es[0]).value, es[1..]);
    }
  }

  predicate Agrees(p: Deploy, s: State, key: string) {
    && key in s.configMap
    && var v := Effective(p, s.db, key);
       v.Some? && s.configMap[key] == ParseValue(p, v.value)
  }

  // After one cycle without upserts, whatever fallbacks run meanwhile, a loaded key agrees with its
  // tables exactly when they hold a value for it.
  lemma QuietCycleAgrees(p: Deploy, s0: State, before: seq<Event>, s: State, cycle: seq<Event>, s': State)
    requires Initial(s0) && BenignRun(p, s0, before) && Exec(p, s0, before) == Some(s)
    requires Quiet(cycle) && BenignRun(p, s, cycle) && Exec(p, s, cycle) == Some(s')
    requires s.phase.Idle? && s'.phase.Idle? && cycle != [] && cycle[0] == ReadLatest(true)
    ensures forall k :: k in s'.configMap && k != "" ==> (Agrees(p, s', k) <==> Effective(p, s'.db, k).Some?)
  {
    InitialIsInv(p, s0);
    RunKeepsInv(p, s0, before);
    RunKeepsInv(p, s, cycle);
    assert Quiet(cycle[1..]);
    QuietRunCatchesUp(p, Step(p, s, cycle[0]).value, cycle[1..]);
    forall k | k in s'.configMap && k != "" ensures !Stale(p, s', k) {
      NoRowAboveLatest(p, s'.db.audit, k, Floor(s'));
      assert !Lost(p, s', k);
    }
  }

  /******* Runs *******/

  lemma {:induction false} ExecSnoc(p: Deploy, s: State, es: seq<Event>, e: Event, t: State, u: State)
    requires Exec(p, s, es) == Some(t) && Step(p, t, e) == Some(u)
    ensures Exec(p, s, es + [e]) == Some(u)
    ensures BenignRun(p, s, es) && Benign(p, t, e) ==> BenignRun(p, s, es + [e])
    decreases |es|
  {
    if es == [] {
      assert [e][1..] == [];
    } else {
      ExecSnoc(p, Step(p, s, es[0]).value, es[1..], e, t, u);
      assert (es + [e])[1..] == es[1..] + [e];
    }
  }

  // Some benign run leads from one state to the other.
  ghost predicate Reaches(p: Deploy, s0: State, s: State) {
    exists es :: BenignRun(p, s0, es) && Exec(p, s0, es) == Some(s)
  }

  lemma Stays(p: Deploy, s: State)
    ensures Reaches(p, s, s)
  {
    assert BenignRun(p, s, []) && Exec(p, s, []) == Some(s);
  }

  // One more event on a benign run.
  lemma Extend(p: Deploy, s0: State, s: State, e: Event) returns (s': State)
    requires Reaches(p, s0, s) && Step(p, s, e).Some? && Benign(p, s, e)
    ensures Step(p, s, e) == Some(s') && Reaches(p, s0, s')
  {
    s' := Step(p, s, e).value;
    var es :| BenignRun(p, s0, es) && Exec(p, s0, es) == Some(s);
    ExecSnoc(p, s0, es, e, s, s');
  }

  lemma {:induction false} ExecAppend(p: Deploy, s: State, a: seq<Event>, b: seq<Event>, t: State)
    requires Exec(p, s, a) == Some(t)
    ensures Exec(p, s, a + b) == Exec(p, t, b)
    decreases |a|
  {
    if a == [] {
      assert a + b == b;
    } else {
      ExecAppend(p, Step(p, s, a[0]).value, a[1..], b, t);
      assert (a + b)[0] == a[0] && (a + b)[1..] == a[1..] + b;
    }
  }

  lemma {:induction false} BenignAppend(p: Deploy, s: State, a: seq<Event>, b: seq<Event>, t: State)
    requires Exec(p, s, a) == Some(t) && BenignRun(p, s, a) && BenignRun(p, t, b)
    ensures BenignRun(p, s, a + b)
    decreases |a|
  {
    if a == [] {
      assert a + b == b;
    } else {
      BenignAppend(p, Step(p, s, a[0]).value, a[1..], b, t);
      assert (a + b)[0] == a[0] && (a + b)[1..] == a[1..] + b;
    }
  }

  lemma Joins(p: Deploy, s0: State, s: State, t: State)
    requires Reaches(p, s0, s) && Reaches(p, s, t)
    ensures Reaches(p, s0, t)
  {
    var a :| BenignRun(p, s0, a) && Exec(p, s0, a) == Some(s);
    var b :| BenignRun(p, s, b) && Exec(p, s, b) == Some(t);
    ExecAppend(p, s0, a, b, s);
    BenignAppend(p, s0, a, b, s);
  }
}
