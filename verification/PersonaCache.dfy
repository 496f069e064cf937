/** The persona cache: a section crawled for one login is kept for fifteen days and replayed instead of
    crawling again. Writes are handed to a goroutine and may land late, out of order, or never. */
module PersonaCache {
  import opened Base
  import opened JsonValue
  import A = AccountEntry
  import opened CacheKeys

  const TTL_SECONDS := 1296000

  // The accounts of a section, and all the rest of it.
  datatype Section = Section(accounts: seq<A.Entry>, rest: Json)

  // A response as far as the cache is concerned.
  datatype Persona = Persona(phone: Option<Section>, email: Option<Section>)

  // A stored section holds its accounts in flattened form.
  datatype Stored = Stored(accounts: seq<Json>, rest: Json)

  // The table is shared with the enrichment documents.
  datatype Item =
    | PersonaItem(phone: Option<Stored>, email: Option<Stored>, ttl: int)
    | EnrichItem(doc: map<string, Json>, ttl: int)

  function Pack(sec: Option<Section>): Option<Stored> {
    if sec.Some? then Some(Stored(A.FlatAll(sec.value.accounts), sec.value.rest)) else None
  }

  // None is a decoding failure; Some(None) a section that is not there.
  function Unpack(st: Option<Stored>): Option<Option<Section>> {
    if st.None? then Some(None)
    else match A.UnflatAll(st.value.accounts)
      case Some(accounts) => Some(Some(Section(accounts, st.value.rest)))
      case None => None
  }

  function ItemOf(p: Persona, now: int): Item {
    PersonaItem(Pack(p.phone), Pack(p.email), now + TTL_SECONDS)
  }

  predicate Expired(item: Item, now: int) {
    item.ttl > 0 && now >= item.ttl
  }

  // An enrichment document read as a response has no section in it.
  function Decoded(item: Item): Option<Persona> {
    match item
    case PersonaItem(phone, email, _) =>
      (match (Unpack(phone), Unpack(email))
       case (Some(p), Some(e)) => Some(Persona(p, e))
       case _ => None)
    case EnrichItem(_, _) => Some(Persona(None, None))
  }

  function Lookup(table: map<string, Item>, key: string, now: int): Option<Persona> {
    if key !in table || Expired(table[key], now) then None else Decoded(table[key])
  }

  function Wrap(sec: Section, kind: string): Persona {
    if kind == PHONE then Persona(Some(sec), None) else Persona(None, Some(sec))
  }

  function SectionFrom(p: Persona, kind: string): Option<Section> {
    if kind == PHONE then p.phone else p.email
  }

  /******* What storing does to a section *******/

  // Flattened accounts always decode, so the last case does not arise.
  function Replay(sec: Section): Section {
    match A.UnflatAll(A.FlatAll(sec.accounts))
    case Some(accounts) => Section(accounts, sec.rest)
    case None => sec
  }

  lemma StoredReads(sec: Section, kind: string, now: int)
    ensures Decoded(ItemOf(Wrap(sec, kind), now)) == Some(Wrap(Replay(sec), kind))
    ensures SectionFrom(Wrap(Replay(sec), kind), kind) == Some(Replay(sec))
  {
    A.UnflatAllOfFlatAll(sec.accounts);
  }

  // A replayed section is the crawled one exactly when every account in it is in normal form.
  lemma ReplayFaithfulIff(sec: Section)
    ensures Replay(sec) == sec <==> forall i :: 0 <= i < |sec.accounts| ==> A.Normal(sec.accounts[i])
  {
    A.ListRoundTripIff(sec.accounts);
    A.UnflatAllOfFlatAll(sec.accounts);
  }

  /******* The table over time *******/

  datatype Who = Who(kind: string, login: string, tenant: string)

  // A write-back: the clock was read when the cache was consulted, before the crawl.
  datatype Job = Job(who: Who, sec: Section, now: nat)

  datatype State = State(table: map<string, Item>, pending: seq<Job>, landed: seq<Job>)

  datatype Event =
    | Spawn(job: Job)
    | Land(i: nat)
    | Fail(i: nat)
    | EnrichPut(phone: string, email: string, name: string, doc: map<string, Json>, now: nat)

  const EMPTY := State(map[], [], [])

  predicate Sectioned(who: Who) { who.kind == PHONE || who.kind == EMAIL }

  function SlotOf(md5: string -> string, who: Who): string {
    Key(md5, true, who.kind, who.login, who.tenant)
  }

  function Without(jobs: seq<Job>, i: nat): seq<Job>
    requires i < |jobs|
  {
    jobs[..i] + jobs[i + 1..]
  }

  // Goroutines finish in any order; one whose write fails leaves no trace.
  function Step(md5: string -> string, s: State, e: Event): State {
    match e
    case Spawn(job) => if Sectioned(job.who) then s.(pending := s.pending + [job]) else s
    case Land(i) =>
      if i < |s.pending| then
        var job := s.pending[i];
        State(s.table[SlotOf(md5, job.who) := ItemOf(Wrap(job.sec, job.who.kind), job.now)],
              Without(s.pending, i), s.landed + [job])
      else s
    case Fail(i) => if i < |s.pending| then s.(pending := Without(s.pending, i)) else s
    case EnrichPut(phone, email, name, doc, now) =>
      s.(table := s.table[EnrichKey(md5, phone, email, name) := EnrichItem(doc, now + TTL_SECONDS)])
  }

  function Exec(md5: string -> string, trace: seq<Event>): State {
    if trace == [] then EMPTY else Step(md5, Exec(md5, trace[..|trace| - 1]), trace[|trace| - 1])
  }

  predicate SameSlot(md5: string -> string, a: Who, b: Who) {
    a.kind == b.kind && a.tenant == b.tenant && md5(a.login) == md5(b.login)
  }

  // The last write that landed in a login's slot.
  function Latest(md5: string -> string, landed: seq<Job>, who: Who): Option<Job> {
    if landed == [] then None
    else if SameSlot(md5, landed[|landed| - 1].who, who) then Some(landed[|landed| - 1])
    else Latest(md5, landed[..|landed| - 1], who)
  }

  lemma LatestSnoc(md5: string -> string, landed: seq<Job>, job: Job, who: Who)
    ensures Latest(md5, landed + [job], who) ==
            if SameSlot(md5, job.who, who) then Some(job) else Latest(md5, landed, who)
  {
    assert (landed + [job])[..|landed|] == landed;
  }

  ghost predicate AllSectioned(s: State) {
    forall i :: 0 <= i < |s.pending| ==> Sectioned(s.pending[i].who)
  }

  ghost predicate Mirrors(md5: string -> string, s: State, who: Who) {
    match Latest(md5, s.landed, who)
    case None => SlotOf(md5, who) !in s.table
    case Some(job) =>
      SlotOf(md5, who) in s.table && s.table[SlotOf(md5, who)] == ItemOf(Wrap(job.sec, job.who.kind), job.now)
  }

  lemma SlotsEqualIff(md5: string -> string, a: Who, b: Who)
    requires Digest(md5) && Sectioned(a) && Sectioned(b)
    ensures SlotOf(md5, a) == SlotOf(md5, b) <==> SameSlot(md5, a, b)
  {
    KeysEqualIff(md5, a.kind, a.login, a.tenant, b.kind, b.login, b.tenant);
  }

  lemma {:induction false} OnlySectionsPending(md5: string -> string, trace: seq<Event>)
    ensures AllSectioned(Exec(md5, trace))
  {
    if trace != [] {
      OnlySectionsPending(md5, trace[..|trace| - 1]);
    }
  }

  lemma StepMirrors(md5: string -> string, s: State, e: Event, who: Who)
    requires Digest(md5) && AllSectioned(s) && Sectioned(who) && Mirrors(md5, s, who)
    ensures Mirrors(md5, Step(md5, s, e), who)
  {
    match e
    case Land(i) =>
      if i < |s.pending| {
        LandMirrors(md5, s, i, who);
      }
    case EnrichPut(phone, email, name, doc, now) =>
      SectionKeyNotEnrichKey(md5, who.kind, who.login, who.tenant, phone, email, name);
    case _ =>
  }

  lemma LandMirrors(md5: string -> string, s: State, i: nat, who: Who)
    requires Digest(md5) && AllSectioned(s) && Sectioned(who) && Mirrors(md5, s, who) && i < |s.pending|
    ensures Mirrors(md5, Step(md5, s, Land(i)), who)
  {
    LatestSnoc(md5, s.landed, s.pending[i], who);
    SlotsEqualIff(md5, s.pending[i].who, who);
  }

  lemma {:induction false} TableMirrorsHistory(md5: string -> string, trace: seq<Event>, who: Who)
    requires Digest(md5) && Sectioned(who)
    ensures Mirrors(md5, Exec(md5, trace), who)
  {
    if trace != [] {
      TableMirrorsHistory(md5, trace[..|trace| - 1], who);
      OnlySectionsPending(md5, trace[..|trace| - 1]);
      StepMirrors(md5, Exec(md5, trace[..|trace| - 1]), trace[|trace| - 1], who);
    }
  }

  // Main result. In every run, whatever write-backs and enrichment documents landed in whatever order, a
  // look-up finds the section of the write that landed last in that slot, until fifteen days after its clock
  // was read, and nothing otherwise.
  lemma HitReplaysLatest(md5: string -> string, trace: seq<Event>, who: Who, now: nat)
    requires Digest(md5) && Sectioned(who)
    ensures var s := Exec(md5, trace);
            Lookup(s.table, SlotOf(md5, who), now) ==
            match Latest(md5, s.landed, who)
            case Some(job) =>
              (if now < job.now + TTL_SECONDS then Some(Wrap(Replay(job.sec), who.kind)) else None)
            case None => None
  {
    TableMirrorsHistory(md5, trace, who);
    LatestFacts(md5, Exec(md5, trace).landed, who);
    match Latest(md5, Exec(md5, trace).landed, who)
    case Some(job) => StoredReads(job.sec, job.who.kind, job.now);
    case None =>
  }

  // What a section looks like when it is replayed: as many accounts, each as storing leaves it, and all the rest.
  ghost predicate ReplayOf(sec: Section, back: Section) {
    && back.rest == sec.rest && |back.accounts| == |sec.accounts|
    && forall i :: 0 <= i < |sec.accounts| ==> A.Replayed(sec.accounts[i], A.Flat(back.accounts[i]))
  }

  // End to end, for every crawled section: a hit within fifteen days shows every account as it was, a bare error
  // where it failed or its data say so, and the rest of the section.
  lemma HitShowsAccounts(md5: string -> string, trace: seq<Event>, who: Who, now: nat)
    requires Digest(md5) && Sectioned(who)
    ensures var s := Exec(md5, trace);
            var latest := Latest(md5, s.landed, who);
            latest.Some? && now < latest.value.now + 1_296_000 ==>
              var hit := Lookup(s.table, SlotOf(md5, who), now);
              hit.Some? && SectionFrom(hit.value, who.kind).Some?
              && ReplayOf(latest.value.sec, SectionFrom(hit.value, who.kind).value)
  {
    HitReplaysLatest(md5, trace, who, now);
    var latest := Latest(md5, Exec(md5, trace).landed, who);
    if latest.Some? {
      StoredReads(latest.value.sec, who.kind, 0);
      ReplayIsReplay(latest.value.sec);
    }
  }

  lemma ReplayIsReplay(sec: Section)
    ensures ReplayOf(sec, Replay(sec))
  {
    A.UnflatAllOfFlatAll(sec.accounts);
    forall i | 0 <= i < |sec.accounts| ensures A.Replayed(sec.accounts[i], A.Flat(Replay(sec).accounts[i])) {
      A.ReplayShows(sec.accounts[i]);
    }
  }

  ghost predicate NoneAfter(md5: string -> string, landed: seq<Job>, i: int, who: Who) {
    forall j :: i < j < |landed| && 0 <= j ==> !SameSlot(md5, landed[j].who, who)
  }

  lemma {:induction false} LatestFacts(md5: string -> string, landed: seq<Job>, who: Who)
    ensures match Latest(md5, landed, who)
            case Some(job) =>
              SameSlot(md5, job.who, who) &&
              exists i :: 0 <= i < |landed| && landed[i] == job && NoneAfter(md5, landed, i, who)
            case None => forall j :: 0 <= j < |landed| ==> !SameSlot(md5, landed[j].who, who)
  {
    if landed != [] {
      var front := landed[..|landed| - 1];
      LatestFacts(md5, front, who);
      if !SameSlot(md5, landed[|landed| - 1].who, who) && Latest(md5, front, who).Some? {
        var i :| 0 <= i < |front| && front[i] == Latest(md5, front, who).value && NoneAfter(md5, front, i, who);
        assert landed[i] == front[i];
        forall j | i < j < |landed| ensures !SameSlot(md5, landed[j].who, who) {
          if j < |front| { assert landed[j] == front[j]; }
        }
      }
    }
  }

  // No login seen so far shares its digest with this one.
  ghost predicate Unconfused(md5: string -> string, landed: seq<Job>, login: string) {
    forall i :: 0 <= i < |landed| && md5(landed[i].who.login) == md5(login) ==> landed[i].who.login == login
  }

  // With that, a hit is never somebody else's section, and it equals what was crawled exactly when that was
  // in normal form.
  lemma HitIsOwn(md5: string -> string, trace: seq<Event>, who: Who, now: nat) returns (i: nat)
    requires Digest(md5) && Sectioned(who)
    requires Unconfused(md5, Exec(md5, trace).landed, who.login)
    requires Lookup(Exec(md5, trace).table, SlotOf(md5, who), now).Some?
    ensures var landed := Exec(md5, trace).landed;
            && i < |landed| && landed[i].who == who && now < landed[i].now + TTL_SECONDS
            && forall j :: i < j < |landed| ==> landed[j].who != who
    ensures var sec := Exec(md5, trace).landed[i].sec;
            SectionFrom(Lookup(Exec(md5, trace).table, SlotOf(md5, who), now).value, who.kind) == Some(sec)
            <==> forall k :: 0 <= k < |sec.accounts| ==> A.Normal(sec.accounts[k])
  {
    var landed := Exec(md5, trace).landed;
    HitReplaysLatest(md5, trace, who, now);
    LatestFacts(md5, landed, who);
    var job := Latest(md5, landed, who).value;
    i :| 0 <= i < |landed| && landed[i] == job && NoneAfter(md5, landed, i, who);
    ReplayFaithfulIff(job.sec);
    StoredReads(job.sec, who.kind, 0);
  }

  // What a hit now would replay has the latest clock of all that landed in the slot.
  ghost predicate Newest(md5: string -> string, landed: seq<Job>, who: Who) {
    match Latest(md5, landed, who)
    case None => true
    case Some(job) => forall i :: 0 <= i < |landed| && SameSlot(md5, landed[i].who, who) ==> landed[i].now <= job.now
  }

  // So it was after each step of the run.
  ghost predicate AlwaysNewest(md5: string -> string, trace: seq<Event>, who: Who) {
    && Newest(md5, Exec(md5, trace).landed, who)
    && (trace == [] || AlwaysNewest(md5, trace[..|trace| - 1], who))
  }

  // Write-backs landed in the slot in the order of their clocks.
  ghost predicate InOrder(md5: string -> string, landed: seq<Job>, who: Who) {
    forall i, j :: 0 <= i < j < |landed| && SameSlot(md5, landed[i].who, who) && SameSlot(md5, landed[j].who, who) ==>
      landed[i].now <= landed[j].now
  }

  lemma InOrderSnoc(md5: string -> string, landed: seq<Job>, job: Job, who: Who)
    ensures InOrder(md5, landed + [job], who) <==>
            InOrder(md5, landed, who) && (SameSlot(md5, job.who, who) ==> Newest(md5, landed + [job], who))
  {
    var all := landed + [job];
    LatestSnoc(md5, landed, job, who);
    assert forall i :: 0 <= i < |landed| ==> all[i] == landed[i];
    assert all[|landed|] == job;
  }

  lemma OrderedIsNewest(md5: string -> string, landed: seq<Job>, who: Who)
    requires InOrder(md5, landed, who)
    ensures Newest(md5, landed, who)
  {
    LatestFacts(md5, landed, who);
    if Latest(md5, landed, who).Some? {
      var m :| 0 <= m < |landed| && landed[m] == Latest(md5, landed, who).value && NoneAfter(md5, landed, m, who);
      forall i | 0 <= i < |landed| && SameSlot(md5, landed[i].who, who) ensures landed[i].now <= landed[m].now {
        assert i <= m;
      }
    }
  }

  // Main result on late writes: over a whole run, what a hit would replay has at every moment the latest clock of
  // all that landed in the slot, exactly when the slot's write-backs landed in the order of their clocks.
  lemma {:induction false} AlwaysNewestIff(md5: string -> string, trace: seq<Event>, who: Who)
    ensures AlwaysNewest(md5, trace, who) <==> InOrder(md5, Exec(md5, trace).landed, who)
  {
    if trace != [] {
      var front, e := trace[..|trace| - 1], trace[|trace| - 1];
      var s := Exec(md5, front);
      AlwaysNewestIff(md5, front, who);
      if e.Land? && e.i < |s.pending| {
        InOrderSnoc(md5, s.landed, s.pending[e.i], who);
        if InOrder(md5, s.landed + [s.pending[e.i]], who) {
          OrderedIsNewest(md5, s.landed + [s.pending[e.i]], who);
        }
      }
    }
  }

  // Writes landing out of order leave the older section in place: the table follows landing, not crawling.
  lemma LateWriteWins(md5: string -> string, who: Who, first: Section, second: Section)
    requires Sectioned(who)
    ensures var trace := [Spawn(Job(who, first, 0)), Spawn(Job(who, second, 100)), Land(1), Land(0)];
            Latest(md5, Exec(md5, trace).landed, who) == Some(Job(who, first, 0))
  {
    var a, b := Job(who, first, 0), Job(who, second, 100);
    var s1, s2, s3 := ExecFour(md5, Spawn(a), Spawn(b), Land(1), Land(0));
    TwoSpawned(md5, a, b, s1, s2);
    LastThenFirst(md5, a, b, s2, s3);
    LatestSnoc(md5, [b], a, who);
  }

  lemma ExecFour(md5: string -> string, a: Event, b: Event, c: Event, d: Event)
    returns (s1: State, s2: State, s3: State)
    ensures s1 == Step(md5, EMPTY, a) && s2 == Step(md5, s1, b) && s3 == Step(md5, s2, c)
    ensures Exec(md5, [a, b, c, d]) == Step(md5, s3, d)
  {
    s1, s2, s3 := Exec(md5, [a]), Exec(md5, [a, b]), Exec(md5, [a, b, c]);
    ExecSnoc(md5, [], a);
    ExecSnoc(md5, [a], b);
    ExecSnoc(md5, [a, b], c);
    ExecSnoc(md5, [a, b, c], d);
    assert [] + [a] == [a] && [a] + [b] == [a, b] && [a, b] + [c] == [a, b, c] && [a, b, c] + [d] == [a, b, c, d];
  }

  lemma TwoSpawned(md5: string -> string, a: Job, b: Job, s1: State, s2: State)
    requires Sectioned(a.who) && Sectioned(b.who)
    requires s1 == Step(md5, EMPTY, Spawn(a)) && s2 == Step(md5, s1, Spawn(b))
    ensures s2.pending == [a, b] && s2.landed == []
  {
  }

  lemma LastThenFirst(md5: string -> string, a: Job, b: Job, s2: State, s3: State)
    requires s2.pending == [a, b] && s2.landed == [] && s3 == Step(md5, s2, Land(1))
    ensures Step(md5, s3, Land(0)).landed == [b, a]
  {
    assert Without([a, b], 1) == [a];
  }

  lemma ExecSnoc(md5: string -> string, trace: seq<Event>, e: Event)
    ensures Exec(md5, trace + [e]) == Step(md5, Exec(md5, trace), e)
  {
    assert (trace + [e])[..|trace|] == trace;
  }

  /******* The repository and the caching lane *******/

  // A write handed to a goroutine: the key and the response are captured, not the login.
  datatype Write = Write(key: string, persona: Persona, now: nat)

  function WriteOf(md5: string -> string, job: Job): Write {
    Write(SlotOf(md5, job.who), Wrap(job.sec, job.who.kind), job.now)
  }

  function Writes(md5: string -> string, jobs: seq<Job>): seq<Write> {
    seq(|jobs|, i requires 0 <= i < |jobs| => WriteOf(md5, jobs[i]))
  }

  lemma WritesWithout(md5: string -> string, jobs: seq<Job>, i: nat)
    requires i < |jobs|
    ensures Writes(md5, Without(jobs, i)) == Writes(md5, jobs)[..i] + Writes(md5, jobs)[i + 1..]
  {
  }

  class Repo {
    const md5: string -> string
    var table: map<string, Item>
    var queue: seq<Write>
    ghost var trace: seq<Event>

    // The table and the goroutines under way are where the run so far has brought them.
    ghost predicate Valid()
      reads this
    {
      && Digest(md5)
      && table == Exec(md5, trace).table
      && queue == Writes(md5, Exec(md5, trace).pending)
    }

    constructor (md5: string -> string)
      requires Digest(md5)
      ensures Valid() && this.md5 == md5 && trace == []
    {
      this.md5 := md5;
      table, queue, trace := map[], [], [];
    }

    // up says whether the store answered; a failed read, an expired item and one that does not decode are
    // all misses to the caller.
    method Get(key: string, now: int, up: bool) returns (resp: Option<Persona>)
      ensures resp == if up then Lookup(table, key, now) else None
    {
      if !up || key !in table {
        return None;
      }
      var item := table[key];
      if item.ttl > 0 && now >= item.ttl {
        return None;
      }
      resp := Decoded(item);
    }

    method Put(key: string, resp: Persona, now: int)
      modifies `table
      ensures table == old(table)[key := ItemOf(resp, now)]
    {
      table := table[key := ItemOf(resp, now)];
    }

    // Some goroutine gets its turn, and its write goes through or fails.
    method RunOne(i: nat, up: bool)
      requires Valid() && i < |queue|
      modifies this
      ensures Valid() && trace == old(trace) + [if up then Land(i) else Fail(i)]
    {
      var w := queue[i];
      queue := queue[..i] + queue[i + 1..];
      if up {
        Put(w.key, w.persona, w.now);
      }
      ghost var before, e := Exec(md5, trace), if up then Land(i) else Fail(i);
      WritesWithout(md5, before.pending, i);
      ExecSnoc(md5, trace, e);
      trace := trace + [e];
    }

    // go Put(...)
    method Spawn(key: string, resp: Persona, now: nat, ghost job: Job)
      requires Valid() && Sectioned(job.who) && Write(key, resp, now) == WriteOf(md5, job)
      modifies `queue, `trace
      ensures Valid() && trace == old(trace) + [Event.Spawn(job)]
    {
      queue := queue + [Write(key, resp, now)];
      ghost var before := Exec(md5, trace);
      trace := trace + [Event.Spawn(job)];
      assert trace[..|trace| - 1] == old(trace);
      assert queue == Writes(md5, before.pending + [job]);
    }
  }

  // The sections of the response being built.
  class Response {
    var phoneData: Option<Section>
    var emailData: Option<Section>

    constructor ()
      ensures phoneData == None && emailData == None
    {
      phoneData, emailData := None, None;
    }

    function Of(kind: string): Option<Section>
      reads this
    {
      if kind == PHONE then phoneData else emailData
    }

    method Set(kind: string, sec: Option<Section>)
      modifies this
      ensures Of(kind) == sec
      ensures (phoneData, emailData) == if kind == "phone" then (sec, old(emailData)) else (old(phoneData), sec)
    {
      if kind == PHONE {
        phoneData := sec;
      } else {
        emailData := sec;
      }
    }
  }

  // The inner lane: crawling fills in the section it covers, or leaves it as it is.
  class Lane {
    const kind: string
    var runs: nat

    constructor (kind: string)
      ensures this.kind == kind && runs == 0
    {
      this.kind, runs := kind, 0;
    }

    method Run(st: Response, crawled: Option<Section>)
      modifies this`runs, st
      ensures runs == old(runs) + 1
      ensures st.Of(kind) == if crawled.Some? then crawled else old(st.Of(kind))
      ensures kind == "phone" ==> st.emailData == old(st.emailData)
      ensures kind != "phone" ==> st.phoneData == old(st.phoneData)
    {
      runs := runs + 1;
      if crawled.Some? {
        st.Set(kind, crawled);
      }
    }
  }

  class CacheDecorator {
    const inner: Lane
    var hit: bool
    var key: string
    var now: nat

    constructor (inner: Lane)
      ensures this.inner == inner && !hit && key == ""
    {
      this.inner, hit, key, now := inner, false, "", 0;
    }

    // present: the inner gate, whether the request carries this login at all.
    // on: the persona cache is configured and the tenant's caching gate is open.
    method Gate(repo: Repo, st: Response, who: Who, present: bool, on: bool, clock: nat, up: bool) returns (run: bool)
      requires who.kind == inner.kind && !hit && key == ""
      modifies this, st
      ensures key == if present && on then SlotOf(repo.md5, who) else ""
      ensures present && on ==>
                key == who.kind + ":" + repo.md5(who.login) + if who.tenant != "" then ":_" + who.tenant else ""
      ensures present && on ==> now == clock
      ensures var found := Lookup(repo.table, SlotOf(repo.md5, who), clock);
              && hit == (present && on && up && found.Some?) && run == (present && !hit)
              && st.Of(inner.kind) == if hit then SectionFrom(found.value, inner.kind) else old(st.Of(inner.kind))
      ensures inner.kind == "phone" ==> st.emailData == old(st.emailData)
      ensures inner.kind != "phone" ==> st.phoneData == old(st.phoneData)
    {
      if !present {
        return false;
      }
      if !on {
        return true;
      }
      now := clock;
      key := Key(repo.md5, true, inner.kind, who.login, who.tenant);
      var cached := repo.Get(key, now, up);
      if cached.Some? {
        hit := true;
        st.Set(inner.kind, SectionFrom(cached.value, inner.kind));
        return false;
      }
      run := true;
    }

    method Run(repo: Repo, st: Response, crawled: Option<Section>, ghost who: Who)
      requires repo.Valid() && Sectioned(who) && who.kind == inner.kind
      requires !hit && (key == "" || key == SlotOf(repo.md5, who))
      modifies inner`runs, st, repo
      ensures repo.Valid() && inner.runs == old(inner.runs) + 1
      ensures st.Of(inner.kind) == if crawled.Some? then crawled else old(st.Of(inner.kind))
      ensures inner.kind == "phone" ==> st.emailData == old(st.emailData)
      ensures inner.kind != "phone" ==> st.phoneData == old(st.phoneData)
      ensures repo.trace == if key != "" && st.Of(inner.kind).Some?
                            then old(repo.trace) + [Spawn(Job(who, st.Of(inner.kind).value, now))]
                            else old(repo.trace)
      ensures repo.table == old(repo.table)
    {
      inner.Run(st, crawled);
      if hit || key == "" {
        return;
      }
      var sec := st.Of(inner.kind);
      if sec.None? {
        return;
      }
      repo.Spawn(key, Wrap(sec.value, inner.kind), now, Job(who, sec.value, now));
    }

    // What the pipeline does with a lane: run it if its gate says so.
    method Serve(repo: Repo, st: Response, who: Who, present: bool, on: bool, clock: nat, up: bool,
                 crawled: Option<Section>)
      requires repo.Valid() && Sectioned(who) && who.kind == inner.kind && !hit && key == ""
      modifies this, inner`runs, st, repo
      ensures repo.Valid() && repo.table == old(repo.table)
      // A hit: no crawl, nothing written, and the section is the one that landed last, read back.
      ensures var landed := Exec(repo.md5, old(repo.trace)).landed;
              var latest := Latest(repo.md5, landed, who);
              && (hit <==> present && on && up && latest.Some? && clock < latest.value.now + 1_296_000)
              && (hit ==> inner.runs == old(inner.runs) && repo.trace == old(repo.trace)
                          && st.Of(who.kind) == Some(Replay(latest.value.sec)))
      // A miss: one crawl, and its section is on its way to the table if caching is on.
      ensures present && !hit ==> inner.runs == old(inner.runs) + 1
      ensures present && !hit ==> st.Of(who.kind) == if crawled.Some? then crawled else old(st.Of(who.kind))
      ensures present && !hit ==>
                var sec := st.Of(who.kind);
                repo.trace == old(repo.trace) + if on && sec.Some? then [Spawn(Job(who, sec.value, clock))] else []
      // Either way the section goes where its kind says, and the other one stays as it was.
      ensures hit && who.kind == "phone" ==> st.phoneData.Some? && st.emailData == old(st.emailData)
      ensures hit && who.kind == "email" ==> st.emailData.Some? && st.phoneData == old(st.phoneData)
      ensures present && !hit && crawled.Some? ==>
                (st.phoneData, st.emailData) == if who.kind == "phone" then (crawled, old(st.emailData))
                                                else (old(st.phoneData), crawled)
      // No such login in the request: nothing happens.
      ensures !present ==> inner.runs == old(inner.runs) && repo.trace == old(repo.trace)
      ensures !present ==> st.Of(who.kind) == old(st.Of(who.kind))
    {
      HitReplaysLatest(repo.md5, repo.trace, who, clock);
      var run := Gate(repo, st, who, present, on, clock, up);
      if run {
        Run(repo, st, crawled, who);
      }
    }
  }
}
