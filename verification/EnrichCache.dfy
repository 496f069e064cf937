/** The enrichment checks of a request, answered from a shared document where it already holds an answer and
    from the vendor otherwise, with the merged document written back by a goroutine. */
module EnrichCache {
  import opened Base
  import opened JsonValue

  const TTL_SECONDS := 1296000

  const CHECKS := ["vintage", "demat_check", "mutual_fund_check", "credit_card_check", "fintech_count",
                   "phone_to_address"]

  const FAILED := Obj(map["error" := Bool(true)])

  datatype Item = Item(doc: map<string, Json>, ttl: int)

  // enabled: the checks whose gates are open; ids: the configured service ids; replies: what the vendor would
  // answer with status 200, check by check; on: caching is configured and switched on; up: the read of the
  // table succeeds.
  datatype Request = Request(key: string, enabled: set<string>, ids: map<string, string>,
                             replies: map<string, map<string, Json>>, on: bool, up: bool, now: nat)

  function Cached(table: map<string, Item>, r: Request): map<string, Json> {
    if r.on && r.up && r.key in table && !(table[r.key].ttl > 0 && r.now >= table[r.key].ttl)
    then table[r.key].doc else map[]
  }

  // A null in the document counts as no answer.
  predicate Answered(cached: map<string, Json>, check: string) {
    check in cached && cached[check] != Null
  }

  predicate Configured(r: Request, check: string) {
    check in r.ids && r.ids[check] != ""
  }

  function Result(r: Request, cached: map<string, Json>, check: string): Json {
    if Answered(cached, check) then cached[check]
    else if Configured(r, check) && check in r.replies then Obj(r.replies[check])
    else FAILED
  }

  function Results(r: Request, cached: map<string, Json>): map<string, Json> {
    map c | c in r.enabled :: Result(r, cached, c)
  }

  function Calls(r: Request, cached: map<string, Json>): set<string> {
    set c | c in r.enabled && !Answered(cached, c) && Configured(r, c)
  }

  // A bare error mark, and nothing else.
  predicate Bare(j: Json) {
    j.Obj? && j.fields.Keys == {"error"}
  }

  function Doc(cached: map<string, Json>, results: map<string, Json>): map<string, Json> {
    cached + map c | c in results && !Bare(results[c]) :: results[c]
  }

  /******* The shared table *******/

  datatype Put = Put(key: string, doc: map<string, Json>, now: nat)

  datatype State = State(table: map<string, Item>, pending: seq<Put>)

  datatype Event = Fetch(r: Request) | Land(i: nat) | Fail(i: nat)

  const EMPTY := State(map[], [])

  function Without(puts: seq<Put>, i: nat): seq<Put>
    requires i < |puts|
  {
    puts[..i] + puts[i + 1..]
  }

  // The write-back depends on nothing the table does after the read, so it is pending from then on.
  function Step(s: State, e: Event): State {
    match e
    case Fetch(r) =>
      var cached := Cached(s.table, r);
      var doc := Doc(cached, Results(r, cached));
      if r.on && r.enabled != {} && doc != map[] then s.(pending := s.pending + [Put(r.key, doc, r.now)]) else s
    case Land(i) =>
      if i < |s.pending| then
        var p := s.pending[i];
        State(s.table[p.key := Item(p.doc, p.now + TTL_SECONDS)], Without(s.pending, i))
      else s
    case Fail(i) => if i < |s.pending| then s.(pending := Without(s.pending, i)) else s
  }

  function Exec(trace: seq<Event>): State {
    if trace == [] then EMPTY else Step(Exec(trace[..|trace| - 1]), trace[|trace| - 1])
  }

  // A document in which every answer is a real one.
  ghost predicate Sound(doc: map<string, Json>) {
    forall c :: c in doc ==> !Bare(doc[c]) && doc[c] != Null
  }

  ghost predicate AllSound(s: State) {
    && (forall k :: k in s.table ==> Sound(s.table[k].doc))
    && (forall i :: 0 <= i < |s.pending| ==> Sound(s.pending[i].doc))
  }

  lemma DocIsSound(r: Request, cached: map<string, Json>)
    requires Sound(cached)
    ensures Sound(Doc(cached, Results(r, cached)))
  {
  }

  // Main result: in every interleaving of requests and write-backs, no document ever holds a bare error, so
  // a failed check is always tried again.
  lemma {:induction false} NoBareErrorStored(trace: seq<Event>)
    ensures AllSound(Exec(trace))
  {
    if trace != [] {
      var s, e := Exec(trace[..|trace| - 1]), trace[|trace| - 1];
      NoBareErrorStored(trace[..|trace| - 1]);
      if e.Fetch? {
        DocIsSound(e.r, Cached(s.table, e.r));
      }
    }
  }

  /******* One request after another *******/

  ghost predicate Extends(a: map<string, Json>, b: map<string, Json>) {
    forall c :: c in b ==> c in a && a[c] == b[c]
  }

  // The document only grows by what a request learns, as far as that request's own read goes.
  lemma DocGrows(r: Request, cached: map<string, Json>)
    requires Sound(cached)
    ensures Extends(Doc(cached, Results(r, cached)), cached)
    ensures forall c :: c in r.enabled && !Bare(Result(r, cached, c)) ==>
              c in Doc(cached, Results(r, cached)) && Doc(cached, Results(r, cached))[c] == Result(r, cached, c)
  {
  }

  // Requests on one key, each with caching on and a check to answer, each finished before the next and
  // within the lifetime of the document the one before it left.
  ghost predicate Sequential(rs: seq<Request>) {
    && (forall i :: 0 <= i < |rs| ==> rs[i].on && rs[i].up && rs[i].enabled != {} && rs[i].key == rs[0].key)
    && (forall i :: 0 < i < |rs| ==> rs[i].now < rs[i - 1].now + TTL_SECONDS)
  }

  // The state after the requests: every request is followed by its own write-back.
  function After(rs: seq<Request>): State {
    if rs == [] then EMPTY else Step(Step(After(rs[..|rs| - 1]), Fetch(rs[|rs| - 1])), Land(0))
  }

  // What request i finds, and what it answers.
  function Found(rs: seq<Request>, i: nat): map<string, Json>
    requires i < |rs|
  {
    Cached(After(rs[..i]).table, rs[i])
  }

  function AnswerOf(rs: seq<Request>, i: nat): map<string, Json>
    requires i < |rs|
  {
    Results(rs[i], Found(rs, i))
  }

  function TraceOf(rs: seq<Request>): seq<Event> {
    if rs == [] then [] else TraceOf(rs[..|rs| - 1]) + [Fetch(rs[|rs| - 1]), Land(0)]
  }

  lemma ExecSnoc(trace: seq<Event>, e: Event)
    ensures Exec(trace + [e]) == Step(Exec(trace), e)
  {
    assert (trace + [e])[..|trace|] == trace;
  }

  lemma {:induction false} AfterIsRun(rs: seq<Request>)
    ensures After(rs) == Exec(TraceOf(rs))
  {
    if rs != [] {
      AfterIsRun(rs[..|rs| - 1]);
      var t, a, b := TraceOf(rs[..|rs| - 1]), Fetch(rs[|rs| - 1]), Land(0);
      ExecSnoc(t, a);
      ExecSnoc(t + [a], b);
      assert t + [a, b] == t + [a] + [b];
    }
  }

  // The document a request writes back.
  function WrittenDoc(r: Request, cached: map<string, Json>): map<string, Json> {
    Doc(cached, Results(r, cached))
  }

  predicate Writes(r: Request) { r.on && r.enabled != {} }

  function Pending(r: Request, cached: map<string, Json>): seq<Put> {
    if WrittenDoc(r, cached) != map[] then [Put(r.key, WrittenDoc(r, cached), r.now)] else []
  }

  lemma FetchPends(s: State, r: Request)
    requires Writes(r)
    ensures Step(s, Fetch(r)) == s.(pending := s.pending + Pending(r, Cached(s.table, r)))
  {
  }

  lemma LandNone(s: State)
    requires s.pending == []
    ensures Step(s, Land(0)) == s
  {
  }

  lemma LandLast(s: State, p: Put)
    requires s.pending == [p]
    ensures Step(s, Land(0)) == State(s.table[p.key := Item(p.doc, p.now + TTL_SECONDS)], [])
  {
    assert Without([p], 0) == [];
  }

  lemma LandFirst(s: State, p: Put, q: Put)
    requires s.pending == [p, q]
    ensures Step(s, Land(0)) == State(s.table[p.key := Item(p.doc, p.now + TTL_SECONDS)], [q])
  {
    assert Without([p, q], 0) == [q];
  }

  // Between requests nothing is under way, and a document, once there, was left by the last request.
  ghost predicate Settled(s: State, key: string, now: nat) {
    && s.pending == [] && AllSound(s)
    && (key in s.table ==> s.table[key].doc != map[] && s.table[key].ttl == now + TTL_SECONDS)
  }

  lemma ServeOne(s: State, r: Request, before: nat)
    requires Settled(s, r.key, before) && r.on && r.up && r.enabled != {}
    requires r.key in s.table ==> r.now < before + TTL_SECONDS
    ensures var cached := Cached(s.table, r);
            var t := Step(Step(s, Fetch(r)), Land(0));
            && Settled(t, r.key, r.now)
            && (r.key in s.table ==> cached == s.table[r.key].doc)
            && (r.key !in s.table ==> cached == map[])
            && (r.key in t.table <==> Doc(cached, Results(r, cached)) != map[])
            && (r.key in t.table ==> t.table[r.key].doc == Doc(cached, Results(r, cached)))
  {
    var cached := Cached(s.table, r);
    DocIsSound(r, cached);
    DocGrows(r, cached);
    FetchPends(s, r);
    var t := Step(s, Fetch(r));
    if WrittenDoc(r, cached) != map[] {
      LandLast(t, Put(r.key, WrittenDoc(r, cached), r.now));
    } else {
      LandNone(t);
    }
  }

  // What the last request starts from, and the clock of the request before it.
  lemma {:induction false} ReadyForLast(rs: seq<Request>) returns (before: nat)
    requires Sequential(rs) && rs != []
    ensures Settled(After(rs[..|rs| - 1]), rs[0].key, before)
    ensures rs[0].key in After(rs[..|rs| - 1]).table ==> rs[|rs| - 1].now < before + TTL_SECONDS
    decreases |rs|, 0
  {
    var last := |rs| - 1;
    if last > 0 {
      AlwaysSettled(rs[..last]);
      before := rs[last - 1].now;
    } else {
      assert rs[..0] == [];
      before := 0;
    }
  }

  lemma {:induction false} AlwaysSettled(rs: seq<Request>)
    requires Sequential(rs) && rs != []
    ensures Settled(After(rs), rs[0].key, rs[|rs| - 1].now)
    decreases |rs|, 1
  {
    var before := ReadyForLast(rs);
    ServeOne(After(rs[..|rs| - 1]), rs[|rs| - 1], before);
  }

  function DocAt(s: State, key: string): map<string, Json> {
    if key in s.table then s.table[key].doc else map[]
  }

  // The last request finds the document as it is, and leaves it with its own answers in.
  lemma LastServed(rs: seq<Request>)
    requires Sequential(rs) && rs != []
    ensures Found(rs, |rs| - 1) == DocAt(After(rs[..|rs| - 1]), rs[0].key)
    ensures DocAt(After(rs), rs[0].key) == Doc(Found(rs, |rs| - 1), AnswerOf(rs, |rs| - 1))
  {
    var before := ReadyForLast(rs);
    ServeOne(After(rs[..|rs| - 1]), rs[|rs| - 1], before);
  }

  // And the document only grows.
  lemma DocumentOnlyGrows(rs: seq<Request>)
    requires Sequential(rs) && rs != []
    ensures Extends(DocAt(After(rs), rs[0].key), DocAt(After(rs[..|rs| - 1]), rs[0].key))
  {
    LastServed(rs);
    FoundIsSound(rs, |rs| - 1);
    DocGrows(rs[|rs| - 1], Found(rs, |rs| - 1));
  }

  predicate Told(doc: map<string, Json>, c: string, v: Json) {
    c in doc && doc[c] == v
  }

  lemma FoundInPrefix(rs: seq<Request>, n: nat, i: nat)
    requires i < n <= |rs|
    ensures rs[..n][i] == rs[i] && Found(rs[..n], i) == Found(rs, i)
  {
    assert rs[..n][..i] == rs[..i];
  }

  lemma SequentialPrefix(rs: seq<Request>, n: nat)
    requires Sequential(rs) && n <= |rs|
    ensures Sequential(rs[..n])
  {
  }

  lemma LastHolds(rs: seq<Request>, c: string)
    requires Sequential(rs) && rs != []
    requires var last := |rs| - 1; c in rs[last].enabled && !Bare(Result(rs[last], Found(rs, last), c))
    ensures Told(DocAt(After(rs), rs[0].key), c, Result(rs[|rs| - 1], Found(rs, |rs| - 1), c))
  {
    LastServed(rs);
    FoundIsSound(rs, |rs| - 1);
    DocGrows(rs[|rs| - 1], Found(rs, |rs| - 1));
  }

  lemma FoundIsSound(rs: seq<Request>, i: nat)
    requires i < |rs|
    ensures Sound(Found(rs, i))
  {
    AfterIsRun(rs[..i]);
    NoBareErrorStored(TraceOf(rs[..i]));
  }

  // The document once the first n requests are served.
  function DocAfter(rs: seq<Request>, n: nat): map<string, Json>
    requires rs != [] && n <= |rs|
  {
    DocAt(After(rs[..n]), rs[0].key)
  }

  // A later request finds the document as the one before it left it.
  lemma FindsTheDocument(rs: seq<Request>, j: nat)
    requires Sequential(rs) && j < |rs|
    ensures Found(rs, j) == DocAfter(rs, j)
  {
    SequentialPrefix(rs, j + 1);
    LastServed(rs[..j + 1]);
    FoundInPrefix(rs, j + 1, j);
    FoundInPrefix(rs, j + 1, 0);
    assert rs[..j + 1][..j] == rs[..j];
  }

  lemma DocAfterGrows(rs: seq<Request>, n: nat)
    requires Sequential(rs) && n < |rs|
    ensures Extends(DocAfter(rs, n + 1), DocAfter(rs, n))
  {
    SequentialPrefix(rs, n + 1);
    DocumentOnlyGrows(rs[..n + 1]);
    FoundInPrefix(rs, n + 1, 0);
    assert rs[..n + 1][..n] == rs[..n];
  }

  lemma DocAfterHolds(rs: seq<Request>, i: nat, c: string)
    requires Sequential(rs) && i < |rs| && c in rs[i].enabled && !Bare(Result(rs[i], Found(rs, i), c))
    ensures Told(DocAfter(rs, i + 1), c, Result(rs[i], Found(rs, i), c))
  {
    SequentialPrefix(rs, i + 1);
    FoundInPrefix(rs, i + 1, i);
    FoundInPrefix(rs, i + 1, 0);
    LastHolds(rs[..i + 1], c);
  }

  // What each document of a series takes over from the one before, every later one holds.
  lemma {:induction false} ExtendsChain(docs: seq<map<string, Json>>, i: nat, j: nat)
    requires i <= j < |docs| && forall n :: 0 <= n < |docs| - 1 ==> Extends(docs[n + 1], docs[n])
    ensures Extends(docs[j], docs[i])
  {
    if i < j {
      ExtendsChain(docs, i, j - 1);
      assert Extends(docs[j - 1 + 1], docs[j - 1]);
    }
  }

  lemma FoundLater(rs: seq<Request>, i: nat, j: nat, c: string)
    requires Sequential(rs) && i < j < |rs|
    requires c in rs[i].enabled && !Bare(Result(rs[i], Found(rs, i), c))
    ensures Told(Found(rs, j), c, Result(rs[i], Found(rs, i), c))
  {
    var docs := seq(|rs| + 1, n requires 0 <= n <= |rs| => DocAfter(rs, n));
    forall n | 0 <= n < |rs| ensures Extends(docs[n + 1], docs[n]) {
      DocAfterGrows(rs, n);
    }
    ExtendsChain(docs, i + 1, j);
    DocAfterHolds(rs, i, c);
    FindsTheDocument(rs, j);
  }

  // Main result: over requests served one after another, a check that was answered once is never sent to
  // the vendor again, and every later request that asks gets the same answer.
  lemma AnsweredOnceForAll(rs: seq<Request>, i: nat, j: nat, c: string)
    requires Sequential(rs) && i < j < |rs|
    requires c in rs[i].enabled && c in rs[j].enabled && !Bare(AnswerOf(rs, i)[c])
    ensures c !in Calls(rs[j], Found(rs, j))
    ensures AnswerOf(rs, j)[c] == AnswerOf(rs, i)[c]
  {
    FoundLater(rs, i, j, c);
    FoundIsSound(rs, j);
  }

  /******* Requests that overlap *******/

  // What a write-back keeps of a document d, whatever it was built from: exactly the answers it found in its own
  // read and those the request got afresh in the same words.
  lemma WriteKeepsIff(r: Request, cached: map<string, Json>, d: map<string, Json>)
    requires Sound(cached) && Sound(d)
    ensures Extends(WrittenDoc(r, cached), d) <==>
            forall c :: c in d ==>
              if c in cached then cached[c] == d[c] else c in r.enabled && Result(r, cached, c) == d[c]
  {
    DocAtCheck(r, cached);
    var doc := WrittenDoc(r, cached);
    if Extends(doc, d) {
      forall c | c in d
        ensures if c in cached then cached[c] == d[c] else c in r.enabled && Result(r, cached, c) == d[c]
      {
        assert c in doc && doc[c] == d[c];
      }
    }
  }

  // One check in a written document.
  lemma DocAtCheck(r: Request, cached: map<string, Json>)
    requires Sound(cached)
    ensures forall c :: c in cached ==> c in WrittenDoc(r, cached) && WrittenDoc(r, cached)[c] == cached[c]
    ensures forall c :: c !in cached ==>
              (c in WrittenDoc(r, cached) <==> c in r.enabled && !Bare(Result(r, cached, c)))
    ensures forall c :: c !in cached && c in WrittenDoc(r, cached) ==> WrittenDoc(r, cached)[c] == Result(r, cached, c)
  {
  }

  // Two requests that found the same document: the second write-back keeps all the first one wrote exactly when
  // it repeats every answer the first one got afresh.
  lemma SecondKeepsFirstIff(r1: Request, r2: Request, cached: map<string, Json>)
    requires Sound(cached)
    ensures Extends(WrittenDoc(r2, cached), WrittenDoc(r1, cached)) <==> Repeats(r1, r2, cached)
  {
    DocIsSound(r1, cached);
    WriteKeepsIff(r2, cached, WrittenDoc(r1, cached));
    DocAtCheck(r1, cached);
    if Repeats(r1, r2, cached) {
      forall c | c in WrittenDoc(r1, cached) && c !in cached
        ensures c in r2.enabled && Result(r2, cached, c) == WrittenDoc(r1, cached)[c]
      {
        assert c in r1.enabled && !Answered(cached, c);
      }
    } else {
      var c :| c in r1.enabled && !Answered(cached, c) && !Bare(Result(r1, cached, c))
               && !(c in r2.enabled && Result(r2, cached, c) == Result(r1, cached, c));
      assert c in WrittenDoc(r1, cached) && c !in cached;
    }
  }

  ghost predicate Repeats(r1: Request, r2: Request, cached: map<string, Json>) {
    forall c :: c in r1.enabled && !Answered(cached, c) && !Bare(Result(r1, cached, c)) ==>
      c in r2.enabled && Result(r2, cached, c) == Result(r1, cached, c)
  }

  // Main result on overlapping requests: whatever ran before, once nothing is under way, two requests on one key
  // that both read before either writes back leave the first one's document whole exactly when the second has
  // nothing to write or repeats all that the first got afresh.
  lemma OverlapKeepsIff(trace: seq<Event>, r1: Request, r2: Request)
    requires Exec(trace).pending == [] && r1.key == r2.key && Writes(r1) && Writes(r2)
    requires Cached(Exec(trace).table, r1) == Cached(Exec(trace).table, r2)
    ensures var cached := Cached(Exec(trace).table, r1);
            var left := DocAt(Exec(trace + [Fetch(r1), Fetch(r2)] + [Land(0), Land(0)]), r1.key);
            Extends(left, WrittenDoc(r1, cached)) <==>
            WrittenDoc(r2, cached) == map[] || Repeats(r1, r2, cached)
  {
    var cached := Cached(Exec(trace).table, r1);
    NoBareErrorStored(trace);
    SecondKeepsFirstIff(r1, r2, cached);
    OverlapLeaves(trace, r1, r2);
  }

  lemma OverlapLeaves(trace: seq<Event>, r1: Request, r2: Request)
    requires Exec(trace).pending == [] && r1.key == r2.key && Writes(r1) && Writes(r2)
    requires Cached(Exec(trace).table, r1) == Cached(Exec(trace).table, r2)
    ensures var cached := Cached(Exec(trace).table, r1);
            var d1, d2 := WrittenDoc(r1, cached), WrittenDoc(r2, cached);
            DocAt(Exec(trace + [Fetch(r1), Fetch(r2)] + [Land(0), Land(0)]), r1.key) ==
            if d2 != map[] then d2 else if d1 != map[] then d1 else DocAt(Exec(trace), r1.key)
  {
    var s, cached := Exec(trace), Cached(Exec(trace).table, r1);
    var p, q := Put(r1.key, WrittenDoc(r1, cached), r1.now), Put(r2.key, WrittenDoc(r2, cached), r2.now);
    var read := State(s.table, Pending(r1, cached) + Pending(r2, cached));
    BothRead(trace, r1, r2, s);
    BothLand(trace + [Fetch(r1), Fetch(r2)], read, p, q, p.doc != map[], q.doc != map[]);
  }

  // A read that changes nothing but what is pending, followed by another.
  lemma ReadsPend(table: map<string, Item>, puts: seq<Put>, r: Request, more: seq<Put>)
    requires Writes(r) && more == Pending(r, Cached(table, r))
    ensures Step(State(table, puts), Fetch(r)) == State(table, puts + more)
  {
    FetchPends(State(table, puts), r);
  }

  lemma BothRead(trace: seq<Event>, r1: Request, r2: Request, s: State)
    requires Exec(trace) == s && s.pending == [] && Writes(r1) && Writes(r2)
    ensures Exec(trace + [Fetch(r1), Fetch(r2)]) ==
            State(s.table, Pending(r1, Cached(s.table, r1)) + Pending(r2, Cached(s.table, r2)))
  {
    var p1, p2 := Pending(r1, Cached(s.table, r1)), Pending(r2, Cached(s.table, r2));
    ReadsPend(s.table, [], r1, p1);
    ReadsPend(s.table, p1, r2, p2);
    assert [] + p1 == p1;
    TwoSteps(trace, Fetch(r1), Fetch(r2), s, State(s.table, p1 + p2));
  }

  lemma BothLand(trace: seq<Event>, s: State, p: Put, q: Put, first: bool, second: bool)
    requires Exec(trace) == s && p.key == q.key
    requires s.pending == (if first then [p] else []) + (if second then [q] else [])
    ensures DocAt(Exec(trace + [Land(0), Land(0)]), p.key) ==
            if second then q.doc else if first then p.doc else DocAt(s, p.key)
  {
    TwoLand(s, p, q, first, second);
    TwoSteps(trace, Land(0), Land(0), s, Step(Step(s, Land(0)), Land(0)));
  }

  lemma TwoSteps(trace: seq<Event>, a: Event, b: Event, s: State, t: State)
    requires Exec(trace) == s && Step(Step(s, a), b) == t
    ensures Exec(trace + [a, b]) == t
  {
    ExecSnoc(trace, a);
    ExecSnoc(trace + [a], b);
    TwoAppended(trace, a, b);
  }

  lemma TwoAppended(trace: seq<Event>, a: Event, b: Event)
    ensures trace + [a] + [b] == trace + [a, b]
  {
  }

  // Of two write-backs on one key the one that lands last decides, if it is there at all.
  lemma TwoLand(s: State, p: Put, q: Put, first: bool, second: bool)
    requires p.key == q.key && s.pending == (if first then [p] else []) + (if second then [q] else [])
    ensures DocAt(Step(Step(s, Land(0)), Land(0)), p.key) ==
            if second then q.doc else if first then p.doc else DocAt(s, p.key)
  {
    if first && second {
      assert s.pending == [p, q];
      LandFirst(s, p, q);
      LandLast(Step(s, Land(0)), q);
    } else if first || second {
      LandLast(s, if first then p else q);
      LandNone(Step(s, Land(0)));
    } else {
      LandNone(s);
    }
  }

  // Main result on failed reads: a request whose read of the table fails, alone with the table, leaves the document
  // whole exactly when it has nothing to write or gets every answer in it afresh in the same words.
  lemma FailedReadKeepsIff(trace: seq<Event>, r: Request)
    requires Exec(trace).pending == [] && Writes(r) && !r.up
    ensures var d := DocAt(Exec(trace), r.key);
            Extends(DocAt(Exec(trace + [Fetch(r), Land(0)]), r.key), d) <==>
            WrittenDoc(r, map[]) == map[] || forall c :: c in d ==> c in r.enabled && Result(r, map[], c) == d[c]
  {
    var s, doc := Exec(trace), WrittenDoc(r, map[]);
    NoBareErrorStored(trace);
    WriteKeepsIff(r, map[], DocAt(s, r.key));
    FetchPends(s, r);
    var read := State(s.table, Pending(r, map[]));
    if doc != map[] {
      LandLast(read, Put(r.key, doc, r.now));
    } else {
      LandNone(read);
    }
    TwoSteps(trace, Fetch(r), Land(0), s, Step(read, Land(0)));
  }

  /******* What a request gets and leaves *******/

  // What a request reads of the shared table: the document of its key, unless it is too old.
  ghost predicate ReadAs(table: map<string, Item>, r: Request, cached: map<string, Json>) {
    if r.on && r.up && r.key in table && (table[r.key].ttl <= 0 || r.now < table[r.key].ttl)
    then cached == table[r.key].doc else cached == map[]
  }

  // An enabled check that the document does not answer and the vendor does.
  predicate FromVendor(r: Request, cached: map<string, Json>, c: string) {
    && c in r.enabled && (c !in cached || cached[c] == Null)
    && c in r.ids && r.ids[c] != "" && c in r.replies
  }

  // One answer for each enabled check: the document's, else the vendor's, else a bare error.
  ghost predicate AnswersFrom(r: Request, cached: map<string, Json>, results: map<string, Json>) {
    && results.Keys == r.enabled
    && forall c :: c in r.enabled ==>
         && (c in cached && cached[c] != Null ==> results[c] == cached[c])
         && (FromVendor(r, cached, c) ==> results[c] == Obj(r.replies[c]))
         && ((c !in cached || cached[c] == Null) && !FromVendor(r, cached, c) ==>
               results[c] == Obj(map["error" := Bool(true)]))
  }

  // The document written back: what was read, with the vendor's answers laid over it unless they are bare errors.
  ghost predicate DocFrom(r: Request, cached: map<string, Json>, doc: map<string, Json>) {
    forall c ::
      var learnt := FromVendor(r, cached, c) && r.replies[c].Keys != {"error"};
      && (c in doc <==> c in cached || learnt)
      && (c in doc ==> doc[c] == if learnt then Obj(r.replies[c]) else cached[c])
  }

  lemma ReadIsCached(table: map<string, Item>, r: Request, cached: map<string, Json>)
    ensures ReadAs(table, r, cached) <==> cached == Cached(table, r)
  {
  }

  lemma ResultsAnswer(r: Request, cached: map<string, Json>)
    ensures AnswersFrom(r, cached, Results(r, cached))
  {
  }

  lemma WrittenFrom(r: Request, cached: map<string, Json>)
    ensures DocFrom(r, cached, WrittenDoc(r, cached))
  {
    var doc := WrittenDoc(r, cached);
    forall c
      ensures var learnt := FromVendor(r, cached, c) && r.replies[c].Keys != {"error"};
              && (c in doc <==> c in cached || learnt)
              && (c in doc ==> doc[c] == if learnt then Obj(r.replies[c]) else cached[c])
    {
      assert FAILED.fields.Keys == {"error"};
      assert c in doc <==> c in cached || (c in r.enabled && !Bare(Result(r, cached, c)));
    }
  }

  // Main result on what is learnt: in every run, once the write-back of a request has landed, the document holds
  // every answer that the vendor gave it, unless that was a bare error.
  lemma LearntIsHeld(trace: seq<Event>, r: Request, cached: map<string, Json>, c: string)
    requires Writes(r) && ReadAs(Exec(trace).table, r, cached)
    requires FromVendor(r, cached, c) && r.replies[c].Keys != {"error"}
    ensures var t := Exec(trace + [Fetch(r), Land(|Exec(trace).pending|)]).table;
            r.key in t && c in t[r.key].doc && t[r.key].doc[c] == Obj(r.replies[c])
  {
    var s := Exec(trace);
    var n, doc := |s.pending|, WrittenDoc(r, cached);
    ReadIsCached(s.table, r, cached);
    WrittenFrom(r, cached);
    FetchPends(s, r);
    var read := s.(pending := s.pending + [Put(r.key, doc, r.now)]);
    assert c in doc && Pending(r, cached) == [Put(r.key, doc, r.now)];
    TwoSteps(trace, Fetch(r), Land(n), s, Step(read, Land(n)));
  }

  /******* The service *******/

  class Service {
    const checkOrder: seq<string>
    var table: map<string, Item>
    var queue: seq<Put>
    ghost var trace: seq<Event>

    ghost predicate Valid()
      reads this
    {
      table == Exec(trace).table && queue == Exec(trace).pending
    }

    constructor ()
      ensures Valid() && trace == [] && checkOrder == CHECKS
    {
      checkOrder := CHECKS;
      table, queue, trace := map[], [], [];
    }

    method GetDoc(key: string, now: int, up: bool) returns (doc: Option<map<string, Json>>)
      ensures doc == if up && key in table && !(table[key].ttl > 0 && now >= table[key].ttl)
                     then Some(table[key].doc) else None
    {
      if !up || key !in table {
        return None;
      }
      if table[key].ttl > 0 && now >= table[key].ttl {
        return None;
      }
      doc := Some(table[key].doc);
    }

    // Some goroutine gets its turn to write, and the write goes through or fails.
    method RunOne(i: nat, up: bool)
      requires Valid() && i < |queue|
      modifies this
      ensures Valid() && trace == old(trace) + [if up then Land(i) else Fail(i)]
      ensures var p := old(queue)[i];
              table == if up then old(table)[p.key := Item(p.doc, p.now + 1296000)] else old(table)
    {
      ghost var before := State(table, queue);
      var p := queue[i];
      queue := queue[..i] + queue[i + 1..];
      if up {
        table := table[p.key := Item(p.doc, p.now + TTL_SECONDS)];
      }
      ghost var e := if up then Land(i) else Fail(i);
      assert Step(before, e) == State(table, queue);
      ExecSnoc(trace, e);
      trace := trace + [e];
    }

    // The checks whose gates are open, in their fixed order.
    method EnabledChecks(gates: set<string>) returns (enabled: seq<string>)
      ensures forall c :: c in enabled <==> c in checkOrder && c in gates
    {
      enabled := [];
      for i := 0 to |checkOrder|
        invariant forall c :: c in enabled <==> c in checkOrder[..i] && c in gates
      {
        if checkOrder[i] in gates {
          enabled := enabled + [checkOrder[i]];
        }
      }
    }

    // Answers from the document, or straight away for want of a service id; the rest is sent out.
    static method FanOut(enabled: seq<string>, r: Request, cached: map<string, Json>)
      returns (results: map<string, Json>, calls: set<string>)
      requires forall c :: c in enabled <==> c in r.enabled
      ensures calls == Calls(r, cached) && results == Results(r, cached) - calls
    {
      results, calls := map[], {};
      for i := 0 to |enabled|
        invariant calls == set c | c in enabled[..i] && c in Calls(r, cached)
        invariant results == map c | c in enabled[..i] && c !in Calls(r, cached) :: Result(r, cached, c)
      {
        var check := enabled[i];
        assert enabled[..i + 1] == enabled[..i] + [check];
        if check in cached && cached[check] != Null {
          results := results[check := cached[check]];
        } else if !(check in r.ids && r.ids[check] != "") {
          results := results[check := FAILED];
        } else {
          calls := calls + {check};
        }
      }
      assert enabled[..|enabled|] == enabled;
    }

    // The calls come back in any order.
    static method Collect(r: Request, cached: map<string, Json>, begun: map<string, Json>, calls: set<string>)
      returns (results: map<string, Json>)
      requires calls == Calls(r, cached) && begun == Results(r, cached) - calls
      ensures results == Results(r, cached)
    {
      results := begun;
      var out := calls;
      while out != {}
        invariant out <= calls && results == Results(r, cached) - out
      {
        var check :| check in out;
        results := results[check := if check in r.replies then Obj(r.replies[check]) else FAILED];
        out := out - {check};
      }
      assert results == Results(r, cached);
    }

    static lemma MergeOne(cached: map<string, Json>, part: map<string, Json>, k: string, v: Json)
      requires k !in part
      ensures Doc(cached, part[k := v]) == if Bare(v) then Doc(cached, part) else Doc(cached, part)[k := v]
    {
    }

    static method MergedDoc(cached: map<string, Json>, results: map<string, Json>) returns (doc: map<string, Json>)
      ensures doc == Doc(cached, results)
    {
      doc := cached;
      var rest := results.Keys;
      while rest != {}
        invariant rest <= results.Keys
        invariant doc == Doc(cached, results - rest)
      {
        var k :| k in rest;
        MergeOne(cached, results - rest, k, results[k]);
        assert results - (rest - {k}) == (results - rest)[k := results[k]];
        if !Bare(results[k]) {
          doc := doc[k := results[k]];
        }
        rest := rest - {k};
      }
      assert results - rest == results;
    }

    // The part that runs once some check is known to be enabled.
    method Answer(r: Request, enabled: seq<string>) returns (results: map<string, Json>)
      requires Valid() && r.enabled != {} && forall c :: c in enabled <==> c in r.enabled
      modifies this
      ensures Valid() && table == old(table) && trace == old(trace) + [Fetch(r)]
      ensures results == Results(r, Cached(table, r))
      ensures queue == old(queue) + if r.on then Pending(r, Cached(table, r)) else []
    {
      ghost var before := State(table, queue);
      assert Exec(trace) == before;
      var cached: map<string, Json> := map[];
      if r.on {
        var doc := GetDoc(r.key, r.now, r.up);
        if doc.Some? {
          cached := doc.value;
        }
      }
      assert cached == Cached(table, r);
      var begun, calls := FanOut(enabled, r, cached);
      results := Collect(r, cached, begun, calls);
      if r.on {
        WriteBack(r, cached, results);
        FetchPends(before, r);
      }
      assert Step(before, Fetch(r)) == State(table, queue);
      ExecSnoc(trace, Fetch(r));
      trace := trace + [Fetch(r)];
    }

    method WriteBack(r: Request, cached: map<string, Json>, results: map<string, Json>)
      requires results == Results(r, cached)
      modifies `queue
      ensures queue == old(queue) + Pending(r, cached)
    {
      var doc := MergedDoc(cached, results);
      if doc != map[] {
        queue := queue + [Put(r.key, doc, r.now)];
      }
    }

    // None when the feature is off or no gate is open; otherwise one answer for each enabled check.
    method FetchChecks(key: string, gates: set<string>, ids: map<string, string>,
                       replies: map<string, map<string, Json>>, configured: bool, on: bool, up: bool, now: nat)
      returns (results: Option<map<string, Json>>)
      requires Valid()
      modifies this
      ensures Valid() && table == old(table)
      ensures var r := Request(key, (set c | c in checkOrder && c in gates), ids, replies, on, up, now);
              if !configured || r.enabled == {} then results == None && trace == old(trace)
              else
                && results == Some(Results(r, Cached(table, r))) && trace == old(trace) + [Fetch(r)]
      ensures var r := Request(key, (set c | c in checkOrder && c in gates), ids, replies, on, up, now);
              results.Some? ==> forall cached :: ReadAs(table, r, cached) ==>
                && AnswersFrom(r, cached, results.value)
                && (on ==> exists doc :: DocFrom(r, cached, doc) &&
                                         queue == old(queue) + if doc != map[] then [Put(key, doc, now)] else [])
      ensures results.None? || !on ==> queue == old(queue)
    {
      if !configured {
        return None;
      }
      var enabled := EnabledChecks(gates);
      var open := set c | c in enabled;
      assert open == set c | c in checkOrder && c in gates;
      if |enabled| == 0 {
        return None;
      }
      assert enabled[0] in open;
      ghost var r := Request(key, open, ids, replies, on, up, now);
      var all := Answer(Request(key, open, ids, replies, on, up, now), enabled);
      results := Some(all);
      ghost var read := Cached(table, r);
      forall cached ensures ReadAs(table, r, cached) <==> cached == read {
        ReadIsCached(table, r, cached);
      }
      ResultsAnswer(r, read);
      WrittenFrom(r, read);
    }
  }
}
