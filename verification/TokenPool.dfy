/** The background token pool: one refill loop, any number of concurrent readers and generators.

    Every critical section of the pool is one step of a state machine; the loop's own steps (read the
    clock, filter, size up, mint, sleep) and the request path's Get interleave freely. */
module TokenPool {
  import opened Base

  // Instants and durations are nanoseconds; instant 0 is the zero time, which never expires.
  type Time = nat

  const SECOND: int := 1_000_000_000
  const MAX_BACKOFF: int := 300 * SECOND
  const CYCLE_CAP := 10

  datatype Token = Token(values: map<string, string>, usages: nat, created: Time)

  datatype Config = Config(size: int, ttl: int, useLimit: int, maxThread: int, sleep: int)

  function WithDefaults(c: Config): Config {
    Config(if c.size < 0 then 0 else c.size,
           if c.ttl <= 0 then 300 * SECOND else c.ttl,
           if c.useLimit <= 0 then 5 else c.useLimit,
           if c.maxThread <= 0 then 5 else c.maxThread,
           if c.sleep <= 0 then 5 * SECOND else c.sleep)
  }

  // What WithDefaults establishes.
  predicate Sane(c: Config) {
    c.size >= 0 && c.ttl > 0 && c.useLimit > 0 && c.maxThread > 0 && c.sleep > 0
  }

  predicate Expired(c: Config, t: Token, now: Time) {
    t.created != 0 && now > t.created + c.ttl
  }

  predicate Keeps(c: Config, t: Token, now: Time) {
    !Expired(c, t, now) && t.usages < c.useLimit
  }

  function Kept(c: Config, tokens: seq<Token>, now: Time): seq<Token> {
    if tokens == [] then []
    else (if Keeps(c, tokens[0], now) then [tokens[0]] else []) + Kept(c, tokens[1..], now)
  }

  function Used(tokens: seq<Token>, i: nat): seq<Token>
    requires i < |tokens|
  {
    tokens[i := tokens[i].(usages := tokens[i].usages + 1)]
  }

  function Trimmed(c: Config, tokens: seq<Token>): seq<Token>
    requires c.size >= 0
  {
    if |tokens| > c.size then tokens[..c.size] else tokens
  }

  // How many tokens a cycle mints when it finds have tokens; 0 or less means none.
  function Need(c: Config, have: nat): int {
    var n := c.size - have;
    var n := if n > CYCLE_CAP then CYCLE_CAP else n;
    if n > c.maxThread then c.maxThread else n
  }

  function PerCycle(c: Config): int {
    if c.maxThread < CYCLE_CAP then c.maxThread else CYCLE_CAP
  }

  function NextWait(c: Config, wait: int, attempted: nat, succeeded: nat): int {
    if attempted > 0 && succeeded == 0
    then if wait * 2 > MAX_BACKOFF then MAX_BACKOFF else wait * 2
    else c.sleep
  }

  /******* The protocol *******/

  datatype Phase =
    | Sleeping(wakeAt: int)
    | Timed(now: Time)
    | Filtered
    | Shrinking
    | Minting(need: nat, pending: nat, succeeded: nat)
    | Ending(attempted: nat, succeeded: nat)

  // The last seven fields are history: they record what happened and steer nothing.
  datatype State = State(
    tokens: seq<Token>, clock: Time, phase: Phase, wait: int,
    hits: int, evictedUses: int, sinceFilter: nat, lastFilter: Time,
    fails: nat, stretchCalls: nat, stretchStart: Time)

  datatype Event =
    | Tick(now: Time)
    | Get(i: nat)
    | ReadClock
    | Filter
    | SizeUp
    | Shrink
    | Minted(values: map<string, string>)
    | MintFailed
    | Collect
    | Sleep

  function Uses(tokens: seq<Token>): nat {
    if tokens == [] then 0 else tokens[0].usages + Uses(tokens[1..])
  }

  function Step(c: Config, s: State, e: Event): Option<State>
    requires Sane(c)
  {
    match e
    case Tick(now) => if now >= s.clock then Some(s.(clock := now)) else None
    case Get(i) =>
      if s.tokens == [] then Some(s)
      else if i < |s.tokens|
      then Some(s.(tokens := Used(s.tokens, i), hits := s.hits + 1, sinceFilter := s.sinceFilter + 1))
      else None
    case ReadClock =>
      if s.phase.Sleeping? && s.phase.wakeAt <= s.clock then Some(s.(phase := Timed(s.clock))) else None
    case Filter =>
      if !s.phase.Timed? then None
      else
        var kept := Kept(c, s.tokens, s.phase.now);
        Some(s.(tokens := kept, phase := Filtered, sinceFilter := 0, lastFilter := s.phase.now,
                evictedUses := s.evictedUses + Uses(s.tokens) - Uses(kept)))
    case SizeUp =>
      if !s.phase.Filtered? then None
      else
        var need := Need(c, |s.tokens|);
        if need <= 0 then Some(s.(phase := Shrinking))
        else Some(s.(phase := Minting(need, need, 0), stretchCalls := s.stretchCalls + need))
    case Shrink =>
      if !s.phase.Shrinking? then None
      else
        var kept := Trimmed(c, s.tokens);
        Some(s.(tokens := kept, phase := Ending(0, 0), evictedUses := s.evictedUses + Uses(s.tokens) - Uses(kept)))
    case Minted(values) =>
      if s.phase.Minting? && s.phase.pending > 0 && values != map[]
      then Some(s.(tokens := [Token(values, 0, s.clock)] + s.tokens,
                   phase := Minting(s.phase.need, s.phase.pending - 1, s.phase.succeeded + 1)))
      else None
    case MintFailed =>
      if s.phase.Minting? && s.phase.pending > 0
      then Some(s.(phase := Minting(s.phase.need, s.phase.pending - 1, s.phase.succeeded)))
      else None
    case Collect =>
      if s.phase.Minting? && s.phase.pending == 0
      then Some(s.(phase := Ending(s.phase.need, s.phase.succeeded))) else None
    case Sleep =>
      if !s.phase.Ending? then None
      else
        var wait := NextWait(c, s.wait, s.phase.attempted, s.phase.succeeded);
        var slept := s.(phase := Sleeping(s.clock + wait), wait := wait);
        if s.phase.attempted > 0 && s.phase.succeeded == 0
        then Some(slept.(fails := s.fails + 1))
        else Some(slept.(fails := 0, stretchCalls := 0, stretchStart := s.clock))
  }

  function Exec(c: Config, s: State, es: seq<Event>): Option<State>
    requires Sane(c)
    decreases |es|
  {
    if es == [] then Some(s)
    else
      match Step(c, s, es[0])
      case None => None
      case Some(s') => Exec(c, s', es[1..])
  }

  function Start(c: Config, clock: Time): State {
    State([], clock, Sleeping(clock), c.sleep, 0, 0, 0, 0, 0, 0, clock)
  }

  ghost predicate Reaches(c: Config, s0: State, s: State)
    requires Sane(c)
  {
    exists es :: Exec(c, s0, es) == Some(s)
  }

  /******* Backoff *******/

  function Wait(c: Config, fails: nat): int {
    if fails == 0 then c.sleep
    else
      var w := 2 * Wait(c, fails - 1);
      if w > MAX_BACKOFF then MAX_BACKOFF else w
  }

  function Pow2(n: nat): nat {
    if n == 0 then 1 else 2 * Pow2(n - 1)
  }

  // The time slept over a stretch of failing cycles.
  function SumWaits(c: Config, fails: nat): int {
    if fails == 0 then 0 else SumWaits(c, fails - 1) + Wait(c, fails)
  }

  // After n failed cycles in a row the wait is the smaller of sleep * 2^n and the cap.
  lemma {:induction false} WaitDoublesUpToCap(c: Config, n: nat)
    requires 0 < c.sleep <= MAX_BACKOFF
    ensures Wait(c, n) == if c.sleep * Pow2(n) > MAX_BACKOFF then MAX_BACKOFF else c.sleep * Pow2(n)
    ensures c.sleep <= Wait(c, n) <= MAX_BACKOFF
  {
    if n > 0 {
      WaitDoublesUpToCap(c, n - 1);
      assert c.sleep * Pow2(n) == 2 * (c.sleep * Pow2(n - 1));
    }
  }

  // Every wait lies between sleep and the cap exactly when sleep itself does not exceed the cap.
  lemma WaitInRangeIff(c: Config)
    requires c.sleep > 0
    ensures (forall n: nat :: c.sleep <= Wait(c, n) <= MAX_BACKOFF) <==> c.sleep <= MAX_BACKOFF
  {
    if c.sleep <= MAX_BACKOFF {
      forall n: nat ensures c.sleep <= Wait(c, n) <= MAX_BACKOFF { WaitDoublesUpToCap(c, n); }
    } else {
      assert Wait(c, 0) == c.sleep;
    }
  }

  // Until the cap is reached the slept time doubles as well.
  lemma {:induction false} SumWaitsGrows(c: Config, n: nat)
    requires 0 < c.sleep && c.sleep * Pow2(n) <= MAX_BACKOFF
    ensures SumWaits(c, n) == 2 * (c.sleep * Pow2(n) - c.sleep)
  {
    if n > 0 {
      assert c.sleep * Pow2(n) == 2 * (c.sleep * Pow2(n - 1));
      assert c.sleep <= c.sleep * Pow2(n - 1) by { WaitDoublesOnce(c, n - 1); }
      SumWaitsGrows(c, n - 1);
      WaitDoublesUpToCap(c, n);
    }
  }

  lemma {:induction false} WaitDoublesOnce(c: Config, n: nat)
    requires 0 < c.sleep
    ensures c.sleep <= c.sleep * Pow2(n)
  {
    if n > 0 {
      WaitDoublesOnce(c, n - 1);
      assert c.sleep * Pow2(n) == 2 * (c.sleep * Pow2(n - 1));
    }
  }

  /******* The invariant *******/

  ghost predicate NewestFirst(tokens: seq<Token>) {
    forall i, j :: 0 <= i < j < |tokens| ==> tokens[i].created >= tokens[j].created
  }

  function Pending(s: State): nat {
    if s.phase.Minting? then s.phase.pending else 0
  }

  // The stretch of failing cycles so far: its waits, its generator calls and the time it took.
  predicate StretchOk(c: Config, s: State) {
    var running := if s.phase.Minting? then s.phase.need else if s.phase.Ending? then s.phase.attempted else 0;
    && s.wait == Wait(c, s.fails)
    && running <= PerCycle(c)
    && s.stretchCalls <= s.fails * PerCycle(c) + running
    && (if s.phase.Sleeping? then s.phase.wakeAt else s.clock) >= s.stretchStart + SumWaits(c, s.fails)
  }

  ghost predicate PoolOk(c: Config, s: State) {
    && |s.tokens| + Pending(s) <= c.size
    && NewestFirst(s.tokens)
    && (forall t :: t in s.tokens ==> t.created <= s.clock)
    && s.hits == Uses(s.tokens) + s.evictedUses
    && (forall t :: t in s.tokens ==> t.usages <= c.useLimit - 1 + s.sinceFilter)
    && (forall t :: t in s.tokens ==> !Expired(c, t, s.lastFilter))
    && s.lastFilter <= s.clock
    && (s.phase.Timed? ==> s.lastFilter <= s.phase.now <= s.clock)
  }

  ghost predicate Inv(c: Config, s: State) {
    PoolOk(c, s) && StretchOk(c, s)
  }

  lemma {:induction false} KeptMembers(c: Config, tokens: seq<Token>, now: Time)
    ensures forall t :: t in Kept(c, tokens, now) <==> t in tokens && Keeps(c, t, now)
  {
    if tokens != [] {
      KeptMembers(c, tokens[1..], now);
      assert tokens == [tokens[0]] + tokens[1..];
    }
  }

  lemma {:induction false} KeptCounts(c: Config, tokens: seq<Token>, now: Time)
    ensures |Kept(c, tokens, now)| <= |tokens| && Uses(Kept(c, tokens, now)) <= Uses(tokens)
  {
    if tokens != [] {
      KeptCounts(c, tokens[1..], now);
      if Keeps(c, tokens[0], now) {
        assert Kept(c, tokens, now)[1..] == Kept(c, tokens[1..], now);
      } else {
        assert Kept(c, tokens, now) == Kept(c, tokens[1..], now);
      }
    }
  }

  lemma {:induction false} KeptOrdered(c: Config, tokens: seq<Token>, now: Time)
    requires NewestFirst(tokens)
    ensures NewestFirst(Kept(c, tokens, now))
  {
    if tokens != [] {
      var rest := Kept(c, tokens[1..], now);
      KeptOrdered(c, tokens[1..], now);
      KeptMembers(c, tokens[1..], now);
      if Keeps(c, tokens[0], now) {
        forall j | 0 <= j < |rest| ensures rest[j].created <= tokens[0].created {
          assert rest[j] in tokens[1..];
        }
        Prepended(tokens[0], rest);
        assert Kept(c, tokens, now) == [tokens[0]] + rest;
      } else {
        assert Kept(c, tokens, now) == rest;
      }
    }
  }

  lemma KeptFacts(c: Config, tokens: seq<Token>, now: Time)
    ensures |Kept(c, tokens, now)| <= |tokens| && Uses(Kept(c, tokens, now)) <= Uses(tokens)
    ensures forall t :: t in Kept(c, tokens, now) <==> t in tokens && Keeps(c, t, now)
    ensures NewestFirst(tokens) ==> NewestFirst(Kept(c, tokens, now))
  {
    KeptCounts(c, tokens, now);
    KeptMembers(c, tokens, now);
    if NewestFirst(tokens) {
      KeptOrdered(c, tokens, now);
    }
  }

  lemma {:induction false} UsesOfUsed(tokens: seq<Token>, i: nat)
    requires i < |tokens|
    ensures Uses(Used(tokens, i)) == Uses(tokens) + 1
  {
    if i == 0 {
      assert Used(tokens, 0)[1..] == tokens[1..];
    } else {
      UsesOfUsed(tokens[1..], i - 1);
      assert Used(tokens, i)[1..] == Used(tokens[1..], i - 1);
    }
  }

  lemma GetKeepsPool(c: Config, s: State, i: nat)
    requires Sane(c) && PoolOk(c, s) && i < |s.tokens|
    ensures PoolOk(c, Step(c, s, Get(i)).value)
  {
    UsesOfUsed(s.tokens, i);
    var s' := Step(c, s, Get(i)).value;
    assert forall j :: 0 <= j < |s'.tokens| ==> s.tokens[j] in s.tokens;
    assert forall j :: 0 <= j < |s'.tokens| ==> s'.tokens[j].created == s.tokens[j].created;
  }

  lemma Prepended(t: Token, tokens: seq<Token>)
    requires NewestFirst(tokens) && forall u :: u in tokens ==> u.created <= t.created
    ensures NewestFirst([t] + tokens) && Uses([t] + tokens) == t.usages + Uses(tokens)
    ensures forall u :: u in [t] + tokens <==> u == t || u in tokens
  {
    assert ([t] + tokens)[1..] == tokens;
  }

  lemma MintKeepsPool(c: Config, s: State, values: map<string, string>)
    requires Sane(c) && PoolOk(c, s) && Step(c, s, Minted(values)).Some?
    ensures PoolOk(c, Step(c, s, Minted(values)).value)
  {
    var t := Token(values, 0, s.clock);
    Prepended(t, s.tokens);
    assert !Expired(c, t, s.lastFilter);
  }

  lemma StepKeepsPool(c: Config, s: State, e: Event, s': State)
    requires Sane(c) && PoolOk(c, s) && Step(c, s, e) == Some(s')
    ensures PoolOk(c, s')
  {
    match e {
      case Get(i) =>
        if s.tokens != [] {
          GetKeepsPool(c, s, i);
        }
      case Filter => KeptFacts(c, s.tokens, s.phase.now);
      case Minted(values) => MintKeepsPool(c, s, values);
      case _ =>
    }
  }

  lemma StepKeepsStretch(c: Config, s: State, e: Event, s': State)
    requires Sane(c) && StretchOk(c, s) && Step(c, s, e) == Some(s')
    ensures StretchOk(c, s')
  {
    if e.Sleep? && s'.fails == s.fails + 1 {
      assert s'.fails * PerCycle(c) == s.fails * PerCycle(c) + PerCycle(c);
    }
  }

  lemma {:induction false} RunKeepsInv(c: Config, s: State, es: seq<Event>)
    requires Sane(c) && Inv(c, s) && Exec(c, s, es).Some?
    ensures Inv(c, Exec(c, s, es).value)
    decreases |es|
  {
    if es != [] {
      var s' := Step(c, s, es[0]).value;
      StepKeepsPool(c, s, es[0], s');
      StepKeepsStretch(c, s, es[0], s');
      RunKeepsInv(c, s', es[1..]);
    }
  }

  // Main result: whatever the interleaving of readers, generators and clock ticks with the loop, the pool
  // stays within its size, newest first; every hit is accounted for by a live or an evicted token.
  lemma PoolIsBoundedAndOrdered(c: Config, boot: Time, es: seq<Event>, s: State)
    requires Sane(c) && Exec(c, Start(c, boot), es) == Some(s)
    ensures |s.tokens| <= c.size && NewestFirst(s.tokens)
    ensures s.hits == Uses(s.tokens) + s.evictedUses
    ensures Trimmed(c, s.tokens) == s.tokens
  {
    RunKeepsInv(c, Start(c, boot), es);
  }

  // Any token a Get can pick was unexpired at the last filter, so its age exceeds the limit by at most the
  // time since; and it has been used at most the limit less one, plus the hits since that filter.
  lemma ServedTokenIsFresh(c: Config, boot: Time, es: seq<Event>, s: State, i: nat)
    requires Sane(c) && Exec(c, Start(c, boot), es) == Some(s) && i < |s.tokens|
    ensures var t := s.tokens[i];
            && !Expired(c, t, s.lastFilter)
            && (t.created != 0 ==> s.clock - t.created <= c.ttl + (s.clock - s.lastFilter))
            && t.usages <= c.useLimit - 1 + s.sinceFilter
  {
    RunKeepsInv(c, Start(c, boot), es);
    assert s.tokens[i] in s.tokens;
  }

  // Over a stretch of failing cycles the generators are called at most once per slot of each cycle, and the
  // stretch has lasted at least the doubling waits.
  lemma FailingStretchIsSlow(c: Config, boot: Time, es: seq<Event>, s: State)
    requires Sane(c) && Exec(c, Start(c, boot), es) == Some(s)
    ensures s.wait == Wait(c, s.fails)
    ensures s.stretchCalls <= (s.fails + 1) * PerCycle(c)
    ensures s.phase.Sleeping? ==> s.stretchCalls <= s.fails * PerCycle(c)
    ensures !s.phase.Sleeping? ==> s.clock - s.stretchStart >= SumWaits(c, s.fails)
  {
    RunKeepsInv(c, Start(c, boot), es);
    assert (s.fails + 1) * PerCycle(c) == s.fails * PerCycle(c) + PerCycle(c);
  }

  // Trimming an overfilled pool keeps exactly its newest tokens.
  lemma ShrinkKeepsNewest(c: Config, tokens: seq<Token>)
    requires Sane(c) && NewestFirst(tokens)
    ensures var kept := Trimmed(c, tokens);
            && |kept| == (if |tokens| < c.size then |tokens| else c.size)
            && multiset(tokens) == multiset(kept) + multiset(tokens[|kept|..])
            && forall k, d :: k in kept && d in tokens[|kept|..] ==> k.created >= d.created
  {
    var kept := Trimmed(c, tokens);
    assert tokens == kept + tokens[|kept|..];
  }

  lemma {:induction false} ExecSnoc(c: Config, s: State, es: seq<Event>, e: Event, t: State)
    requires Sane(c) && Exec(c, s, es) == Some(t)
    ensures Exec(c, s, es + [e]) == Step(c, t, e)
    decreases |es|
  {
    if es == [] {
      assert [e][1..] == [];
    } else {
      ExecSnoc(c, Step(c, s, es[0]).value, es[1..], e, t);
      assert (es + [e])[1..] == es[1..] + [e];
    }
  }

  lemma Extend(c: Config, s0: State, s: State, e: Event) returns (s': State)
    requires Sane(c) && Reaches(c, s0, s) && Step(c, s, e).Some?
    ensures Step(c, s, e) == Some(s') && Reaches(c, s0, s')
  {
    s' := Step(c, s, e).value;
    var es :| Exec(c, s0, es) == Some(s);
    ExecSnoc(c, s0, es, e, s);
  }

  lemma ReachedKeepsInv(c: Config, s0: State, s: State)
    requires Sane(c) && Inv(c, s0) && Reaches(c, s0, s)
    ensures Inv(c, s)
  {
    var es :| Exec(c, s0, es) == Some(s);
    RunKeepsInv(c, s0, es);
  }

  /******* The pool *******/

  // A generator call: its result (None: an error) and the instant at which it finishes.
  datatype Outcome = Outcome(values: Option<map<string, string>>, at: Time)

  predicate Delivers(o: Outcome) {
    o.values.Some? && o.values.value != map[]
  }

  // The tokens of the first n generator calls that deliver, newest first.
  function MintedTokens(gen: nat -> Outcome, n: nat): seq<Token> {
    if n == 0 then []
    else
      (if Delivers(gen(n - 1)) then [Token(gen(n - 1).values.value, 0, gen(n - 1).at)] else [])
      + MintedTokens(gen, n - 1)
  }

  /******* What a cycle does, said of the tokens alone *******/

  // A token lives until its use limit is reached or its lifetime is over; the zero time never expires.
  predicate Lives(c: Config, t: Token, now: Time) {
    t.usages < c.useLimit && (t.created == 0 || now <= t.created + c.ttl)
  }

  // What is left is the living tokens, one by one in their old order.
  predicate Leaves(c: Config, was: seq<Token>, now: Time, left: seq<Token>) {
    if was == [] then left == []
    else if Lives(c, was[0], now) then left != [] && left[0] == was[0] && Leaves(c, was[1..], now, left[1..])
    else Leaves(c, was[1..], now, left)
  }

  lemma {:induction false} KeptLeaves(c: Config, tokens: seq<Token>, now: Time)
    ensures Leaves(c, tokens, now, Kept(c, tokens, now))
  {
    if tokens != [] {
      var rest := Kept(c, tokens[1..], now);
      KeptLeaves(c, tokens[1..], now);
      if Lives(c, tokens[0], now) {
        assert Kept(c, tokens, now) == [tokens[0]] + rest && ([tokens[0]] + rest)[1..] == rest;
      } else {
        assert Kept(c, tokens, now) == rest;
      }
    }
  }

  // Of the tokens there were, exactly the living ones are left.
  lemma {:induction false} LeavesIff(c: Config, was: seq<Token>, now: Time, left: seq<Token>, t: Token)
    requires Leaves(c, was, now, left)
    ensures multiset(left)[t] == if Lives(c, t, now) then multiset(was)[t] else 0
  {
    if was != [] {
      assert was == [was[0]] + was[1..];
      if Lives(c, was[0], now) {
        LeavesIff(c, was[1..], now, left[1..], t);
        assert left == [left[0]] + left[1..];
      } else {
        LeavesIff(c, was[1..], now, left, t);
      }
    }
  }

  // How many generators a cycle calls: as many as tokens are missing, but not more than ten or the thread limit.
  predicate Attempts(c: Config, have: int, attempted: int) {
    if c.size <= have then attempted == 0
    else
      && attempted <= c.size - have && attempted <= 10 && attempted <= c.maxThread
      && (attempted == c.size - have || attempted == 10 || attempted == c.maxThread)
  }

  // The state machine's own step asks for the same number.
  lemma SizeUpAttempts(c: Config, s: State, t: State)
    requires Sane(c) && Step(c, s, SizeUp) == Some(t)
    ensures c.size > |s.tokens| ==>
              t.phase.Minting? && t.phase.pending == t.phase.need && Attempts(c, |s.tokens|, t.phase.need)
    ensures c.size <= |s.tokens| ==> t.phase == Shrinking
    ensures t.tokens == s.tokens
  {
  }

  // After a cycle all of whose generators failed the pool waits twice as long as before, but not beyond five
  // minutes; after any other cycle it waits its normal time.
  lemma SleepWaits(c: Config, s: State, t: State)
    requires Sane(c) && Step(c, s, Sleep) == Some(t)
    ensures s.phase.Ending? && t.phase == Sleeping(s.clock + t.wait) && t.tokens == s.tokens
    ensures s.phase.attempted > 0 && s.phase.succeeded == 0 ==>
              t.wait == if 2 * s.wait > 300_000_000_000 then 300_000_000_000 else 2 * s.wait
    ensures s.phase.attempted == 0 || s.phase.succeeded > 0 ==> t.wait == c.sleep
  {
  }

  predicate Answered(gen: nat -> Outcome, i: nat) {
    match gen(i).values case Some(values) => values != map[] case None => false
  }

  // One fresh token for each of the first n calls that brought something, the last one first.
  predicate Fresh(gen: nat -> Outcome, n: nat, made: seq<Token>) {
    if n == 0 then made == []
    else if Answered(gen, n - 1) then
      && made != [] && made[0] == Token(gen(n - 1).values.value, 0, gen(n - 1).at) && Fresh(gen, n - 1, made[1..])
    else Fresh(gen, n - 1, made)
  }

  lemma {:induction false} MintedFresh(gen: nat -> Outcome, n: nat)
    ensures Fresh(gen, n, MintedTokens(gen, n))
  {
    if n > 0 {
      var before := MintedTokens(gen, n - 1);
      MintedFresh(gen, n - 1);
      if Answered(gen, n - 1) {
        assert MintedTokens(gen, n)[1..] == before;
      } else {
        assert MintedTokens(gen, n) == before;
      }
    }
  }

  lemma {:induction false} FreshCount(gen: nat -> Outcome, n: nat, made: seq<Token>)
    requires Fresh(gen, n, made)
    ensures |made| <= n && (|made| == n <==> forall i: nat :: i < n ==> Answered(gen, i))
  {
    if n > 0 {
      FreshCount(gen, n - 1, if Answered(gen, n - 1) then made[1..] else made);
    }
  }

  // What a whole cycle makes of the tokens.
  ghost predicate Cycle(c: Config, was: seq<Token>, now: Time, gen: nat -> Outcome, attempted: nat, succeeded: nat,
                        tokens: seq<Token>, kept: seq<Token>, made: seq<Token>) {
    && Leaves(c, was, now, kept) && Attempts(c, |kept|, attempted)
    && Fresh(gen, attempted, made) && succeeded == |made|
    && tokens == if |kept| >= c.size >= 0 then kept[..c.size] else made + kept
  }

  class Pool {
    const cfg: Config
    var tokens: seq<Token>

    constructor (c: Config)
      ensures cfg == WithDefaults(c) && Sane(cfg) && tokens == []
      ensures cfg.size == (if c.size < 0 then 0 else c.size)
      ensures cfg.ttl == (if c.ttl <= 0 then 300_000_000_000 else c.ttl)
      ensures cfg.useLimit == (if c.useLimit <= 0 then 5 else c.useLimit)
      ensures cfg.maxThread == (if c.maxThread <= 0 then 5 else c.maxThread)
      ensures cfg.sleep == if c.sleep <= 0 then 5_000_000_000 else c.sleep
    {
      cfg := WithDefaults(c);
      tokens := [];
    }

    // pick is the random choice among the live tokens.
    method Get(pick: nat) returns (values: map<string, string>, ok: bool)
      requires tokens != [] ==> pick < |tokens|
      modifies this
      ensures ok <==> old(tokens) != []
      ensures ok ==> values == old(tokens)[pick].values && tokens == Used(old(tokens), pick)
      ensures ok ==> |tokens| == |old(tokens)|
                     && tokens[pick] == Token(values, old(tokens)[pick].usages + 1, old(tokens)[pick].created)
      ensures ok ==> forall j :: 0 <= j < |tokens| && j != pick ==> tokens[j] == old(tokens)[j]
      ensures !ok ==> values == map[] && tokens == []
    {
      if |tokens| == 0 {
        return map[], false;
      }
      var t := tokens[pick];
      tokens := tokens[pick := t.(usages := t.usages + 1)];
      return t.values, true;
    }

    method Filter(now: Time)
      modifies this
      ensures tokens == Kept(cfg, old(tokens), now)
      ensures Leaves(cfg, old(tokens), now, tokens)
    {
      var kept := [];
      for i := 0 to |tokens|
        invariant tokens == old(tokens)
        invariant Kept(cfg, tokens, now) == kept + Kept(cfg, tokens[i..], now)
      {
        var t := tokens[i];
        var expired := t.created != 0 && now > t.created + cfg.ttl;
        var used := t.usages >= cfg.useLimit;
        if !expired && !used {
          Regroup(kept, [t], Kept(cfg, tokens[i + 1..], now));
          kept := kept + [t];
        }
        assert tokens[i..][1..] == tokens[i + 1..];
      }
      tokens := kept;
      KeptLeaves(cfg, old(tokens), now);
    }

    method Add(values: map<string, string>, now: Time)
      modifies this
      ensures tokens == [Token(values, 0, now)] + old(tokens)
    {
      tokens := [Token(values, 0, now)] + tokens;
    }

    method Shrink()
      requires Sane(cfg)
      modifies this
      ensures tokens == Trimmed(cfg, old(tokens))
    {
      if |tokens| > cfg.size {
        tokens := tokens[..cfg.size];
      }
    }

    // The generators of a cycle, in the order they deliver.
    method Mint(need: nat, gen: nat -> Outcome) returns (succeeded: nat)
      modifies this
      ensures tokens == MintedTokens(gen, need) + old(tokens)
      ensures succeeded == |MintedTokens(gen, need)|
      ensures Fresh(gen, need, tokens[..succeeded])
    {
      succeeded := 0;
      for i := 0 to need
        invariant tokens == MintedTokens(gen, i) + old(tokens)
        invariant succeeded == |MintedTokens(gen, i)|
      {
        var o := gen(i);
        if o.values.Some? && o.values.value != map[] {
          Add(o.values.value, o.at);
          succeeded := succeeded + 1;
        }
      }
      MintedFresh(gen, need);
      assert tokens[..succeeded] == MintedTokens(gen, need);
    }

    // One cycle with no reader in between: filter, size up, then mint or shrink.
    method RefillOnce(now: Time, gen: nat -> Outcome) returns (attempted: nat, succeeded: nat)
      requires Sane(cfg)
      modifies this
      ensures var kept := Kept(cfg, old(tokens), now);
              && attempted == (if Need(cfg, |kept|) <= 0 then 0 else Need(cfg, |kept|))
              && succeeded == |MintedTokens(gen, attempted)|
              && tokens == if attempted == 0 then Trimmed(cfg, kept) else MintedTokens(gen, attempted) + kept
      ensures exists kept, made ::
                && Cycle(cfg, old(tokens), now, gen, attempted, succeeded, tokens, kept, made)
                && ((forall i: nat :: Answered(gen, i)) && |kept| <= cfg.size ==>
                      |tokens| == var room := |kept| + if cfg.maxThread < 10 then cfg.maxThread else 10;
                                  if room < cfg.size then room else cfg.size)
    {
      Filter(now);
      ghost var kept := tokens;
      var need := cfg.size - |tokens|;
      if need <= 0 {
        Shrink();
        assert Cycle(cfg, old(tokens), now, gen, 0, 0, tokens, kept, []);
        return 0, 0;
      }
      if need > CYCLE_CAP {
        need := CYCLE_CAP;
      }
      if need > cfg.maxThread {
        need := cfg.maxThread;
      }
      attempted := need;
      succeeded := Mint(need, gen);
      MintedFresh(gen, need);
      FreshCount(gen, need, MintedTokens(gen, need));
      assert Cycle(cfg, old(tokens), now, gen, attempted, succeeded, tokens, kept, MintedTokens(gen, need));
    }
  }

  // The generators of a cycle report back one by one.
  lemma {:induction false} MintingIsRun(c: Config, s0: State, s: State, gen: nat -> Outcome, n: nat, i: nat,
                                        kept: seq<Token>) returns (t: State)
    requires Sane(c) && Reaches(c, s0, s) && i <= n
    requires s.phase == Minting(n, n - i, |MintedTokens(gen, i)|) && s.clock <= gen(i).at
    requires s.tokens == MintedTokens(gen, i) + kept
    requires forall j: nat, k: nat :: j <= k ==> gen(j).at <= gen(k).at
    ensures Reaches(c, s0, t) && t.phase == Minting(n, 0, |MintedTokens(gen, n)|)
    ensures t.tokens == MintedTokens(gen, n) + kept
    decreases n - i
  {
    t := s;
    if i < n {
      var o := gen(i);
      t := Extend(c, s0, s, Tick(o.at));
      t := Extend(c, s0, t, if Delivers(o) then Minted(o.values.value) else MintFailed);
      assert t.tokens == MintedTokens(gen, i + 1) + kept;
      t := MintingIsRun(c, s0, t, gen, n, i + 1, kept);
    }
  }

  lemma FilteringIsRun(c: Config, s: State) returns (t: State)
    requires Sane(c) && s.phase.Sleeping? && s.phase.wakeAt <= s.clock
    ensures Reaches(c, s, t)
    ensures t.phase == Filtered && t.tokens == Kept(c, s.tokens, s.clock) && t.clock == s.clock
  {
    assert Exec(c, s, []) == Some(s);
    t := Extend(c, s, s, ReadClock);
    t := Extend(c, s, t, Filter);
  }

  // What RefillOnce computes is one run of the protocol, so what holds of every run holds of its result.
  lemma RefillIsRun(c: Config, s: State, gen: nat -> Outcome, kept: seq<Token>, n: nat) returns (t: State)
    requires Sane(c) && s.phase.Sleeping? && s.phase.wakeAt <= s.clock <= gen(0).at
    requires forall j: nat, k: nat :: j <= k ==> gen(j).at <= gen(k).at
    requires kept == Kept(c, s.tokens, s.clock)
    requires n == if Need(c, |kept|) <= 0 then 0 else Need(c, |kept|)
    ensures Reaches(c, s, t) && t.phase == Ending(n, |MintedTokens(gen, n)|)
    ensures t.tokens == if n == 0 then Trimmed(c, kept) else MintedTokens(gen, n) + kept
    ensures Inv(c, s) ==> PoolOk(c, t)
  {
    t := FilteringIsRun(c, s);
    t := Extend(c, s, t, SizeUp);
    if n == 0 {
      t := Extend(c, s, t, Shrink);
    } else {
      t := MintingIsRun(c, s, t, gen, n, 0, kept);
      t := Extend(c, s, t, Collect);
    }
    if Inv(c, s) {
      ReachedKeepsInv(c, s, t);
    }
  }

  /******* The manager *******/

  datatype Site = Site(website: string, kind: string)

  // Owns the pools and spawns their loops; loops lists the sites whose loop was started, in order.
  class Manager {
    var pools: map<Site, Config>
    var started: bool
    var loops: seq<Site>

    ghost predicate Valid()
      reads this
    {
      && (forall i, j :: 0 <= i < j < |loops| ==> loops[i] != loops[j])
      && (forall k :: k in loops ==> k in pools)
      && (!started ==> loops == [])
    }

    constructor ()
      ensures Valid() && pools == map[] && !started
    {
      pools, started, loops := map[], false, [];
    }

    method Register(site: Site, c: Config)
      requires Valid()
      modifies this`pools
      ensures Valid()
      ensures pools == if site in old(pools) then old(pools) else old(pools)[site := WithDefaults(c)]
    {
      if site in pools {
        return;
      }
      pools := pools[site := WithDefaults(c)];
    }

    // The first call with pools registered starts one loop for each of them; any other call does nothing.
    method Start()
      requires Valid()
      modifies this`started, this`loops
      ensures Valid()
      ensures old(started) || pools == map[] ==> started == old(started) && loops == old(loops)
      ensures !old(started) && pools != map[] ==> started && forall k :: k in pools <==> k in loops
    {
      if started || |pools| == 0 {
        return;
      }
      started := true;
      var rest := pools.Keys;
      while rest != {}
        invariant rest <= pools.Keys && started
        invariant forall k :: k in loops <==> k in pools && k !in rest
        invariant forall i, j :: 0 <= i < j < |loops| ==> loops[i] != loops[j]
      {
        var k :| k in rest;
        loops := loops + [k];
        rest := rest - {k};
      }
    }
  }
}
