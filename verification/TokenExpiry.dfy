/** Get checks neither age nor uses; only the filter does. Here is exactly when an expired token can be served, and
    how long after the last filter. */
module TokenExpiry {
  import opened Base
  import opened TokenPool

  // Token i of the pool could be handed out now although it has expired.
  predicate ServesExpired(c: Config, s: State, i: int) {
    0 <= i < |s.tokens| && Expired(c, s.tokens[i], s.clock)
  }

  const VALUES := map["csrf" := "x"]

  // The first cycle of a pool with room, up to its first token.
  lemma FirstToken(c: Config, boot: Time) returns (s: State)
    requires Sane(c) && c.size > 0
    ensures Reaches(c, Start(c, boot), s)
    ensures s.tokens == [Token(VALUES, 0, boot)] && s.clock == boot == s.lastFilter
    ensures s.phase.Minting? && s.phase.succeeded == 1
  {
    var s0 := Start(c, boot);
    assert Exec(c, s0, []) == Some(s0);
    s := Extend(c, s0, s0, ReadClock);
    s := Extend(c, s0, s, Filter);
    s := Extend(c, s0, s, SizeUp);
    assert "csrf" in VALUES;
    s := Extend(c, s0, s, Minted(VALUES));
  }

  // The other generators of the cycle fail.
  lemma {:induction false} RestFail(c: Config, s0: State, s: State) returns (t: State)
    requires Sane(c) && Reaches(c, s0, s) && s.phase.Minting?
    ensures Reaches(c, s0, t) && t == s.(phase := Minting(s.phase.need, 0, s.phase.succeeded))
    decreases s.phase.pending
  {
    t := s;
    if s.phase.pending > 0 {
      t := Extend(c, s0, s, MintFailed);
      t := RestFail(c, s0, t);
    }
  }

  // Where the pool sleeps no longer than a token lives, a token can pass a filter at the last instant of its life.
  lemma FilteredAtTheEdge(c: Config, boot: Time) returns (s: State)
    requires Sane(c) && c.size > 0 && boot > 0 && c.sleep <= c.ttl
    ensures Reaches(c, Start(c, boot), s)
    ensures s.tokens == [Token(VALUES, 0, boot)] && s.clock == boot + c.ttl == s.lastFilter
  {
    var s0 := Start(c, boot);
    s := FirstToken(c, boot);
    s := RestFail(c, s0, s);
    s := Extend(c, s0, s, Collect);
    s := Extend(c, s0, s, Sleep);
    s := Extend(c, s0, s, Tick(boot + c.ttl));
    s := Extend(c, s0, s, ReadClock);
    var t := Token(VALUES, 0, boot);
    assert Keeps(c, t, boot + c.ttl);
    assert Kept(c, [t], boot + c.ttl) == [t] + Kept(c, [t][1..], boot + c.ttl) == [t];
    s := Extend(c, s0, s, Filter);
  }

  // What holds where the pool sleeps longer than a token lives: no token outlives the filter after its own cycle.
  ghost predicate NoneSurvives(c: Config, s: State) {
    && (forall t :: t in s.tokens ==> 0 < t.created <= s.clock)
    && match s.phase
       case Sleeping(wakeAt) => forall t :: t in s.tokens ==> s.lastFilter <= t.created && t.created + c.ttl < wakeAt
       case Timed(now) => forall t :: t in s.tokens ==> s.lastFilter <= t.created && t.created + c.ttl < now
       case Filtered => s.tokens == []
       case Shrinking => s.tokens == []
       case Minting(_, _, succeeded) =>
         (succeeded == 0 ==> s.tokens == []) && forall t :: t in s.tokens ==> s.lastFilter <= t.created
       case Ending(_, succeeded) =>
         (succeeded == 0 ==> s.tokens == []) && forall t :: t in s.tokens ==> s.lastFilter <= t.created
  }

  lemma {:induction false} AllExpired(c: Config, tokens: seq<Token>, now: Time)
    requires forall t :: t in tokens ==> Expired(c, t, now)
    ensures Kept(c, tokens, now) == []
  {
    if tokens != [] {
      assert tokens[0] in tokens && forall t :: t in tokens[1..] ==> t in tokens;
      AllExpired(c, tokens[1..], now);
    }
  }

  lemma StepNoneSurvives(c: Config, s: State, e: Event, s': State)
    requires Sane(c) && c.sleep > c.ttl && s.clock > 0 && s.lastFilter <= s.clock
    requires s.phase.Timed? ==> s.phase.now <= s.clock
    requires NoneSurvives(c, s) && Step(c, s, e) == Some(s')
    ensures NoneSurvives(c, s') && s'.clock > 0
  {
    match e {
      case Filter =>
        AllExpired(c, s.tokens, s.phase.now);
      case Get(i) =>
        if s.tokens != [] {
          forall t | t in s'.tokens ensures exists u :: u in s.tokens && u.created == t.created {
            var j :| 0 <= j < |s'.tokens| && s'.tokens[j] == t;
            assert s.tokens[j] in s.tokens && s.tokens[j].created == t.created;
          }
        }
      case _ =>
    }
  }

  lemma {:induction false} RunNoneSurvives(c: Config, s: State, es: seq<Event>)
    requires Sane(c) && c.sleep > c.ttl && s.clock > 0 && Inv(c, s)
    requires NoneSurvives(c, s) && Exec(c, s, es).Some?
    ensures NoneSurvives(c, Exec(c, s, es).value)
    decreases |es|
  {
    if es != [] {
      var s' := Step(c, s, es[0]).value;
      RunKeepsInv(c, s, [es[0]]);
      assert Exec(c, s, [es[0]]) == Some(s') by { assert [es[0]][1..] == []; }
      StepNoneSurvives(c, s, es[0], s');
      RunNoneSurvives(c, s', es[1..]);
    }
  }

  ghost predicate CanServeExpired(c: Config, boot: Time)
    requires Sane(c)
  {
    exists s, i :: Reaches(c, Start(c, boot), s) && ServesExpired(c, s, i)
  }

  ghost predicate CanServeExpiredAt(c: Config, boot: Time, d: nat)
    requires Sane(c)
  {
    exists s, i :: Reaches(c, Start(c, boot), s) && ServesExpired(c, s, i) && s.clock - s.lastFilter == d
  }

  // An expired token can be served exactly when the pool has room for one.
  lemma CanServeExpiredIff(c: Config, boot: Time)
    requires Sane(c) && boot > 0
    ensures CanServeExpired(c, boot) <==> c.size > 0
  {
    if s, i :| Reaches(c, Start(c, boot), s) && ServesExpired(c, s, i) {
      var es :| Exec(c, Start(c, boot), es) == Some(s);
      PoolIsBoundedAndOrdered(c, boot, es, s);
    } else if c.size > 0 {
      var s := FirstToken(c, boot);
      s := Extend(c, Start(c, boot), s, Tick(boot + c.ttl + 1));
      assert ServesExpired(c, s, 0);
    }
  }

  // Main result: how long after the last filter it can be served. At any positive distance where the pool sleeps no
  // longer than a token lives, so the bound on a served token's age is the best there is; otherwise only beyond
  // a token's life.
  lemma ExpiredAtDistanceIff(c: Config, boot: Time, d: nat)
    requires Sane(c) && boot > 0
    ensures CanServeExpiredAt(c, boot, d) <==> c.size > 0 && if c.sleep <= c.ttl then d > 0 else d > c.ttl
  {
    if c.size > 0 && if c.sleep <= c.ttl then d > 0 else d > c.ttl {
      var s;
      if c.sleep <= c.ttl {
        s := FilteredAtTheEdge(c, boot);
      } else {
        s := FirstToken(c, boot);
      }
      s := Extend(c, Start(c, boot), s, Tick(s.clock + d));
      assert ServesExpired(c, s, 0) && s.clock - s.lastFilter == d;
    }
    if s, i :| Reaches(c, Start(c, boot), s) && ServesExpired(c, s, i) && s.clock - s.lastFilter == d {
      var es :| Exec(c, Start(c, boot), es) == Some(s);
      PoolIsBoundedAndOrdered(c, boot, es, s);
      ServedTokenIsFresh(c, boot, es, s, i);
      if c.sleep > c.ttl {
        assert Inv(c, Start(c, boot));
        RunNoneSurvives(c, Start(c, boot), es);
        assert s.tokens[i] in s.tokens;
      }
    }
  }
}
