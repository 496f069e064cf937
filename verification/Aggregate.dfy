/** Collapsing the profiles that came back from the sources, in whatever order, into one verdict and one
    list of verified names. */
module Aggregate {
  import opened Base
  import opened ProbePlan

  const UNKNOWN := "UNKNOWN"

  datatype Profile = Profile(source: string, suffix: string, appName: string, userExist: Answer,
                             name: string, vpa: string, err: bool)

  datatype Verdict = Verdict(userExist: Answer, name: string, source: string, suffix: string,
                             appName: string, err: bool)

  const FAILED := Verdict(Unknown, "", "", "", "", true)
  const ABSENT := Verdict(No, "", "", "", "", false)

  predicate IsTrue(p: Profile) { !p.err && p.userExist == Yes }
  predicate IsFalse(p: Profile) { !p.err && p.userExist == No }
  predicate IsError(p: Profile) { p.err || p.userExist == Unknown }

  function Shown(p: Profile): Verdict {
    Verdict(p.userExist, p.name, p.source, p.suffix, p.appName, false)
  }

  /******* The verdict *******/

  function TrueOnes(ps: seq<Profile>): seq<Profile> {
    if ps == [] then [] else (if IsTrue(ps[0]) then [ps[0]] else []) + TrueOnes(ps[1..])
  }

  // The suffixes of the named true profiles, or of all true ones when none is named.
  function Candidates(ps: seq<Profile>): set<string> {
    var named := set p | p in ps && IsTrue(p) && p.name != "" :: p.suffix;
    if exists p :: p in ps && IsTrue(p) && p.name != "" then named
    else set p | p in ps && IsTrue(p) :: p.suffix
  }

  function Configured(list: seq<Suffix>, names: set<string>): seq<Suffix> {
    if list == [] then []
    else (if list[0].name in names then [list[0]] else []) + Configured(list[1..], names)
  }

  function MaxPriority(list: seq<Suffix>): int
    requires list != []
  {
    if |list| == 1 || list[0].priority >= MaxPriority(list[1..]) then list[0].priority else MaxPriority(list[1..])
  }

  // The name of the first entry with the highest priority.
  function TopName(list: seq<Suffix>): string
    requires list != []
  {
    if |list| == 1 || list[0].priority >= MaxPriority(list[1..]) then list[0].name else TopName(list[1..])
  }

  function FirstWith(ps: seq<Profile>, suffix: string): Option<Profile> {
    if ps == [] then None
    else if IsTrue(ps[0]) && ps[0].suffix == suffix then Some(ps[0])
    else FirstWith(ps[1..], suffix)
  }

  // Where no candidate is configured, the first candidate the map iteration yields wins.
  function WinningSuffix(ps: seq<Profile>, list: seq<Suffix>, order: seq<string>): string
    requires order != []
  {
    var configured := Configured(list, Candidates(ps));
    if configured != [] then TopName(configured) else order[0]
  }

  predicate Distinct(xs: seq<string>) {
    forall i, j :: 0 <= i < j < |xs| ==> xs[i] != xs[j]
  }

  ghost predicate Enumerates(order: seq<string>, names: set<string>) {
    Distinct(order) && forall s :: s in order <==> s in names
  }

  // The verdict for one iteration order of the candidate suffixes.
  function Agg(ps: seq<Profile>, list: seq<Suffix>, order: seq<string>): Verdict {
    if TrueOnes(ps) != [] && order != [] then
      match FirstWith(ps, WinningSuffix(ps, list, order))
      case Some(p) => Shown(p)
      case None => FAILED
    else if exists p :: p in ps && IsError(p) then FAILED
    else if exists p :: p in ps && IsFalse(p) then ABSENT
    else FAILED
  }

  lemma {:induction false} TrueOnesMembers(ps: seq<Profile>)
    ensures forall p :: p in TrueOnes(ps) <==> p in ps && IsTrue(p)
  {
    if ps != [] {
      TrueOnesMembers(ps[1..]);
      assert ps == [ps[0]] + ps[1..];
    }
  }

  lemma {:induction false} ConfiguredMembers(list: seq<Suffix>, names: set<string>)
    ensures forall e :: e in Configured(list, names) <==> e in list && e.name in names
  {
    if list != [] {
      ConfiguredMembers(list[1..], names);
      assert list == [list[0]] + list[1..];
    }
  }

  lemma {:induction false} TopIsMax(list: seq<Suffix>)
    requires list != []
    ensures forall e :: e in list ==> e.priority <= MaxPriority(list)
    ensures exists e :: e in list && e.priority == MaxPriority(list) && e.name == TopName(list)
  {
    assert list[0] in list;
    if |list| > 1 {
      TopIsMax(list[1..]);
      assert list == [list[0]] + list[1..];
      var e :| e in list[1..] && e.priority == MaxPriority(list[1..]) && e.name == TopName(list[1..]);
      assert e in list;
    }
  }

  lemma {:induction false} FirstWithFacts(ps: seq<Profile>, suffix: string)
    ensures match FirstWith(ps, suffix)
            case Some(p) => p in ps && IsTrue(p) && p.suffix == suffix
            case None => forall p :: p in ps && IsTrue(p) ==> p.suffix != suffix
  {
    if ps != [] {
      FirstWithFacts(ps[1..], suffix);
      assert ps == [ps[0]] + ps[1..];
    }
  }

  lemma WinnerIsCandidate(ps: seq<Profile>, list: seq<Suffix>, order: seq<string>)
    requires Enumerates(order, Candidates(ps)) && order != []
    ensures WinningSuffix(ps, list, order) in Candidates(ps)
    ensures FirstWith(ps, WinningSuffix(ps, list, order)).Some?
  {
    var c := Configured(list, Candidates(ps));
    ConfiguredMembers(list, Candidates(ps));
    if c != [] {
      TopIsMax(c);
    } else {
      assert order[0] in order;
    }
    FirstWithFacts(ps, WinningSuffix(ps, list, order));
  }

  lemma OrderNonEmptyIff(ps: seq<Profile>, order: seq<string>)
    requires Enumerates(order, Candidates(ps))
    ensures order != [] <==> TrueOnes(ps) != []
  {
    TrueOnesMembers(ps);
    if TrueOnes(ps) != [] {
      var p := TrueOnes(ps)[0];
      assert p in ps && IsTrue(p);
      assert Candidates(ps) != {} by {
        if q :| q in ps && IsTrue(q) && q.name != "" {
          assert q.suffix in Candidates(ps);
        } else {
          assert p.suffix in Candidates(ps);
        }
      }
      var s :| s in Candidates(ps);
      assert s in order;
    }
    if order != [] {
      assert order[0] in order;
      var p :| p in ps && IsTrue(p);
      assert p in TrueOnes(ps);
    }
  }

  // What the verdict says about existence, for any profiles and any iteration order: one true profile is
  // enough, otherwise one error spoils it, otherwise one false profile decides.
  lemma VerdictKind(ps: seq<Profile>, list: seq<Suffix>, order: seq<string>)
    requires Enumerates(order, Candidates(ps))
    ensures var v := Agg(ps, list, order);
            && ((exists p :: p in ps && IsTrue(p)) <==> v.userExist == Yes)
            && ((forall p :: p in ps ==> IsFalse(p)) && ps != [] <==> v.userExist == No)
            && (v.err <==> v.userExist == Unknown)
  {
    OrderNonEmptyIff(ps, order);
    TrueOnesMembers(ps);
    if TrueOnes(ps) != [] {
      assert TrueOnes(ps)[0] in ps && IsTrue(TrueOnes(ps)[0]);
      WinnerIsCandidate(ps, list, order);
      FirstWithFacts(ps, WinningSuffix(ps, list, order));
    } else {
      assert forall p :: p in ps ==> !IsTrue(p) by {
        forall p | p in ps ensures !IsTrue(p) { assert p !in TrueOnes(ps); }
      }
      assert forall p :: p in ps ==> (IsError(p) <==> !IsFalse(p));
      assert ps != [] ==> ps[0] in ps && (IsFalse(ps[0]) || IsError(ps[0]));
    }
  }

  // When some candidate is configured, the winning suffix has the highest configured priority among the
  // candidates, and some named true profile carries it whenever any true profile is named.
  lemma WinnerIsTop(ps: seq<Profile>, list: seq<Suffix>, order: seq<string>)
    requires Enumerates(order, Candidates(ps)) && Configured(list, Candidates(ps)) != []
    ensures var v := Agg(ps, list, order);
            && (exists e :: e in list && e.name == v.suffix &&
                  forall f :: f in list && f.name in Candidates(ps) ==> f.priority <= e.priority)
            && ((exists p :: p in ps && IsTrue(p) && p.name != "") ==>
                exists p :: p in ps && IsTrue(p) && p.name != "" && p.suffix == v.suffix)
  {
    var c := Configured(list, Candidates(ps));
    ConfiguredMembers(list, Candidates(ps));
    TopIsMax(c);
    assert c[0] in c;
    OrderNonEmptyIff(ps, order);
    assert c[0].name in order;
    WinnerIsCandidate(ps, list, order);
    FirstWithFacts(ps, WinningSuffix(ps, list, order));
  }

  lemma CandidatesPermuted(xs: seq<Profile>, ys: seq<Profile>)
    requires multiset(xs) == multiset(ys)
    ensures Candidates(xs) == Candidates(ys)
  {
    SameMembers(xs, ys);
    assert (exists p :: p in xs && IsTrue(p) && p.name != "") <==> (exists p :: p in ys && IsTrue(p) && p.name != "");
  }

  // Main result: the order in which profiles arrive, and the map iteration order, change neither the
  // existence verdict nor, when some candidate is configured, the winning suffix.
  lemma ArrivalOrderIrrelevant(xs: seq<Profile>, ys: seq<Profile>, list: seq<Suffix>, o1: seq<string>, o2: seq<string>)
    requires multiset(xs) == multiset(ys)
    requires Enumerates(o1, Candidates(xs)) && Enumerates(o2, Candidates(ys))
    ensures var v, w := Agg(xs, list, o1), Agg(ys, list, o2);
            && v.userExist == w.userExist && v.err == w.err
            && (Configured(list, Candidates(xs)) != [] ==> v.suffix == w.suffix)
  {
    SameMembers(xs, ys);
    CandidatesPermuted(xs, ys);
    VerdictKind(xs, list, o1);
    VerdictKind(ys, list, o2);
    assert xs == [] <==> ys == [] by { assert |multiset(xs)| == |multiset(ys)|; }
    if Configured(list, Candidates(xs)) != [] {
      var c := Configured(list, Candidates(xs));
      ConfiguredMembers(list, Candidates(xs));
      assert c[0] in c && c[0].name in o1 && c[0].name in o2;
      OrderNonEmptyIff(xs, o1);
      OrderNonEmptyIff(ys, o2);
      WinnerIsCandidate(xs, list, o1);
      WinnerIsCandidate(ys, list, o2);
      FirstWithFacts(xs, WinningSuffix(xs, list, o1));
      FirstWithFacts(ys, WinningSuffix(ys, list, o2));
    }
  }

  // Every order in which the candidate map may be walked starts with a candidate, and any candidate may be first.
  lemma {:induction false} WalkFrom(names: set<string>) returns (order: seq<string>)
    ensures Enumerates(order, names)
  {
    order := [];
    if names != {} {
      var s :| s in names;
      var rest := WalkFrom(names - {s});
      order := [s] + rest;
    }
  }

  lemma WalkStartingAt(names: set<string>, s: string) returns (order: seq<string>)
    requires s in names
    ensures Enumerates(order, names) && order != [] && order[0] == s
  {
    var rest := WalkFrom(names - {s});
    order := [s] + rest;
  }

  // The winning suffix does not depend on how the candidate map is walked.
  ghost predicate SuffixSettled(ps: seq<Profile>, list: seq<Suffix>) {
    forall o1, o2 :: Enumerates(o1, Candidates(ps)) && Enumerates(o2, Candidates(ps)) ==>
      Agg(ps, list, o1).suffix == Agg(ps, list, o2).suffix
  }

  predicate OneCandidateOrConfigured(ps: seq<Profile>, list: seq<Suffix>) {
    Configured(list, Candidates(ps)) != [] ||
    forall s, t :: s in Candidates(ps) && t in Candidates(ps) ==> s == t
  }

  // It is settled exactly when some candidate is configured or there is at most one.
  lemma SuffixSettledIff(ps: seq<Profile>, list: seq<Suffix>)
    ensures SuffixSettled(ps, list) <==>
            OneCandidateOrConfigured(ps, list)
  {
    if s, t :| Configured(list, Candidates(ps)) == [] && s in Candidates(ps) && t in Candidates(ps) && s != t {
      var o1 := WalkStartingAt(Candidates(ps), s);
      var o2 := WalkStartingAt(Candidates(ps), t);
      VerdictShown(ps, list, o1);
      VerdictShown(ps, list, o2);
    } else {
      forall o1, o2 | Enumerates(o1, Candidates(ps)) && Enumerates(o2, Candidates(ps))
        ensures Agg(ps, list, o1).suffix == Agg(ps, list, o2).suffix
      {
        OneSuffix(ps, list, o1, o2);
      }
    }
  }

  lemma OneSuffix(ps: seq<Profile>, list: seq<Suffix>, o1: seq<string>, o2: seq<string>)
    requires Enumerates(o1, Candidates(ps)) && Enumerates(o2, Candidates(ps))
    requires OneCandidateOrConfigured(ps, list)
    ensures o1 == [] <==> o2 == []
    ensures o1 != [] ==> WinningSuffix(ps, list, o1) == WinningSuffix(ps, list, o2)
    ensures Agg(ps, list, o1) == Agg(ps, list, o2)
  {
    if o1 != [] { assert o1[0] in o1 && o1[0] in Candidates(ps) && o1[0] in o2; }
    if o2 != [] { assert o2[0] in o2 && o2[0] in Candidates(ps) && o2[0] in o1; }
  }

  // The true profiles with a suffix all show the same.
  ghost predicate Agree(ps: seq<Profile>, suffix: string) {
    forall p, q :: p in ps && q in ps && IsTrue(p) && IsTrue(q) && p.suffix == suffix && q.suffix == suffix ==>
      Shown(p) == Shown(q)
  }

  // The whole verdict, name, source and app included, is the same for every arrival order and every walk.
  ghost predicate VerdictSettled(ps: seq<Profile>, list: seq<Suffix>) {
    forall ys, o1, o2 ::
      multiset(ys) == multiset(ps) && Enumerates(o1, Candidates(ps)) && Enumerates(o2, Candidates(ps)) ==>
      Agg(ys, list, o1) == Agg(ps, list, o2)
  }

  // The winner is known beforehand, and the true profiles that carry its suffix agree.
  ghost predicate OneAnswer(ps: seq<Profile>, list: seq<Suffix>) {
    var c := Configured(list, Candidates(ps));
    if c != [] then Agree(ps, TopName(c))
    else forall s, t :: s in Candidates(ps) && t in Candidates(ps) ==> s == t && Agree(ps, s)
  }

  // Main result: the whole verdict is settled exactly when the suffix is and the true profiles that carry it show
  // the same thing. A nameless one arriving first hides a name.
  lemma WholeVerdictIff(ps: seq<Profile>, list: seq<Suffix>)
    ensures VerdictSettled(ps, list) <==> OneAnswer(ps, list)
  {
    if VerdictSettled(ps, list) {
      SettledHasOneAnswer(ps, list);
    }
    if OneAnswer(ps, list) {
      OneAnswerSettles(ps, list);
    }
  }

  lemma SettledHasOneAnswer(ps: seq<Profile>, list: seq<Suffix>)
    requires VerdictSettled(ps, list)
    ensures OneAnswer(ps, list)
  {
    SettledSuffix(ps, list);
    if Configured(list, Candidates(ps)) != [] {
      TopIsCandidate(ps, list);
      SettledAgree(ps, list, TopName(Configured(list, Candidates(ps))));
    } else {
      forall s | s in Candidates(ps) ensures Agree(ps, s) { SettledAgree(ps, list, s); }
    }
  }

  lemma OneAnswerSettles(ps: seq<Profile>, list: seq<Suffix>)
    requires OneAnswer(ps, list)
    ensures VerdictSettled(ps, list)
  {
    forall ys, o1, o2 | multiset(ys) == multiset(ps) && Enumerates(o1, Candidates(ps)) && Enumerates(o2, Candidates(ps))
      ensures Agg(ys, list, o1) == Agg(ps, list, o2)
    {
      OneSuffix(ps, list, o1, o2);
      if o1 != [] { OneAnswerAgrees(ps, list, o1); }
      AgreedVerdict(ps, ys, list, o1);
    }
  }

  lemma OneAnswerAgrees(ps: seq<Profile>, list: seq<Suffix>, order: seq<string>)
    requires OneAnswer(ps, list) && Enumerates(order, Candidates(ps)) && order != []
    ensures Agree(ps, WinningSuffix(ps, list, order))
  {
    assert order[0] in order && order[0] in Candidates(ps);
  }

  lemma TopIsCandidate(ps: seq<Profile>, list: seq<Suffix>)
    requires Configured(list, Candidates(ps)) != []
    ensures TopName(Configured(list, Candidates(ps))) in Candidates(ps)
  {
    ConfiguredMembers(list, Candidates(ps));
    TopIsMax(Configured(list, Candidates(ps)));
  }

  lemma SettledSuffix(ps: seq<Profile>, list: seq<Suffix>)
    requires VerdictSettled(ps, list)
    ensures OneCandidateOrConfigured(ps, list)
  {
    assert SuffixSettled(ps, list) by {
      forall o1, o2 | Enumerates(o1, Candidates(ps)) && Enumerates(o2, Candidates(ps))
        ensures Agg(ps, list, o1).suffix == Agg(ps, list, o2).suffix
      {
        assert Agg(ps, list, o1) == Agg(ps, list, o2);
      }
    }
    SuffixSettledIff(ps, list);
  }

  lemma SettledAgree(ps: seq<Profile>, list: seq<Suffix>, s: string)
    requires VerdictSettled(ps, list) && s in Candidates(ps)
    requires var c := Configured(list, Candidates(ps)); if c != [] then s == TopName(c) else true
    ensures Agree(ps, s)
  {
    var order := WalkStartingAt(Candidates(ps), s);
    assert WinningSuffix(ps, list, order) == s;
    forall p | p in ps && IsTrue(p) && p.suffix == s ensures Shown(p) == Agg(ps, list, order) {
      var ys := Fronted(ps, p);
      CandidatesPermuted(ps, ys);
      VerdictShown(ys, list, order);
      assert FirstWith(ys, s) == Some(p);
    }
  }

  lemma AgreedVerdict(ps: seq<Profile>, ys: seq<Profile>, list: seq<Suffix>, order: seq<string>)
    requires multiset(ys) == multiset(ps) && Enumerates(order, Candidates(ps))
    requires order != [] ==> Agree(ps, WinningSuffix(ps, list, order))
    ensures Agg(ys, list, order) == Agg(ps, list, order)
  {
    SameMembers(ps, ys);
    CandidatesPermuted(ps, ys);
    OrderNonEmptyIff(ps, order);
    OrderNonEmptyIff(ys, order);
    if order != [] {
      VerdictShown(ps, list, order);
      VerdictShown(ys, list, order);
    } else {
      assert (exists p :: p in ps && IsError(p)) <==> (exists p :: p in ys && IsError(p));
      assert (exists p :: p in ps && IsFalse(p)) <==> (exists p :: p in ys && IsFalse(p));
    }
  }

  lemma VerdictShown(ps: seq<Profile>, list: seq<Suffix>, order: seq<string>)
    requires Enumerates(order, Candidates(ps)) && order != []
    ensures var v := Agg(ps, list, order);
            && v.suffix == WinningSuffix(ps, list, order)
            && (exists p :: p in ps && IsTrue(p) && p.suffix == v.suffix && v == Shown(p))
            && FirstWith(ps, v.suffix).Some? && v == Shown(FirstWith(ps, v.suffix).value)
  {
    OrderNonEmptyIff(ps, order);
    WinnerIsCandidate(ps, list, order);
    FirstWithFacts(ps, WinningSuffix(ps, list, order));
  }

  lemma Fronted(xs: seq<Profile>, p: Profile) returns (ys: seq<Profile>)
    requires p in xs
    ensures multiset(ys) == multiset(xs) && ys != [] && ys[0] == p
  {
    var i :| 0 <= i < |xs| && xs[i] == p;
    ys := [p] + (xs[..i] + xs[i + 1..]);
    assert xs == xs[..i] + [p] + xs[i + 1..];
  }

  // The profiles in three lists, in arrival order.
  method Partition(ps: seq<Profile>) returns (trues: seq<Profile>, falses: seq<Profile>, errors: seq<Profile>)
    ensures trues == TrueOnes(ps)
    ensures falses != [] <==> exists p :: p in ps && IsFalse(p)
    ensures errors != [] <==> exists p :: p in ps && IsError(p)
  {
    trues, falses, errors := [], [], [];
    for i := 0 to |ps|
      invariant TrueOnes(ps) == trues + TrueOnes(ps[i..])
      invariant falses != [] <==> exists j :: 0 <= j < i && IsFalse(ps[j])
      invariant errors != [] <==> exists j :: 0 <= j < i && IsError(ps[j])
    {
      assert ps[i..][1..] == ps[i + 1..];
      var p := ps[i];
      if p.err || p.userExist == Unknown {
        errors := errors + [p];
      } else if p.userExist == Yes {
        Regroup(trues, [p], TrueOnes(ps[i + 1..]));
        trues := trues + [p];
      } else {
        falses := falses + [p];
      }
    }
  }

  method CandidateSuffixes(trues: seq<Profile>) returns (suffixes: set<string>)
    requires forall p :: p in trues ==> IsTrue(p)
    ensures suffixes == Candidates(trues)
  {
    var all, named, anyNamed := {}, {}, false;
    for i := 0 to |trues|
      invariant all == set j | 0 <= j < i :: trues[j].suffix
      invariant named == set j | 0 <= j < i && trues[j].name != "" :: trues[j].suffix
      invariant anyNamed <==> exists j :: 0 <= j < i && trues[j].name != ""
    {
      all := all + {trues[i].suffix};
      if trues[i].name != "" {
        anyNamed := true;
        named := named + {trues[i].suffix};
      }
    }
    suffixes := if anyNamed then named else all;
    assert forall j :: 0 <= j < |trues| ==> trues[j] in trues;
  }

  // The configured entries among the candidates, or a made-up one per candidate in map iteration order.
  method CommonSuffixes(list: seq<Suffix>, names: set<string>) returns (common: seq<Suffix>, ghost order: seq<string>)
    ensures Enumerates(order, names)
    ensures var c := Configured(list, names);
            if c != [] then common == c
            else |common| == |order| && forall i :: 0 <= i < |order| ==> common[i] == Suffix(order[i], 1)
  {
    common := [];
    for i := 0 to |list|
      invariant Configured(list, names) == common + Configured(list[i..], names)
    {
      assert list[i..][1..] == list[i + 1..];
      if list[i].name in names {
        Regroup(common, [list[i]], Configured(list[i + 1..], names));
        common := common + [list[i]];
      }
    }
    order := [];
    var rest := names;
    var made := [];
    while rest != {}
      invariant rest <= names && Distinct(order) && forall s :: s in order <==> s in names && s !in rest
      invariant |made| == |order| && forall i :: 0 <= i < |order| ==> made[i] == Suffix(order[i], 1)
    {
      var s :| s in rest;
      made, order, rest := made + [Suffix(s, 1)], order + [s], rest - {s};
    }
    if |common| == 0 {
      common := made;
    }
  }

  // The first entry of the highest priority, found in two passes.
  method PickTop(common: seq<Suffix>) returns (name: string)
    requires common != []
    ensures name == TopName(common)
  {
    var maxPri := common[0].priority;
    for i := 0 to |common|
      invariant forall j :: 0 <= j < i ==> common[j].priority <= maxPri
      invariant exists j :: 0 <= j < |common| && common[j].priority == maxPri
    {
      if common[i].priority > maxPri {
        maxPri := common[i].priority;
      }
    }
    name := "";
    for i := 0 to |common|
      invariant forall j :: 0 <= j < i ==> common[j].priority != maxPri
    {
      if common[i].priority == maxPri {
        name := common[i].name;
        FirstMaxIsTop(common, i);
        return;
      }
    }
  }

  lemma {:induction false} FirstMaxIsTop(list: seq<Suffix>, i: nat)
    requires i < |list| && forall j :: 0 <= j < |list| ==> list[j].priority <= list[i].priority
    requires forall j :: 0 <= j < i ==> list[j].priority < list[i].priority
    ensures list[i].name == TopName(list) && list[i].priority == MaxPriority(list)
  {
    if i > 0 {
      FirstMaxIsTop(list[1..], i - 1);
    } else if |list| > 1 {
      TopIsMax(list[1..]);
      var e :| e in list[1..] && e.priority == MaxPriority(list[1..]);
      assert e in list;
    }
  }

  lemma {:induction false} TopOfMade(common: seq<Suffix>, order: seq<string>)
    requires common != [] && |common| == |order| && forall i :: 0 <= i < |order| ==> common[i] == Suffix(order[i], 1)
    ensures TopName(common) == order[0]
  {
    FirstMaxIsTop(common, 0);
  }

  lemma {:induction false} FirstWithTrueOnes(ps: seq<Profile>, suffix: string)
    ensures FirstWith(TrueOnes(ps), suffix) == FirstWith(ps, suffix)
  {
    if ps != [] {
      FirstWithTrueOnes(ps[1..], suffix);
      if IsTrue(ps[0]) {
        assert TrueOnes(ps)[1..] == TrueOnes(ps[1..]);
      } else {
        assert TrueOnes(ps) == TrueOnes(ps[1..]);
      }
    }
  }

  lemma CandidatesOfTrueOnes(ps: seq<Profile>)
    ensures Candidates(TrueOnes(ps)) == Candidates(ps)
  {
    TrueOnesMembers(ps);
    assert (exists p :: p in ps && IsTrue(p) && p.name != "") <==>
           (exists p :: p in TrueOnes(ps) && IsTrue(p) && p.name != "");
  }

  // The first true profile with the winning suffix.
  method PickProfile(trues: seq<Profile>, suffix: string) returns (v: Verdict)
    requires forall p :: p in trues ==> IsTrue(p)
    ensures v == match FirstWith(trues, suffix) case Some(p) => Shown(p) case None => FAILED
  {
    for i := 0 to |trues|
      invariant FirstWith(trues, suffix) == FirstWith(trues[i..], suffix)
    {
      assert trues[i..][1..] == trues[i + 1..];
      if trues[i].suffix == suffix {
        return Shown(trues[i]);
      }
    }
    v := FAILED;
  }

  // The winning suffix, out of the true profiles alone.
  method PickSuffix(ghost ps: seq<Profile>, trues: seq<Profile>, list: seq<Suffix>) returns (suffix: string)
    requires trues == TrueOnes(ps) && trues != []
    ensures exists order :: Enumerates(order, Candidates(ps)) && order != [] && suffix == WinningSuffix(ps, list, order)
  {
    TrueOnesMembers(ps);
    CandidatesOfTrueOnes(ps);
    var suffixes := CandidateSuffixes(trues);
    ghost var order;
    var common;
    common, order := CommonSuffixes(list, suffixes);
    OrderNonEmptyIff(ps, order);
    if Configured(list, suffixes) == [] {
      TopOfMade(common, order);
    }
    suffix := PickTop(common);
    assert Enumerates(order, Candidates(ps)) && suffix == WinningSuffix(ps, list, order);
  }

  /******* The verdict in terms of the profiles alone *******/

  predicate Counts(ps: seq<Profile>, i: int) {
    0 <= i < |ps| && !ps[i].err && ps[i].userExist == Yes
  }

  // The suffix of a true profile that is named, or of any true profile when none is.
  ghost predicate Competes(ps: seq<Profile>, suffix: string) {
    exists i :: Counts(ps, i) && ps[i].suffix == suffix &&
                (ps[i].name != "" || forall j :: Counts(ps, j) ==> ps[j].name == "")
  }

  // Of the configured entries that compete, the first with the highest priority.
  ghost predicate TopEntry(ps: seq<Profile>, list: seq<Suffix>, k: int) {
    && 0 <= k < |list| && Competes(ps, list[k].name)
    && forall m :: 0 <= m < |list| && Competes(ps, list[m].name) ==>
         list[m].priority < list[k].priority || (list[m].priority == list[k].priority && k <= m)
  }

  ghost predicate Wins(ps: seq<Profile>, list: seq<Suffix>, suffix: string) {
    && Competes(ps, suffix)
    && ((exists k :: 0 <= k < |list| && Competes(ps, list[k].name)) ==>
          exists k :: TopEntry(ps, list, k) && list[k].name == suffix)
  }

  // The verdict repeats the first true profile that carries its suffix.
  ghost predicate Repeats(ps: seq<Profile>, v: Verdict, i: int) {
    && Counts(ps, i) && ps[i].suffix == v.suffix
    && (forall j :: 0 <= j < i && Counts(ps, j) ==> ps[j].suffix != v.suffix)
    && v.name == ps[i].name && v.source == ps[i].source && v.appName == ps[i].appName
  }

  ghost predicate VerdictOf(ps: seq<Profile>, list: seq<Suffix>, v: Verdict) {
    if exists i :: Counts(ps, i) then
      && v.userExist == Yes && !v.err && Wins(ps, list, v.suffix) && exists i :: Repeats(ps, v, i)
    else
      && v.name == "" && v.source == "" && v.suffix == "" && v.appName == ""
      && (ps != [] && (forall i :: 0 <= i < |ps| ==> !ps[i].err && ps[i].userExist == No) ==>
            v.userExist == No && !v.err)
      && (ps == [] || (exists i :: 0 <= i < |ps| && (ps[i].err || ps[i].userExist == Unknown)) ==>
            v.userExist == Unknown && v.err)
  }

  lemma CompetesIff(ps: seq<Profile>, s: string)
    ensures Competes(ps, s) <==> s in Candidates(ps)
  {
    if s in Candidates(ps) {
      var p :| p in ps && IsTrue(p) && p.suffix == s &&
               (p.name != "" || forall q :: q in ps && IsTrue(q) ==> q.name == "");
      var i :| 0 <= i < |ps| && ps[i] == p;
      assert Counts(ps, i);
      assert forall j :: Counts(ps, j) ==> ps[j] in ps && IsTrue(ps[j]);
    }
    if i :| Counts(ps, i) && ps[i].suffix == s && (ps[i].name != "" || forall j :: Counts(ps, j) ==> ps[j].name == "") {
      assert ps[i] in ps && IsTrue(ps[i]);
      if q :| q in ps && IsTrue(q) && q.name != "" {
        var j :| 0 <= j < |ps| && ps[j] == q;
        assert Counts(ps, j);
      }
    }
  }

  predicate FirstTop(list: seq<Suffix>, names: set<string>, k: int) {
    && 0 <= k < |list| && list[k].name in names
    && forall m :: 0 <= m < |list| && list[m].name in names ==>
         list[m].priority < list[k].priority || (list[m].priority == list[k].priority && k <= m)
  }

  lemma FirstTopCons(list: seq<Suffix>, names: set<string>, j: int)
    requires list != [] && FirstTop(list[1..], names, j)
    ensures FirstTop(list, names,
                     if list[0].name in names && list[0].priority >= list[1..][j].priority then 0 else j + 1)
  {
    assert forall m :: 0 < m < |list| ==> list[m] == list[1..][m - 1];
  }

  lemma {:induction false} TopOfConfigured(list: seq<Suffix>, names: set<string>) returns (k: nat)
    requires Configured(list, names) != []
    ensures FirstTop(list, names, k) && list[k].name == TopName(Configured(list, names))
    ensures list[k].priority == MaxPriority(Configured(list, names))
  {
    var rest := Configured(list[1..], names);
    if rest == [] {
      k := 0;
      assert Configured(list, names) == [list[0]];
      NoneConfigured(list[1..], names);
      assert forall m :: 0 < m < |list| ==> list[m] == list[1..][m - 1];
    } else {
      var j := TopOfConfigured(list[1..], names);
      FirstTopCons(list, names, j);
      if list[0].name in names {
        assert Configured(list, names)[1..] == rest;
        k := if list[0].priority >= list[1..][j].priority then 0 else j + 1;
      } else {
        assert Configured(list, names) == rest;
        k := j + 1;
      }
    }
  }

  lemma NoneConfigured(list: seq<Suffix>, names: set<string>)
    ensures Configured(list, names) == [] <==> forall m :: 0 <= m < |list| ==> list[m].name !in names
  {
    ConfiguredMembers(list, names);
    if Configured(list, names) != [] {
      assert Configured(list, names)[0] in Configured(list, names);
    }
    forall m | 0 <= m < |list| && list[m].name in names ensures Configured(list, names) != [] {
      assert list[m] in Configured(list, names);
    }
  }

  lemma WinnerWins(ps: seq<Profile>, list: seq<Suffix>, order: seq<string>)
    requires Enumerates(order, Candidates(ps)) && order != []
    ensures Wins(ps, list, WinningSuffix(ps, list, order))
  {
    forall s ensures Competes(ps, s) <==> s in Candidates(ps) { CompetesIff(ps, s); }
    WinnerIsCandidate(ps, list, order);
    NoneConfigured(list, Candidates(ps));
    if Configured(list, Candidates(ps)) != [] {
      var k := TopOfConfigured(list, Candidates(ps));
      assert TopEntry(ps, list, k);
    }
  }

  lemma {:induction false} FirstWithIndex(ps: seq<Profile>, suffix: string) returns (i: nat)
    requires FirstWith(ps, suffix).Some?
    ensures Counts(ps, i) && ps[i].suffix == suffix && FirstWith(ps, suffix) == Some(ps[i])
    ensures forall j :: 0 <= j < i && Counts(ps, j) ==> ps[j].suffix != suffix
  {
    if IsTrue(ps[0]) && ps[0].suffix == suffix {
      i := 0;
    } else {
      i := FirstWithIndex(ps[1..], suffix);
      assert forall j :: 0 < j < |ps| ==> ps[j] == ps[1..][j - 1];
      i := i + 1;
    }
  }

  lemma TrueOnesIff(ps: seq<Profile>)
    ensures TrueOnes(ps) != [] <==> exists i :: Counts(ps, i)
  {
    TrueOnesMembers(ps);
    if TrueOnes(ps) != [] {
      var p := TrueOnes(ps)[0];
      assert p in ps;
      var i :| 0 <= i < |ps| && ps[i] == p;
      assert Counts(ps, i);
    }
    if i :| Counts(ps, i) {
      assert ps[i] in TrueOnes(ps);
    }
  }

  // The verdict of every walk is one that the profiles call for.
  lemma VerdictIs(ps: seq<Profile>, list: seq<Suffix>, order: seq<string>)
    requires Enumerates(order, Candidates(ps))
    ensures VerdictOf(ps, list, Agg(ps, list, order))
  {
    TrueOnesIff(ps);
    OrderNonEmptyIff(ps, order);
    if TrueOnes(ps) != [] {
      var s := WinningSuffix(ps, list, order);
      WinnerWins(ps, list, order);
      WinnerIsCandidate(ps, list, order);
      var i := FirstWithIndex(ps, s);
      assert Repeats(ps, Agg(ps, list, order), i);
    } else {
      forall p | p in ps ensures IsError(p) || IsFalse(p) {
        var i :| 0 <= i < |ps| && ps[i] == p;
        assert !Counts(ps, i);
      }
      NoneTrue(ps, list, order);
    }
  }

  lemma NoneTrue(ps: seq<Profile>, list: seq<Suffix>, order: seq<string>)
    requires TrueOnes(ps) == [] && forall p :: p in ps ==> IsError(p) || IsFalse(p)
    ensures var v := Agg(ps, list, order);
            && (v == FAILED || v == ABSENT)
            && (ps != [] && (forall i :: 0 <= i < |ps| ==> IsFalse(ps[i])) ==> v == ABSENT)
            && (ps == [] || (exists i :: 0 <= i < |ps| && IsError(ps[i])) ==> v == FAILED)
  {
    if ps != [] {
      assert ps[0] in ps;
    }
    if i :| 0 <= i < |ps| && IsError(ps[i]) {
      assert ps[i] in ps;
    }
  }

  // The verdict for whatever iteration order the candidate map happened to have.
  ghost predicate PossibleVerdict(ps: seq<Profile>, list: seq<Suffix>, v: Verdict) {
    exists order :: Enumerates(order, Candidates(ps)) && v == Agg(ps, list, order)
  }

  method AggProfile(ps: seq<Profile>, list: seq<Suffix>) returns (v: Verdict)
    ensures VerdictOf(ps, list, v)
    ensures PossibleVerdict(ps, list, v)
  {
    var trues, falses, errors := Partition(ps);
    if |trues| > 0 {
      var suffix := PickSuffix(ps, trues, list);
      ghost var order :| Enumerates(order, Candidates(ps)) && order != [] && suffix == WinningSuffix(ps, list, order);
      TrueOnesMembers(ps);
      FirstWithTrueOnes(ps, suffix);
      v := PickProfile(trues, suffix);
      assert v == Agg(ps, list, order);
      VerdictIs(ps, list, order);
    } else {
      NoTrueNoCandidates(ps);
      v := if |errors| > 0 then FAILED else if |falses| > 0 then ABSENT else FAILED;
      assert Enumerates([], Candidates(ps)) && v == Agg(ps, list, []);
      VerdictIs(ps, list, []);
    }
  }

  lemma NoTrueNoCandidates(ps: seq<Profile>)
    requires TrueOnes(ps) == []
    ensures Candidates(ps) == {}
  {
    forall p | p in ps ensures !IsTrue(p) {
      TrueOnesMembers(ps);
      assert p !in TrueOnes(ps);
    }
  }
}
