/** Which bank suffixes are probed through which sources: choose the suffixes, order and truncate the
    sources, and hand each source a contiguous share of the suffixes. */
module ProbePlan {
  import opened Base
  import opened Sampler

  const COMMON := "COMMON"

  datatype Suffix = Suffix(name: string, priority: int)

  /******* Choosing suffixes *******/

  function Insert(e: Suffix, sorted: seq<Suffix>): seq<Suffix> {
    if sorted == [] || e.priority >= sorted[0].priority then [e] + sorted
    else [sorted[0]] + Insert(e, sorted[1..])
  }

  // The stable sort by descending priority.
  function SortDesc(entries: seq<Suffix>): seq<Suffix> {
    if entries == [] then [] else Insert(entries[0], SortDesc(entries[1..]))
  }

  ghost predicate Descending(s: seq<Suffix>) {
    forall i, j :: 0 <= i < j < |s| ==> s[i].priority >= s[j].priority
  }

  function OfPriority(s: seq<Suffix>, p: int): seq<Suffix> {
    if s == [] then [] else (if s[0].priority == p then [s[0]] else []) + OfPriority(s[1..], p)
  }

  lemma {:induction false} InsertDescending(e: Suffix, s: seq<Suffix>)
    requires Descending(s)
    ensures Descending(Insert(e, s))
    ensures forall x :: x in Insert(e, s) <==> x == e || x in s
  {
    if s != [] {
      assert s == [s[0]] + s[1..];
      if e.priority < s[0].priority {
        InsertDescending(e, s[1..]);
        var rest := Insert(e, s[1..]);
        assert forall i :: 0 <= i < |rest| ==> rest[i] in rest;
      }
    }
  }

  lemma {:induction false} InsertMultiset(e: Suffix, s: seq<Suffix>)
    ensures multiset(Insert(e, s)) == multiset(s) + multiset{e}
  {
    if s != [] && e.priority < s[0].priority {
      InsertMultiset(e, s[1..]);
      assert s == [s[0]] + s[1..];
    }
  }

  lemma {:induction false} InsertStable(e: Suffix, s: seq<Suffix>, p: int)
    ensures OfPriority(Insert(e, s), p) == (if e.priority == p then [e] else []) + OfPriority(s, p)
  {
    var out := Insert(e, s);
    if s == [] || e.priority >= s[0].priority {
      assert out == [e] + s;
      OfPriorityCons(e, s, p);
    } else {
      InsertStable(e, s[1..], p);
      assert out == [s[0]] + Insert(e, s[1..]);
      OfPriorityCons(s[0], Insert(e, s[1..]), p);
    }
  }

  lemma OfPriorityCons(e: Suffix, s: seq<Suffix>, p: int)
    ensures OfPriority([e] + s, p) == (if e.priority == p then [e] else []) + OfPriority(s, p)
  {
    assert ([e] + s)[1..] == s;
  }

  // Sorted, a permutation, and stable: entries of equal priority keep their order.
  lemma {:induction false} SortFacts(s: seq<Suffix>)
    ensures Descending(SortDesc(s)) && multiset(SortDesc(s)) == multiset(s)
    ensures forall p :: OfPriority(SortDesc(s), p) == OfPriority(s, p)
  {
    if s != [] {
      var rest := SortDesc(s[1..]);
      SortFacts(s[1..]);
      InsertDescending(s[0], rest);
      InsertMultiset(s[0], rest);
      assert s == [s[0]] + s[1..];
      forall p ensures OfPriority(SortDesc(s), p) == OfPriority(s, p) {
        InsertStable(s[0], rest, p);
      }
    }
  }

  function RemoveNamed(s: seq<Suffix>, drop: set<string>): seq<Suffix> {
    if s == [] then []
    else (if s[0].name in drop then [] else [s[0]]) + RemoveNamed(s[1..], drop)
  }

  lemma {:induction false} RemoveSnoc(s: seq<Suffix>, drop: set<string>, e: Suffix)
    ensures RemoveNamed(s + [e], drop) ==
            if e.name in drop then RemoveNamed(s, drop) else RemoveNamed(s, drop) + [e]
  {
    if s == [] {
      assert s + [e] == [e] && [e][1..] == [];
    } else {
      var rest, more := s[1..], s[1..] + [e];
      assert (s + [e])[0] == s[0] && (s + [e])[1..] == more;
      RemoveSnoc(rest, drop, e);
      var head := if s[0].name in drop then [] else [s[0]];
      assert RemoveNamed(s + [e], drop) == head + RemoveNamed(more, drop);
      assert (head + RemoveNamed(rest, drop)) + [e] == head + (RemoveNamed(rest, drop) + [e]);
    }
  }

  method RemoveSuffixEntries(list: seq<Suffix>, drop: set<string>) returns (out: seq<Suffix>)
    ensures out == RemoveNamed(list, drop)
  {
    out := [];
    for i := 0 to |list|
      invariant out == RemoveNamed(list[..i], drop)
    {
      assert list[..i + 1] == list[..i] + [list[i]];
      RemoveSnoc(list[..i], drop, list[i]);
      if list[i].name !in drop {
        out := out + [list[i]];
      }
    }
    assert list[..|list|] == list;
  }

  lemma {:induction false} RemoveCounts(s: seq<Suffix>, drop: set<string>, e: Suffix)
    ensures multiset(RemoveNamed(s, drop))[e] == if e.name in drop then 0 else multiset(s)[e]
  {
    if s != [] {
      RemoveCounts(s[1..], drop, e);
      assert s == [s[0]] + s[1..];
    }
  }

  lemma {:induction false} RemoveOrder(s: seq<Suffix>, drop: set<string>)
    ensures Descending(s) ==> Descending(RemoveNamed(s, drop))
    ensures forall e :: e in RemoveNamed(s, drop) ==> e in s && e.name !in drop
  {
    if s != [] {
      RemoveOrder(s[1..], drop);
      assert s == [s[0]] + s[1..];
      var rest := RemoveNamed(s[1..], drop);
      if Descending(s) {
        assert Descending(s[1..]);
        assert forall i :: 0 <= i < |s[1..]| ==> s[1..][i].priority <= s[0].priority;
        assert forall i :: 0 <= i < |rest| ==> rest[i] in s[1..];
      }
    }
  }

  // Sorting first leaves the same entries as dropping names alone.
  lemma EligibleSame(s: seq<Suffix>, drop: set<string>)
    ensures multiset(RemoveNamed(SortDesc(s), drop)) == multiset(RemoveNamed(s, drop))
    ensures Descending(RemoveNamed(SortDesc(s), drop))
  {
    SortFacts(s);
    RemoveOrder(SortDesc(s), drop);
    var a, b := multiset(RemoveNamed(SortDesc(s), drop)), multiset(RemoveNamed(s, drop));
    forall e ensures a[e] == b[e] {
      RemoveCounts(s, drop, e);
      RemoveCounts(SortDesc(s), drop, e);
    }
  }

  // What is left of a list of entries without those resolved, one by one in their old order.
  predicate Unresolved(list: seq<Suffix>, resolved: set<string>, left: seq<Suffix>) {
    if list == [] then left == []
    else if list[0].name !in resolved then
      left != [] && left[0] == list[0] && Unresolved(list[1..], resolved, left[1..])
    else Unresolved(list[1..], resolved, left)
  }

  lemma {:induction false} RemovedIsUnresolved(list: seq<Suffix>, resolved: set<string>)
    ensures Unresolved(list, resolved, RemoveNamed(list, resolved))
  {
    if list != [] {
      var rest := RemoveNamed(list[1..], resolved);
      RemovedIsUnresolved(list[1..], resolved);
      assert ([list[0]] + rest)[1..] == rest && [] + rest == rest;
    }
  }

  // Dropping names keeps the entries of each priority in order.
  lemma {:induction false} RemoveKeepsPriority(s: seq<Suffix>, drop: set<string>, p: int)
    ensures OfPriority(RemoveNamed(s, drop), p) == RemoveNamed(OfPriority(s, p), drop)
  {
    if s != [] {
      var e, rest := s[0], RemoveNamed(s[1..], drop);
      RemoveKeepsPriority(s[1..], drop, p);
      if e.name !in drop {
        OfPriorityCons(e, rest, p);
        assert RemoveNamed(s, drop) == [e] + rest;
      } else {
        assert RemoveNamed(s, drop) == rest;
      }
      var same := OfPriority(s[1..], p);
      assert OfPriority(s, p) == if e.priority == p then [e] + same else same;
      assert ([e] + same)[1..] == same;
    }
  }

  // The first k entries of a list once it is sorted by descending priority, equals in their old order.
  ghost predicate TopSorted(list: seq<Suffix>, k: nat, sorted: seq<Suffix>, chosen: seq<Suffix>) {
    && Descending(sorted) && multiset(sorted) == multiset(list)
    && (forall p :: OfPriority(sorted, p) == OfPriority(list, p))
    && chosen == if k < |sorted| then sorted[..k] else sorted
  }

  lemma SortedUnresolved(s: seq<Suffix>, resolved: set<string>, k: nat)
    ensures var sorted, list := RemoveNamed(SortDesc(s), resolved), RemoveNamed(s, resolved);
            TopSorted(list, k, sorted, if k < |sorted| then sorted[..k] else sorted)
  {
    EligibleSame(s, resolved);
    SortFacts(s);
    forall p ensures OfPriority(RemoveNamed(SortDesc(s), resolved), p) == OfPriority(RemoveNamed(s, resolved), p) {
      RemoveKeepsPriority(s, resolved, p);
      RemoveKeepsPriority(SortDesc(s), resolved, p);
    }
  }

  function Names(s: seq<Suffix>): seq<string> {
    seq(|s|, i requires 0 <= i < |s| => s[i].name)
  }

  /******* Sharing suffixes out *******/

  function Min(a: int, b: int): int { if a < b then a else b }

  // Where the i-th of n contiguous shares of len items starts: the first len % n shares are longer by one.
  function Cut(len: nat, n: nat, i: nat): int
    requires n > 0
  {
    i * (len / n) + Min(i, len % n)
  }

  lemma CutFacts(len: nat, n: nat, i: nat)
    requires i < n
    ensures 0 <= Cut(len, n, i) <= Cut(len, n, i + 1) <= len
    ensures Cut(len, n, 0) == 0 && Cut(len, n, n) == len
    ensures Cut(len, n, i + 1) - Cut(len, n, i) == len / n + if i < len % n then 1 else 0
  {
    var k, m := len / n, len % n;
    assert len == n * k + m;
    assert (i + 1) * k == i * k + k;
    MulMonotone(i + 1, n, k);
  }

  lemma MulMonotone(a: nat, b: nat, k: nat)
    requires a <= b
    ensures a * k <= b * k
  {}

  function Share(a: seq<string>, n: nat, i: nat): seq<string>
    requires i < n
  {
    CutFacts(|a|, n, i);
    a[Cut(|a|, n, i)..Cut(|a|, n, i + 1)]
  }

  method SplitList(a: seq<string>, n: int) returns (out: seq<seq<string>>)
    ensures |out| == if n <= 0 then 0 else n
    ensures forall i :: 0 <= i < |out| ==> out[i] == Share(a, n, i)
  {
    out := [];
    if n <= 0 {
      return;
    }
    var k, m := |a| / n, |a| % n;
    for i := 0 to n
      invariant |out| == i
      invariant forall j :: 0 <= j < i ==> out[j] == Share(a, n, j)
    {
      CutFacts(|a|, n, i);
      var start := i * k + Min(i, m);
      var end := (i + 1) * k + Min(i + 1, m);
      out := out + [a[start..end]];
    }
  }

  function Flatten(sets: seq<seq<string>>): seq<string> {
    if sets == [] then [] else sets[0] + Flatten(sets[1..])
  }

  // The shares are contiguous and together the whole list, and the first ones take what an even division leaves.
  ghost predicate Shares(sets: seq<seq<string>>, names: seq<string>) {
    && Flatten(sets) == names
    && forall i :: 0 <= i < |sets| ==> |sets[i]| == |names| / |sets| + if i < |names| % |sets| then 1 else 0
  }

  lemma {:induction false} FlattenShares(a: seq<string>, out: seq<seq<string>>, i: nat)
    requires |out| > 0 && i <= |out| && forall j :: 0 <= j < |out| ==> out[j] == Share(a, |out|, j)
    ensures 0 <= Cut(|a|, |out|, i) <= |a| && Flatten(out[i..]) == a[Cut(|a|, |out|, i)..]
    decreases |out| - i
  {
    CutFacts(|a|, |out|, 0);
    if i < |out| {
      FlattenShares(a, out, i + 1);
      CutFacts(|a|, |out|, i);
      assert out[i..][1..] == out[i + 1..];
      var s, e := Cut(|a|, |out|, i), Cut(|a|, |out|, i + 1);
      assert a[s..] == a[s..e] + a[e..];
      assert Flatten(out[i..]) == out[i] + Flatten(out[i + 1..]);
    }
  }

  lemma SplitShares(a: seq<string>, out: seq<seq<string>>)
    requires |out| > 0 && forall j :: 0 <= j < |out| ==> out[j] == Share(a, |out|, j)
    ensures Shares(out, a)
  {
    FlattenShares(a, out, 0);
    CutFacts(|a|, |out|, 0);
    assert out[0..] == out && a[0..] == a;
    forall i | 0 <= i < |out| ensures |out[i]| == |a| / |out| + if i < |a| % |out| then 1 else 0 {
      CutFacts(|a|, |out|, i);
    }
  }

  // The common-flow sources each get the common marker, the others share the names.
  method BuildSuffixSets(commonCount: nat, nonCommon: nat, names: seq<string>) returns (sets: seq<seq<string>>)
    ensures |sets| == commonCount + nonCommon
    ensures forall i :: 0 <= i < commonCount ==> sets[i] == [COMMON]
    ensures nonCommon > 0 ==> Shares(sets[commonCount..], names)
  {
    sets := [];
    for i := 0 to commonCount
      invariant |sets| == i && forall j :: 0 <= j < i ==> sets[j] == [COMMON]
    {
      sets := sets + [[COMMON]];
    }
    if nonCommon > 0 {
      var shares := SplitList(names, nonCommon);
      SplitShares(names, shares);
      sets := sets + shares;
      assert sets[commonCount..] == shares;
    }
  }

  /******* Ordering sources *******/

  predicate PhaseCommon(s: Source, enriched: bool) {
    s.common.Some? && if enriched then s.common.value.enriched else s.common.value.lite
  }

  // The fan-out's own test does not look at the phase.
  predicate IsCommonFlow(s: Source) {
    s.common.Some? && (s.common.value.lite || s.common.value.enriched)
  }

  function Commons(sources: seq<Source>, enriched: bool): seq<Source> {
    if sources == [] then []
    else (if PhaseCommon(sources[0], enriched) then [sources[0]] else []) + Commons(sources[1..], enriched)
  }

  function Others(sources: seq<Source>, enriched: bool): seq<Source> {
    if sources == [] then []
    else (if PhaseCommon(sources[0], enriched) then [] else [sources[0]]) + Others(sources[1..], enriched)
  }

  lemma {:induction false} CommonsSnoc(sources: seq<Source>, enriched: bool, s: Source)
    ensures Commons(sources + [s], enriched) ==
            if PhaseCommon(s, enriched) then Commons(sources, enriched) + [s] else Commons(sources, enriched)
  {
    if sources == [] {
      assert sources + [s] == [s] && [s][1..] == [];
    } else {
      var rest, more := sources[1..], sources[1..] + [s];
      assert (sources + [s])[0] == sources[0] && (sources + [s])[1..] == more;
      CommonsSnoc(rest, enriched, s);
      var head := if PhaseCommon(sources[0], enriched) then [sources[0]] else [];
      assert Commons(sources + [s], enriched) == head + Commons(more, enriched);
      assert (head + Commons(rest, enriched)) + [s] == head + (Commons(rest, enriched) + [s]);
    }
  }

  lemma {:induction false} OthersSnoc(sources: seq<Source>, enriched: bool, s: Source)
    ensures Others(sources + [s], enriched) ==
            if PhaseCommon(s, enriched) then Others(sources, enriched) else Others(sources, enriched) + [s]
  {
    if sources == [] {
      assert sources + [s] == [s] && [s][1..] == [];
    } else {
      var rest, more := sources[1..], sources[1..] + [s];
      assert (sources + [s])[0] == sources[0] && (sources + [s])[1..] == more;
      OthersSnoc(rest, enriched, s);
      var head := if PhaseCommon(sources[0], enriched) then [] else [sources[0]];
      assert Others(sources + [s], enriched) == head + Others(more, enriched);
      assert (head + Others(rest, enriched)) + [s] == head + (Others(rest, enriched) + [s]);
    }
  }

  method OrderCommonFirst(sources: seq<Source>, enriched: bool) returns (out: seq<Source>)
    ensures out == Commons(sources, enriched) + Others(sources, enriched)
  {
    var common, other := [], [];
    for i := 0 to |sources|
      invariant common == Commons(sources[..i], enriched)
      invariant other == Others(sources[..i], enriched)
    {
      assert sources[..i + 1] == sources[..i] + [sources[i]];
      CommonsSnoc(sources[..i], enriched, sources[i]);
      OthersSnoc(sources[..i], enriched, sources[i]);
      if PhaseCommon(sources[i], enriched) {
        common := common + [sources[i]];
      } else {
        other := other + [sources[i]];
      }
    }
    assert sources[..|sources|] == sources;
    out := common + other;
  }

  method CountCommon(sources: seq<Source>, enriched: bool) returns (n: nat)
    ensures n == |Commons(sources, enriched)|
  {
    n := 0;
    for i := 0 to |sources|
      invariant |Commons(sources, enriched)| == n + |Commons(sources[i..], enriched)|
    {
      assert sources[i..][1..] == sources[i + 1..];
      if PhaseCommon(sources[i], enriched) {
        n := n + 1;
      }
    }
  }

  // Common-flow sources of the phase first: what any prefix of the ordered list looks like.
  ghost predicate CommonFirst(sources: seq<Source>, enriched: bool, n: nat) {
    && n <= |sources|
    && (forall i :: 0 <= i < n ==> PhaseCommon(sources[i], enriched))
    && (forall i :: n <= i < |sources| ==> !PhaseCommon(sources[i], enriched))
  }

  lemma {:induction false} OrderFacts(sources: seq<Source>, enriched: bool)
    ensures forall s :: s in Commons(sources, enriched) ==> PhaseCommon(s, enriched)
    ensures forall s :: s in Others(sources, enriched) ==> !PhaseCommon(s, enriched)
    ensures multiset(Commons(sources, enriched)) + multiset(Others(sources, enriched)) == multiset(sources)
  {
    if sources != [] {
      OrderFacts(sources[1..], enriched);
      assert sources == [sources[0]] + sources[1..];
    }
  }

  predicate InFlow(s: Source) { s.common.Some? && s.common.value.enriched }

  predicate OffFlow(s: Source) { !(s.common.Some? && s.common.value.enriched) }

  lemma {:induction false} FlowsSieved(sources: seq<Source>)
    ensures Sieved(sources, InFlow, Commons(sources, true)) && Sieved(sources, OffFlow, Others(sources, true))
  {
    if sources != [] {
      FlowsSieved(sources[1..]);
      var c, o := Commons(sources[1..], true), Others(sources[1..], true);
      assert ([sources[0]] + c)[1..] == c && [] + c == c;
      assert ([sources[0]] + o)[1..] == o && [] + o == o;
    }
  }

  // The first sources, with those of the enriched phase's common flow in front of the others.
  ghost predicate UsedFrom(sources: seq<Source>, limit: nat, used: seq<Source>, commons: nat) {
    && (exists inFlow, offFlow :: Sieved(sources, InFlow, inFlow) && Sieved(sources, OffFlow, offFlow)
                                  && var all := inFlow + offFlow; used == if limit < |all| then all[..limit] else all)
    && commons <= |used| && forall i :: 0 <= i < |used| ==> (i < commons <==> InFlow(used[i]))
  }

  // Counting the common-flow sources of such a list finds where they end.
  lemma {:induction false} CountOfCommonFirst(sources: seq<Source>, enriched: bool, n: nat)
    requires CommonFirst(sources, enriched, n)
    ensures |Commons(sources, enriched)| == n
  {
    if sources != [] {
      CountOfCommonFirst(sources[1..], enriched, if n > 0 then n - 1 else 0);
    }
  }

  /******* The plans *******/

  // Taken from the list with no entry left behind outranking one that was taken.
  ghost predicate TopOf(chosen: seq<Suffix>, list: seq<Suffix>) {
    && multiset(chosen) <= multiset(list)
    && forall c, r :: c in chosen && r in multiset(list) - multiset(chosen) ==> r.priority <= c.priority
  }

  lemma TopOfPrefix(sorted: seq<Suffix>, list: seq<Suffix>, k: nat)
    requires Descending(sorted) && multiset(sorted) == multiset(list) && k <= |sorted|
    ensures TopOf(sorted[..k], list)
  {
    assert sorted == sorted[..k] + sorted[k..];
    assert multiset(list) - multiset(sorted[..k]) == multiset(sorted[k..]);
  }

  // The used sources, the first commons of which are common-flow for the phase, and their suffix sets.
  ghost predicate PlanOk(used: seq<Source>, sets: seq<seq<string>>, commons: nat, names: seq<string>) {
    && CommonFirst(used, true, commons) && |sets| == |used|
    && (forall i :: 0 <= i < commons ==> sets[i] == [COMMON])
    && (commons < |used| ==> Shares(sets[commons..], names))
  }

  // Shares it sets up once sources and names are settled.
  method Distribute(used: seq<Source>, names: seq<string>, ghost n: nat)
    returns (sets: seq<seq<string>>, commons: nat)
    requires CommonFirst(used, true, n)
    ensures PlanOk(used, sets, commons, names) && commons == n
  {
    CountOfCommonFirst(used, true, n);
    commons := CountCommon(used, true);
    sets := BuildSuffixSets(commons, |used| - commons, names);
  }

  lemma PrefixUsed(sources: seq<Source>, limit: nat, used: seq<Source>, n: nat)
    requires var all := Commons(sources, true) + Others(sources, true);
             used == if limit < |all| then all[..limit] else all
    requires CommonFirst(used, true, n)
    ensures UsedFrom(sources, limit, used, n)
  {
    FlowsSieved(sources);
    assert forall i :: 0 <= i < |used| ==> (PhaseCommon(used[i], true) <==> InFlow(used[i]));
  }

  method OrderedPrefix(sources: seq<Source>, limit: nat) returns (used: seq<Source>, ghost n: nat)
    ensures var all := Commons(sources, true) + Others(sources, true);
            used == if limit < |all| then all[..limit] else all
    ensures |used| == if limit < |sources| then limit else |sources|
    ensures CommonFirst(used, true, n)
  {
    used := OrderCommonFirst(sources, true);
    OrderFacts(sources, true);
    assert |used| == |multiset(used)| == |multiset(sources)|;
    n := |Commons(sources, true)|;
    assert CommonFirst(used, true, n);
    if limit < |used| {
      used := used[..limit];
      n := if limit < n then limit else n;
    }
  }

  // The entries not resolved, sorted, and the first k of those.
  ghost predicate ChosenFrom(suffixes: seq<Suffix>, resolved: set<string>, k: nat, chosen: seq<Suffix>) {
    exists eligible, sorted :: Unresolved(suffixes, resolved, eligible) && TopSorted(eligible, k, sorted, chosen)
  }

  lemma PrefixIsChosen(suffixes: seq<Suffix>, resolved: set<string>, k: nat, chosen: seq<Suffix>)
    requires var sorted := RemoveNamed(SortDesc(suffixes), resolved);
             chosen == if k < |sorted| then sorted[..k] else sorted
    ensures ChosenFrom(suffixes, resolved, k, chosen)
  {
    SortedUnresolved(suffixes, resolved, k);
    RemovedIsUnresolved(suffixes, resolved);
  }

  method ChooseSuffixes(suffixes: seq<Suffix>, resolved: set<string>, k: nat) returns (chosen: seq<Suffix>)
    ensures var eligible := RemoveNamed(suffixes, resolved);
            TopOf(chosen, eligible) && |chosen| == if k < |eligible| then k else |eligible|
    ensures forall e :: e in chosen ==> e in suffixes && e.name !in resolved
    ensures var sorted := RemoveNamed(SortDesc(suffixes), resolved);
            chosen == if k < |sorted| then sorted[..k] else sorted
  {
    var sorted := RemoveSuffixEntries(SortDesc(suffixes), resolved);
    EligibleSame(suffixes, resolved);
    RemoveOrder(suffixes, resolved);
    assert |sorted| == |multiset(sorted)| == |RemoveNamed(suffixes, resolved)|;
    var limit := if k > |sorted| then |sorted| else k;
    chosen := sorted[..limit];
    TopOfPrefix(sorted, RemoveNamed(suffixes, resolved), limit);
    forall e | e in chosen ensures e in suffixes && e.name !in resolved {
      assert e in multiset(RemoveNamed(suffixes, resolved));
    }
  }

  // Enriched phase without a light hit: the k highest-priority suffixes not already resolved, shared out
  // over at most as many sources.
  method PlanSampled(suffixes: seq<Suffix>, resolved: set<string>, sources: seq<Source>, k: nat)
    returns (chosen: seq<Suffix>, used: seq<Source>, sets: seq<seq<string>>, commons: nat)
    ensures ChosenFrom(suffixes, resolved, k, chosen) && UsedFrom(sources, |chosen|, used, commons)
    ensures var eligible := RemoveNamed(suffixes, resolved);
            TopOf(chosen, eligible) && |chosen| == if k < |eligible| then k else |eligible|
    ensures forall e :: e in chosen ==> e in suffixes && e.name !in resolved
    ensures PlanOk(used, sets, commons, Names(chosen))
    ensures |used| == if |chosen| < |sources| then |chosen| else |sources|
    ensures forall i :: commons <= i < |used| ==> sets[i] != []
  {
    chosen := ChooseSuffixes(suffixes, resolved, k);
    PrefixIsChosen(suffixes, resolved, k, chosen);
    ghost var n;
    used, n := OrderedPrefix(sources, |chosen|);
    PrefixUsed(sources, |chosen|, used, n);
    sets, commons := Distribute(used, Names(chosen), n);
    EachGetsOne(sets[commons..], Names(chosen));
  }

  lemma EachGetsOne(sets: seq<seq<string>>, names: seq<string>)
    requires |sets| <= |names| && (sets != [] ==> Shares(sets, names))
    ensures forall i :: 0 <= i < |sets| ==> sets[i] != []
  {
    if sets != [] {
      assert |names| / |sets| >= 1;
    }
  }

  method RepeatSuffixes(list: seq<Suffix>, n: nat) returns (out: seq<Suffix>)
    ensures |out| == if n <= 1 then |list| else n * |list|
    ensures forall e :: e in out ==> e in list
  {
    if n <= 1 || |list| == 0 {
      return list;
    }
    out := [];
    for i := 0 to n
      invariant |out| == i * |list| && forall e :: e in out ==> e in list
    {
      out := out + list;
    }
  }

  method EntriesNamed(suffixes: seq<Suffix>, hit: string) returns (list: seq<Suffix>)
    ensures forall e :: e in list <==> e in suffixes && e.name == hit
  {
    list := [];
    for i := 0 to |suffixes|
      invariant forall e :: e in list <==> e in suffixes[..i] && e.name == hit
    {
      assert suffixes[..i + 1] == suffixes[..i] + [suffixes[i]];
      if suffixes[i].name == hit {
        list := list + [suffixes[i]];
      }
    }
    assert suffixes[..|suffixes|] == suffixes;
  }

  lemma AllTheHit(sets: seq<seq<string>>, entries: seq<Suffix>, hit: string)
    requires sets != [] ==> Shares(sets, Names(entries))
    requires forall e :: e in entries ==> e.name == hit
    ensures forall i, name :: 0 <= i < |sets| && name in sets[i] ==> name == hit
  {
    forall i, name | 0 <= i < |sets| && name in sets[i] ensures name == hit {
      InFlatten(sets, i, name);
      var j :| 0 <= j < |entries| && Names(entries)[j] == name;
      assert entries[j] in entries;
    }
  }

  // Enriched phase after a light hit: the hit suffix alone, repeated so that every source gets it.
  method PlanConfirm(suffixes: seq<Suffix>, hit: string, sources: seq<Source>, count: int)
    returns (used: seq<Source>, sets: seq<seq<string>>, commons: nat)
    ensures |used| == (var n := if count < 1 then 1 else count; if n < |sources| then n else |sources|)
    ensures CommonFirst(used, true, commons) && |sets| == |used|
    ensures UsedFrom(sources, if count < 1 then 1 else count, used, commons)
    ensures forall i :: 0 <= i < commons ==> sets[i] == ["COMMON"]
    ensures forall i, name :: 0 <= i < |sets[commons..]| && name in sets[commons..][i] ==> name == hit
    ensures (exists e :: e in suffixes && e.name == hit) ==>
              forall i :: 0 <= i < |sets[commons..]| ==> sets[commons..][i] != []
  {
    var list := EntriesNamed(suffixes, hit);
    ghost var n;
    used, n := OrderedPrefix(sources, if count < 1 then 1 else count);
    PrefixUsed(sources, if count < 1 then 1 else count, used, n);
    var repeated := RepeatSuffixes(list, |used|);
    sets, commons := Distribute(used, Names(repeated), n);
    AllTheHit(sets[commons..], repeated, hit);
    if e :| e in suffixes && e.name == hit {
      assert e in list;
      AtLeast(|used|, |list|);
      EachGetsOne(sets[commons..], Names(repeated));
    }
  }

  lemma AtLeast(n: nat, m: nat)
    requires m >= 1
    ensures n * m >= n
  {}

  lemma {:induction false} InFlatten(sets: seq<seq<string>>, i: nat, name: string)
    requires i < |sets| && name in sets[i]
    ensures name in Flatten(sets)
  {
    if i > 0 {
      InFlatten(sets[1..], i - 1, name);
    }
  }

  /******* The fan-out *******/

  // What the build knows: the sources that have a crawler, those among them that drive themselves, and the bank
  // suffixes in the table of apps.
  datatype Build = Build(ported: set<string>, driven: set<string>, supported: set<string>)

  predicate Known(suffix: string, supported: set<string>) {
    suffix == COMMON || suffix in supported
  }

  function KnownOnly(list: seq<string>, supported: set<string>): seq<string> {
    if list == [] then []
    else (if Known(list[0], supported) then [list[0]] else []) + KnownOnly(list[1..], supported)
  }

  // The list the fan-out hands to source i: its common-flow test overrides the share.
  function Assigned(used: seq<Source>, sets: seq<seq<string>>, i: nat): seq<string>
    requires i < |used|
  {
    if IsCommonFlow(used[i]) then [COMMON] else if i < |sets| then sets[i] else []
  }

  // The suffixes of the list that are really probed: a source that drives itself asks once and looks at none.
  function Sent(b: Build, name: string, list: seq<string>): seq<string> {
    if name !in b.ported || name in b.driven then [] else KnownOnly(list, b.supported)
  }

  // What is left of a list once the suffixes are dropped that are neither the marker nor in the table.
  predicate SupportedOf(list: seq<string>, supported: set<string>, left: seq<string>) {
    if list == [] then left == []
    else if list[0] == "COMMON" || list[0] in supported
    then left != [] && left[0] == list[0] && SupportedOf(list[1..], supported, left[1..])
    else SupportedOf(list[1..], supported, left)
  }

  lemma {:induction false} KnownIsSupported(list: seq<string>, supported: set<string>)
    ensures SupportedOf(list, supported, KnownOnly(list, supported))
  {
    if list != [] {
      var rest := KnownOnly(list[1..], supported);
      KnownIsSupported(list[1..], supported);
      assert ([list[0]] + rest)[1..] == rest && [] + rest == rest;
    }
  }

  method RunSource(b: Build, name: string, list: seq<string>) returns (sent: seq<string>)
    requires name in b.ported
    ensures sent == Sent(b, name, list)
    ensures if name in b.driven then sent == [] else SupportedOf(list, b.supported, sent)
  {
    KnownIsSupported(list, b.supported);
    sent := [];
    if name in b.driven {
      return;
    }
    for i := 0 to |list|
      invariant KnownOnly(list, b.supported) == sent + KnownOnly(list[i..], b.supported)
    {
      assert list[i..][1..] == list[i + 1..];
      if Known(list[i], b.supported) {
        Regroup(sent, [list[i]], KnownOnly(list[i + 1..], b.supported));
        sent := sent + [list[i]];
      }
    }
  }

  // What a source probes of its share: nothing without a crawler or when it drives itself, the marker alone where
  // it belongs to the common flow of either phase, else the supported suffixes of the share.
  predicate Probes(b: Build, s: Source, share: seq<string>, sent: seq<string>) {
    if s.name !in b.ported || s.name in b.driven then sent == []
    else if s.common.Some? && (s.common.value.lite || s.common.value.enriched) then sent == ["COMMON"]
    else SupportedOf(share, b.supported, sent)
  }

  lemma OnlyMarker(supported: set<string>, sent: seq<string>)
    requires SupportedOf(["COMMON"], supported, sent)
    ensures sent == ["COMMON"]
  {
    assert ["COMMON"][1..] == [];
  }

  method FanOut(used: seq<Source>, sets: seq<seq<string>>, b: Build) returns (sent: seq<seq<string>>)
    ensures |sent| == |used|
    ensures forall i :: 0 <= i < |used| ==> sent[i] == Sent(b, used[i].name, Assigned(used, sets, i))
    ensures forall i :: 0 <= i < |used| ==> Probes(b, used[i], if i < |sets| then sets[i] else [], sent[i])
  {
    sent := [];
    for i := 0 to |used|
      invariant |sent| == i
      invariant forall j :: 0 <= j < i ==> sent[j] == Sent(b, used[j].name, Assigned(used, sets, j))
      invariant forall j :: 0 <= j < i ==> Probes(b, used[j], if j < |sets| then sets[j] else [], sent[j])
    {
      var one := [];
      if used[i].name in b.ported {
        var suffixes := [];
        if IsCommonFlow(used[i]) {
          suffixes := [COMMON];
        } else if i < |sets| {
          suffixes := sets[i];
        }
        one := RunSource(b, used[i].name, suffixes);
        if IsCommonFlow(used[i]) && used[i].name !in b.driven {
          OnlyMarker(b.supported, one);
        }
      }
      sent := sent + [one];
    }
  }

  // A source that has a crawler, takes a list, and is not sent to the common flow instead of its share.
  predicate Carries(b: Build, s: Source, share: seq<string>) {
    s.name in b.ported && s.name !in b.driven && (IsCommonFlow(s) ==> share == [COMMON])
  }

  lemma {:induction false} KnownFacts(list: seq<string>, supported: set<string>)
    ensures |KnownOnly(list, supported)| <= |list|
    ensures KnownOnly(list, supported) == list <==> forall name :: name in list ==> Known(name, supported)
  {
    if list != [] {
      KnownFacts(list[1..], supported);
      assert list == [list[0]] + list[1..];
      if !Known(list[0], supported) {
        assert |KnownOnly(list, supported)| < |list|;
      }
    }
  }

  // A source's share is probed whole exactly when the source carries it and all its suffixes are supported.
  lemma ShareSentIff(b: Build, used: seq<Source>, sets: seq<seq<string>>, i: nat)
    requires |sets| == |used| && i < |used| && sets[i] != []
    ensures var sent := Sent(b, used[i].name, Assigned(used, sets, i));
            && |sent| <= |sets[i]|
            && (sent == sets[i] <==>
                Carries(b, used[i], sets[i]) && forall name :: name in sets[i] ==> Known(name, b.supported))
  {
    KnownFacts(Assigned(used, sets, i), b.supported);
    assert Assigned(used, sets, i) == [COMMON] ==> KnownOnly([COMMON], b.supported) == [COMMON];
  }

  // Lists with no block longer than its counterpart join up to the same only if they are the same.
  lemma {:induction false} SameBlocks(a: seq<seq<string>>, b: seq<seq<string>>)
    requires |a| == |b| && forall i :: 0 <= i < |a| ==> |a[i]| <= |b[i]|
    ensures |Flatten(a)| <= |Flatten(b)|
    ensures Flatten(a) == Flatten(b) ==> a == b
  {
    if a != [] {
      SameBlocks(a[1..], b[1..]);
      assert a == [a[0]] + a[1..] && b == [b[0]] + b[1..];
      if Flatten(a) == Flatten(b) {
        assert |a[0]| == |b[0]|;
        assert a[0] == Flatten(a)[..|a[0]|] && b[0] == Flatten(b)[..|b[0]|];
        assert Flatten(a[1..]) == Flatten(a)[|a[0]|..] && Flatten(b[1..]) == Flatten(b)[|b[0]|..];
      }
    }
  }

  lemma {:induction false} FromFlatten(sets: seq<seq<string>>, name: string) returns (i: nat)
    requires name in Flatten(sets)
    ensures i < |sets| && name in sets[i]
  {
    if name in sets[0] {
      i := 0;
    } else {
      i := FromFlatten(sets[1..], name);
      i := i + 1;
    }
  }

  // Together the non-common sources probe exactly the chosen suffixes if and only if each of them carries its
  // share and every chosen suffix is supported.
  lemma ChosenProbedIff(used: seq<Source>, sets: seq<seq<string>>, commons: nat, names: seq<string>,
                        b: Build, sent: seq<seq<string>>)
    requires PlanOk(used, sets, commons, names) && commons < |used|
    requires forall i :: commons <= i < |used| ==> sets[i] != []
    requires |sent| == |used|
    requires forall i :: 0 <= i < |used| ==> sent[i] == Sent(b, used[i].name, Assigned(used, sets, i))
    ensures Flatten(sent[commons..]) == names <==>
            (forall i :: commons <= i < |used| ==> Carries(b, used[i], sets[i])) &&
            (forall name :: name in names ==> Known(name, b.supported))
  {
    var p, s := sent[commons..], sets[commons..];
    forall i | 0 <= i < |p|
      ensures |p[i]| <= |s[i]|
      ensures p[i] == s[i] <==>
              Carries(b, used[commons + i], s[i]) && forall name :: name in s[i] ==> Known(name, b.supported)
    {
      ShareSentIff(b, used, sets, commons + i);
    }
    SameBlocks(p, s);
    if p == s {
      forall name | name in names ensures Known(name, b.supported) {
        var i := FromFlatten(s, name);
        assert p[i] == s[i];
      }
      forall i | commons <= i < |used| ensures Carries(b, used[i], sets[i]) {
        assert p[i - commons] == s[i - commons];
      }
    } else if forall name :: name in names ==> Known(name, b.supported) {
      var i :| 0 <= i < |p| && p[i] != s[i];
      forall name | name in s[i] ensures Known(name, b.supported) {
        InFlatten(s, i, name);
      }
      assert !Carries(b, used[commons + i], sets[commons + i]);
    }
  }

  /******* A source that drives itself *******/

  // The emulator as the default source list has it, once enabled.
  const EMULATOR := Source("PHONEPE_EMULATOR", "ENRICHED", 0.0, true, None)

  // The emulator has a crawler and no common flow, so it is given a share; nothing of it is probed.
  lemma EmulatorDropsItsShare(b: Build, bank: string, sent: seq<seq<string>>)
    requires EMULATOR.name in b.ported && EMULATOR.name in b.driven
    requires sent == [Sent(b, EMULATOR.name, Assigned([EMULATOR], [[bank]], 0))]
    ensures PlanOk([EMULATOR], [[bank]], 0, [bank]) && !IsCommonFlow(EMULATOR)
    ensures Flatten(sent) == []
  {
    assert [[bank]][0..] == [[bank]] && [[bank]][1..] == [];
    assert Flatten([[bank]]) == [bank] + Flatten([]);
    assert sent[1..] == [];
  }
}
