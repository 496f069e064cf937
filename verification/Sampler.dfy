/** Reproducible weighted sampling of sources: a xorshift generator, random keys raised to the inverse
    weight, and a partial selection of the k largest keys done in place. */
module Sampler {
  import opened Base

  datatype Common = Common(lite: bool, enriched: bool)

  datatype Source = Source(name: string, kind: string, weight: real, enabled: bool, common: Option<Common>)

  /******* The generator *******/

  // A 64-bit word, least significant bit first.
  type Word = w: seq<bool> | |w| == 64 witness seq(64, _ => false)

  const ZERO: Word := seq(64, _ => false)

  function Bits(n: nat, width: nat): (w: seq<bool>)
    ensures |w| == width
  {
    if width == 0 then [] else [n % 2 == 1] + Bits(n / 2, width - 1)
  }

  function ValueOf(bits: seq<bool>): nat {
    if bits == [] then 0 else (if bits[0] then 1 else 0) + 2 * ValueOf(bits[1..])
  }

  // w xor (w << k), and w xor (w >> k).
  function MixLeft(w: Word, k: nat): Word {
    seq(64, i requires 0 <= i < 64 => w[i] != (i >= k && w[i - k]))
  }

  function MixRight(w: Word, k: nat): Word {
    seq(64, i requires 0 <= i < 64 => w[i] != (i + k < 64 && w[i + k]))
  }

  function XorShift(w: Word): Word {
    MixLeft(MixRight(MixLeft(w, 13), 7), 17)
  }

  // Bits are recovered one by one, from the end that the shift leaves alone.
  lemma {:induction false} LeftBit(x: Word, y: Word, k: nat, i: nat)
    requires k > 0 && i < 64 && MixLeft(x, k) == MixLeft(y, k)
    ensures x[i] == y[i]
  {
    if i >= k {
      LeftBit(x, y, k, i - k);
    }
    assert MixLeft(x, k)[i] == MixLeft(y, k)[i];
  }

  lemma {:induction false} RightBit(x: Word, y: Word, k: nat, i: nat)
    requires k > 0 && i < 64 && MixRight(x, k) == MixRight(y, k)
    ensures x[i] == y[i]
    decreases 64 - i
  {
    if i + k < 64 {
      RightBit(x, y, k, i + k);
    }
    assert MixRight(x, k)[i] == MixRight(y, k)[i];
  }

  lemma MixesInjective(x: Word, y: Word, k: nat)
    requires k > 0
    ensures MixLeft(x, k) == MixLeft(y, k) ==> x == y
    ensures MixRight(x, k) == MixRight(y, k) ==> x == y
  {
    if MixLeft(x, k) == MixLeft(y, k) {
      forall i | 0 <= i < 64 ensures x[i] == y[i] { LeftBit(x, y, k, i); }
    }
    if MixRight(x, k) == MixRight(y, k) {
      forall i | 0 <= i < 64 ensures x[i] == y[i] { RightBit(x, y, k, i); }
    }
  }

  lemma XorShiftInjective(x: Word, y: Word)
    ensures XorShift(x) == XorShift(y) <==> x == y
  {
    MixesInjective(MixRight(MixLeft(x, 13), 7), MixRight(MixLeft(y, 13), 7), 17);
    MixesInjective(MixLeft(x, 13), MixLeft(y, 13), 7);
    MixesInjective(x, y, 13);
  }

  // Zero is the one state the generator cannot leave, and nothing else steps into it.
  lemma XorShiftZeroIff(x: Word)
    ensures XorShift(x) == ZERO <==> x == ZERO
  {
    assert MixLeft(ZERO, 13) == ZERO && MixRight(ZERO, 7) == ZERO && MixLeft(ZERO, 17) == ZERO;
    XorShiftInjective(x, ZERO);
  }

  // The state after n draws.
  function After(s: Word, n: nat): Word {
    if n == 0 then s else XorShift(After(s, n - 1))
  }

  lemma StepsMeetIff(x: Word, y: Word, x': Word, y': Word)
    requires x' == XorShift(x) && y' == XorShift(y)
    ensures x' == y' <==> x == y
  {
    XorShiftInjective(x, y);
  }

  // Generators with distinct seeds are never in the same state after the same number of draws.
  lemma {:induction false} NeverMeet(s: Word, t: Word, n: nat)
    ensures After(s, n) == After(t, n) <==> s == t
  {
    if n > 0 {
      NeverMeet(s, t, n - 1);
      StepsMeetIff(After(s, n - 1), After(t, n - 1), After(s, n), After(t, n));
    }
  }

  lemma {:induction false} ZeroStays(n: nat)
    ensures After(ZERO, n) == ZERO
  {
    if n > 0 {
      ZeroStays(n - 1);
      XorShiftZeroIff(ZERO);
    }
  }

  // A generator seeded with a non-zero word never reaches zero.
  lemma NeverZero(s: Word, n: nat)
    ensures After(s, n) == ZERO <==> s == ZERO
  {
    ZeroStays(n);
    NeverMeet(s, ZERO, n);
  }

  const TWO_53: nat := 9007199254740992

  // The top 53 bits as a fraction.
  function Draw(w: Word): real {
    ValueOf(w[11..]) as real / TWO_53 as real
  }

  function Pow2(n: nat): nat {
    if n == 0 then 1 else 2 * Pow2(n - 1)
  }

  lemma {:induction false} ValueBelow(bits: seq<bool>)
    ensures ValueOf(bits) < Pow2(|bits|)
  {
    if bits != [] {
      ValueBelow(bits[1..]);
    }
  }

  lemma {:induction false} PowSum(a: nat, b: nat)
    ensures Pow2(a + b) == Pow2(a) * Pow2(b)
  {
    if b > 0 {
      PowSum(a, b - 1);
    }
  }

  lemma PowDouble(n: nat, v: nat)
    requires Pow2(n) == v
    ensures Pow2(2 * n) == v * v
  {
    PowSum(n, n);
  }

  lemma Pow2Of32()
    ensures Pow2(32) == 0x1_0000_0000
  {
    assert Pow2(4) == 16;
    PowDouble(4, 16);
    PowDouble(8, 256);
    PowDouble(16, 65536);
  }

  lemma Pow2Of53()
    ensures Pow2(53) == TWO_53
  {
    Pow2Of32();
    assert Pow2(5) == 32;
    PowDouble(8, 256);
    PowSum(32, 16);
    PowSum(48, 5);
  }

  lemma Pow2Of64()
    ensures Pow2(64) == 0x1_0000_0000_0000_0000
  {
    Pow2Of32();
    PowDouble(32, 0x1_0000_0000);
  }

  lemma DrawInUnit(w: Word)
    ensures 0.0 <= Draw(w) < 1.0
  {
    ValueBelow(w[11..]);
    Pow2Of53();
  }

  lemma {:induction false} ValueOfBits(n: nat, width: nat)
    requires n < Pow2(width)
    ensures ValueOf(Bits(n, width)) == n
  {
    if width > 0 {
      ValueOfBits(n / 2, width - 1);
    }
  }

  method WordOf(n: nat) returns (w: Word)
    requires n < Pow2(64)
    ensures ValueOf(w) == n
  {
    ValueOfBits(n, 64);
    w := Bits(n, 64);
  }

  lemma {:induction false} ValueOfZeros(n: nat)
    ensures ValueOf(seq(n, _ => false)) == 0
  {
    if n > 0 {
      ValueOfZeros(n - 1);
      assert seq(n, _ => false)[1..] == seq(n - 1, _ => false);
    }
  }

  const GOLDEN: nat := 0x9e3779b97f4a7c15

  // y is x xor (x << k), and x xor (x >> k), bit by bit.
  predicate LeftXor(x: Word, y: Word, k: nat) {
    forall i {:trigger y[i]} :: 0 <= i < 64 ==> y[i] == if i >= k then x[i] != x[i - k] else x[i]
  }

  predicate RightXor(x: Word, y: Word, k: nat) {
    forall i {:trigger y[i]} :: 0 <= i < 64 ==> y[i] == if i + k < 64 then x[i] != x[i + k] else x[i]
  }

  ghost predicate StepsVia(x: Word, a: Word, b: Word, y: Word) {
    LeftXor(x, a, 13) && RightXor(a, b, 7) && LeftXor(b, y, 17)
  }

  // One step of the generator.
  ghost predicate Steps(x: Word, y: Word) {
    exists a, b :: StepsVia(x, a, b, y)
  }

  lemma XorShiftSteps(x: Word)
    ensures Steps(x, XorShift(x))
  {
    var a := MixLeft(x, 13);
    var b := MixRight(a, 7);
    assert StepsVia(x, a, b, XorShift(x));
  }

  lemma {:induction false} ValueSplits(bits: seq<bool>, n: nat)
    requires n <= |bits|
    ensures ValueOf(bits) == ValueOf(bits[..n]) + Pow2(n) * ValueOf(bits[n..])
  {
    if n == 0 {
      assert bits[..0] == [] && bits[0..] == bits;
    } else {
      ValueSplits(bits[1..], n - 1);
      assert bits[..n][1..] == bits[1..][..n - 1] && bits[n..] == bits[1..][n - 1..] && bits[..n][0] == bits[0];
      TwiceProduct(Pow2(n - 1), ValueOf(bits[n..]));
    }
  }

  lemma TwiceProduct(a: nat, b: nat)
    ensures 2 * (a * b) == (2 * a) * b
  {
  }

  // The draw is the word without its lowest eleven bits, as a fraction of 2 to the 53.
  lemma DrawIs(w: Word)
    ensures Draw(w) == (ValueOf(w) / 2048) as real / 9007199254740992.0
  {
    ValueSplits(w, 11);
    ValueBelow(w[..11]);
    assert Pow2(11) == 2048;
    assert ValueOf(w) / 2048 == ValueOf(w[11..]);
  }

  class SeededRand {
    var s: Word

    // hash is the 64-bit hash of the seed string; a zero hash is replaced.
    constructor (hash: Word)
      ensures s != ZERO && (if hash == ZERO then ValueOf(s) == 0x9e3779b97f4a7c15 else s == hash)
    {
      Pow2Of64();
      var golden := WordOf(GOLDEN);
      ValueOfZeros(64);
      s := if hash == ZERO then golden else hash;
    }

    method Next() returns (r: Word)
      modifies this
      ensures s == XorShift(old(s)) == r && Steps(old(s), s)
      ensures old(s) != ZERO ==> s != ZERO
    {
      XorShiftZeroIff(s);
      XorShiftSteps(s);
      s := MixLeft(s, 13);
      s := MixRight(s, 7);
      s := MixLeft(s, 17);
      r := s;
    }

    method F() returns (f: real)
      modifies this
      ensures s == XorShift(old(s)) && Steps(old(s), s)
      ensures f == Draw(s) == (ValueOf(s) / 2048) as real / 9007199254740992.0 && 0.0 <= f < 1.0
      ensures old(s) != ZERO ==> s != ZERO
    {
      var n := Next();
      DrawInUnit(n);
      DrawIs(n);
      f := Draw(n);
    }
  }

  /******* Selection *******/

  datatype Keyed = Keyed(src: Source, key: real)

  // The first k entries are the k largest keys, in descending order.
  ghost predicate TopFirst(keys: seq<Keyed>, k: nat) {
    forall i, j :: 0 <= i < k && i < j < |keys| ==> keys[i].key >= keys[j].key
  }

  method MaxFrom(keys: array<Keyed>, i: nat) returns (maxIdx: nat)
    requires i < keys.Length
    ensures i <= maxIdx < keys.Length
    ensures forall l :: i <= l < keys.Length ==> keys[maxIdx].key >= keys[l].key
  {
    maxIdx := i;
    for j := i + 1 to keys.Length
      invariant i <= maxIdx < j
      invariant forall l :: i <= l < j ==> keys[maxIdx].key >= keys[l].key
    {
      if keys[j].key > keys[maxIdx].key {
        maxIdx := j;
      }
    }
  }

  function Swapped(a: seq<Keyed>, i: nat, m: nat): seq<Keyed>
    requires i < |a| && m < |a|
  {
    a[i := a[m]][m := a[i]]
  }

  lemma SwapRanks(a: seq<Keyed>, i: nat, m: nat)
    requires i <= m < |a| && TopFirst(a, i) && forall l :: i <= l < |a| ==> a[m].key >= a[l].key
    ensures multiset(Swapped(a, i, m)) == multiset(a) && TopFirst(Swapped(a, i, m), i + 1)
  {
    var b := Swapped(a, i, m);
    forall p, j | 0 <= p < i + 1 && p < j < |b| ensures b[p].key >= b[j].key {
      var j' := if j == i then m else if j == m then i else j;
      assert b[j] == a[j'];
    }
  }

  // Selection of the k largest keys in place, by repeated maximum and swap.
  method SelectTop(keys: array<Keyed>, k: nat)
    requires k <= keys.Length
    modifies keys
    ensures multiset(keys[..]) == multiset(old(keys[..]))
    ensures TopFirst(keys[..], k)
  {
    for i := 0 to k
      invariant multiset(keys[..]) == multiset(old(keys[..]))
      invariant TopFirst(keys[..], i)
    {
      var maxIdx := MaxFrom(keys, i);
      SwapRanks(keys[..], i, maxIdx);
      ghost var next := Swapped(keys[..], i, maxIdx);
      keys[i], keys[maxIdx] := keys[maxIdx], keys[i];
      assert keys[..] == next;
    }
  }

  predicate DistinctNames(sources: seq<Source>) {
    forall i, j :: 0 <= i < j < |sources| ==> sources[i].name != sources[j].name
  }

  function DedupFrom(sources: seq<Source>, seen: set<string>): seq<Source> {
    if sources == [] then []
    else if sources[0].name in seen then DedupFrom(sources[1..], seen)
    else [sources[0]] + DedupFrom(sources[1..], seen + {sources[0].name})
  }

  predicate NameBefore(list: seq<Source>, i: nat)
    requires i < |list|
  {
    exists j :: 0 <= j < i && list[j].name == list[i].name
  }

  // What is left of a list without repeated names: the first source of each name, in order.
  predicate FirstOfNames(list: seq<Source>, out: seq<Source>) {
    if list == [] then out == []
    else
      var last := |list| - 1;
      if NameBefore(list, last) then FirstOfNames(list[..last], out)
      else out != [] && out[|out| - 1] == list[last] && FirstOfNames(list[..last], out[..|out| - 1])
  }

  lemma {:induction false} DedupSnoc(list: seq<Source>, seen: set<string>, s: Source)
    ensures DedupFrom(list + [s], seen) ==
            DedupFrom(list, seen) + if s.name in seen || (exists j :: 0 <= j < |list| && list[j].name == s.name)
                                    then [] else [s]
  {
    if list == [] {
      assert list + [s] == [s] && [s][1..] == [];
    } else {
      var first, rest := list[0], list[1..];
      assert (list + [s])[0] == first && (list + [s])[1..] == rest + [s];
      var seen' := if first.name in seen then seen else seen + {first.name};
      DedupSnoc(rest, seen', s);
      assert (exists j :: 0 <= j < |list| && list[j].name == s.name) <==>
             first.name == s.name || exists j :: 0 <= j < |rest| && rest[j].name == s.name by {
        if j :| 0 < j < |list| && list[j].name == s.name { assert rest[j - 1].name == s.name; }
        if j :| 0 <= j < |rest| && rest[j].name == s.name { assert list[j + 1].name == s.name; }
      }
    }
  }

  lemma {:induction false} DedupIsFirstOfNames(list: seq<Source>)
    ensures FirstOfNames(list, DedupFrom(list, {}))
  {
    if list != [] {
      var front, s := list[..|list| - 1], list[|list| - 1];
      DedupIsFirstOfNames(front);
      DedupSnoc(front, {}, s);
      assert front + [s] == list;
      var kept := DedupFrom(front, {});
      assert NameBefore(list, |list| - 1) <==> exists j :: 0 <= j < |front| && front[j].name == s.name;
      assert (kept + [s])[..|kept|] == kept && kept + [] == kept;
    }
  }

  method DedupByName(sources: seq<Source>) returns (out: seq<Source>)
    ensures out == DedupFrom(sources, {}) && FirstOfNames(sources, out)
  {
    DedupIsFirstOfNames(sources);
    var seen := {};
    out := [];
    for i := 0 to |sources|
      invariant DedupFrom(sources, {}) == out + DedupFrom(sources[i..], seen)
    {
      assert sources[i..][1..] == sources[i + 1..];
      var s := sources[i];
      if s.name in seen {
        continue;
      }
      seen := seen + {s.name};
      Regroup(out, [s], DedupFrom(sources[i + 1..], seen));
      out := out + [s];
    }
  }

  // One source per name.
  lemma {:induction false} DedupIsDistinct(sources: seq<Source>, seen: set<string>)
    ensures DistinctNames(DedupFrom(sources, seen))
    ensures forall s :: s in DedupFrom(sources, seen) ==> s in sources && s.name !in seen
  {
    if sources != [] {
      var s, rest := sources[0], sources[1..];
      assert sources == [s] + rest;
      DedupIsDistinct(rest, if s.name in seen then seen else seen + {s.name});
    }
  }

  // No name is lost.
  lemma {:induction false} DedupKeepsNames(sources: seq<Source>, seen: set<string>, i: nat)
    requires i < |sources| && sources[i].name !in seen
    ensures exists t :: t in DedupFrom(sources, seen) && t.name == sources[i].name
  {
    var s, rest := sources[0], sources[1..];
    if s.name in seen {
      DedupKeepsNames(rest, seen, i - 1);
    } else if s.name == sources[i].name {
      assert DedupFrom(sources, seen)[0] == s;
    } else {
      DedupKeepsNames(rest, seen + {s.name}, i - 1);
      var t :| t in DedupFrom(rest, seen + {s.name}) && t.name == sources[i].name;
      assert t in DedupFrom(sources, seen);
    }
  }

  lemma RestDistinct(sources: seq<Source>)
    requires DistinctNames(sources) && sources != []
    ensures DistinctNames(sources[1..]) && forall s :: s in sources[1..] ==> s.name != sources[0].name
  {
  }

  // Nothing is dropped when the names are distinct.
  lemma {:induction false} DedupOfDistinct(sources: seq<Source>, seen: set<string>)
    requires DistinctNames(sources) && forall s :: s in sources ==> s.name !in seen
    ensures DedupFrom(sources, seen) == sources
  {
    if sources != [] {
      var first, rest := sources[0], sources[1..];
      assert sources == [first] + rest;
      RestDistinct(sources);
      forall s | s in rest ensures s.name !in seen + {first.name} { assert s in sources; }
      DedupOfDistinct(rest, seen + {first.name});
    }
  }

  // The key of one source: u^(1/w), with tiny stand-ins for a weight or a draw that is not positive.
  function KeyOf(pow: (real, real) -> real, draw: real, weight: real): real {
    var w := if weight <= 0.0 then 0.000000001 else weight;
    var u := if draw <= 0.0 then 0.000000000001 else draw;
    pow(u, 1.0 / w)
  }

  function KeyAt(sources: seq<Source>, weights: seq<real>, s: Word, pow: (real, real) -> real, i: nat): Keyed
    requires i < |sources| == |weights|
  {
    Keyed(sources[i], KeyOf(pow, Draw(After(s, i + 1)), weights[i]))
  }

  // The sources with their keys, one draw each in list order.
  function KeyedList(sources: seq<Source>, weights: seq<real>, s: Word, pow: (real, real) -> real): seq<Keyed>
    requires |weights| == |sources|
  {
    seq(|sources|, i requires 0 <= i < |sources| => KeyAt(sources, weights, s, pow, i))
  }

  function SourcesOf(keys: seq<Keyed>): seq<Source> {
    seq(|keys|, i requires 0 <= i < |keys| => keys[i].src)
  }

  ghost predicate DistinctKeyed(keys: seq<Keyed>) {
    forall i, j :: 0 <= i < j < |keys| ==> keys[i].src.name != keys[j].src.name
  }

  lemma {:induction false} DistinctPermuted(xs: seq<Keyed>, ys: seq<Keyed>)
    requires multiset(xs) == multiset(ys) && DistinctKeyed(xs)
    ensures DistinctKeyed(ys)
    decreases |xs|
  {
    if xs == [] {
      assert |multiset(ys)| == 0;
    } else {
      var before, after := FindFirst(xs, ys);
      DistinctPermuted(xs[1..], before + after);
      SameMembers(xs[1..], before + after);
      var x, n := xs[0], |before|;
      assert forall y :: y in xs[1..] ==> y.src.name != x.src.name;
      forall i, j | 0 <= i < j < |ys| ensures ys[i].src.name != ys[j].src.name {
        var rest := before + after;
        assert i != n ==> ys[i] == rest[if i < n then i else i - 1];
        assert j != n ==> ys[j] == rest[if j < n then j else j - 1];
        assert i != n ==> ys[i] in rest;
        assert j != n ==> ys[j] in rest;
      }
    }
  }

  // What a sample is: sources of distinct names from the list, and as many as asked when the list has
  // no repeated name.
  ghost predicate SampleOf(out: seq<Source>, sources: seq<Source>, k: int) {
    && DistinctNames(out)
    && (forall s :: s in out ==> s in sources)
    && (DistinctNames(sources) ==> |out| == if k <= 0 then 0 else if k < |sources| then k else |sources|)
  }

  lemma SampledFromRanked(sources: seq<Source>, keyed: seq<Keyed>, ranked: seq<Keyed>, k: nat)
    requires k <= |ranked| == |sources| == |keyed| && multiset(ranked) == multiset(keyed)
    requires forall i :: 0 <= i < |keyed| ==> keyed[i].src == sources[i]
    ensures SampleOf(DedupFrom(SourcesOf(ranked[..k]), {}), sources, k)
  {
    var picked := SourcesOf(ranked[..k]);
    DedupIsDistinct(picked, {});
    SameMembers(keyed, ranked);
    forall s | s in picked ensures s in sources {
      var i :| 0 <= i < k && picked[i] == s;
      assert ranked[i] in keyed;
    }
    if DistinctNames(sources) {
      DistinctPermuted(keyed, ranked);
      DedupOfDistinct(picked, {});
    }
  }

  // The words the generator goes through from s, without s itself.
  ghost predicate Words(s: Word, ws: seq<Word>) {
    ws == [] || (Words(s, ws[..|ws| - 1]) && Steps(if |ws| == 1 then s else ws[|ws| - 2], ws[|ws| - 1]))
  }

  // A source's key is its draw to the inverse of its weight; a weight that is not positive counts as 1e-9, and a draw
  // of zero as 1e-12.
  predicate HasKey(k: Keyed, source: Source, word: Word, weight: real, pow: (real, real) -> real) {
    var u := (ValueOf(word) / 2048) as real / 9007199254740992.0;
    k == Keyed(source, pow(if u <= 0.0 then 0.000000000001 else u,
                           1.0 / if weight <= 0.0 then 0.000000001 else weight))
  }

  ghost predicate WeighedBy(sources: seq<Source>, weights: seq<real>, s: Word, pow: (real, real) -> real,
                            keyed: seq<Keyed>, ws: seq<Word>)
    requires |weights| == |sources|
  {
    && Words(s, ws) && |ws| == |keyed| == |sources|
    && forall i :: 0 <= i < |keyed| ==> HasKey(keyed[i], sources[i], ws[i], weights[i], pow)
  }

  // Each source has the key of the draw that is its own.
  ghost predicate Weighed(sources: seq<Source>, weights: seq<real>, s: Word, pow: (real, real) -> real,
                          keyed: seq<Keyed>)
    requires |weights| == |sources|
  {
    exists ws :: WeighedBy(sources, weights, s, pow, keyed, ws)
  }

  lemma KeyAtHas(sources: seq<Source>, weights: seq<real>, s: Word, pow: (real, real) -> real, i: nat, word: Word)
    requires i < |sources| == |weights| && word == After(s, i + 1)
    ensures HasKey(KeyAt(sources, weights, s, pow, i), sources[i], word, weights[i], pow)
  {
    DrawIs(word);
  }

  lemma AfterSteps(s: Word, i: nat)
    ensures Steps(After(s, i), After(s, i + 1))
  {
    XorShiftSteps(After(s, i));
  }

  lemma WordsSnoc(s: Word, ws: seq<Word>, w: Word)
    requires Words(s, ws) && Steps(if ws == [] then s else ws[|ws| - 1], w)
    ensures Words(s, ws + [w])
  {
    assert (ws + [w])[..|ws|] == ws;
  }

  lemma {:induction false} WordsFrom(s: Word, n: nat) returns (ws: seq<Word>)
    ensures |ws| == n && Words(s, ws) && forall i :: 0 <= i < n ==> ws[i] == After(s, i + 1)
  {
    ws := [];
    if n > 0 {
      var front := WordsFrom(s, n - 1);
      AfterSteps(s, n - 1);
      WordsSnoc(s, front, After(s, n));
      ws := front + [After(s, n)];
    }
  }

  lemma KeyedWeighed(sources: seq<Source>, weights: seq<real>, s: Word, pow: (real, real) -> real)
    requires |weights| == |sources|
    ensures Weighed(sources, weights, s, pow, KeyedList(sources, weights, s, pow))
  {
    var ws := WordsFrom(s, |sources|);
    var keyed := KeyedList(sources, weights, s, pow);
    forall i | 0 <= i < |sources| ensures HasKey(keyed[i], sources[i], ws[i], weights[i], pow) {
      KeyAtHas(sources, weights, s, pow, i, ws[i]);
    }
    assert WeighedBy(sources, weights, s, pow, keyed, ws);
  }

  // A weighted sample of k sources: the sources of the k largest keys, or all sources, without repeated names.
  ghost predicate Sampled(sources: seq<Source>, weights: seq<real>, k: int, s: Word, pow: (real, real) -> real,
                          out: seq<Source>)
    requires |weights| == |sources|
  {
    if k <= 0 || sources == [] then out == []
    else if k >= |sources| then FirstOfNames(sources, out)
    else exists keyed, ranked :: Weighed(sources, weights, s, pow, keyed) && multiset(ranked) == multiset(keyed)
                                 && TopFirst(ranked, k) && k <= |ranked|
                                 && FirstOfNames(SourcesOf(ranked[..k]), out)
  }

  lemma RankedIsSample(sources: seq<Source>, weights: seq<real>, k: nat, s: Word, pow: (real, real) -> real,
                       keyed: seq<Keyed>, ranked: seq<Keyed>, out: seq<Source>)
    requires |weights| == |sources| == |ranked| && 0 < k < |sources| && Weighed(sources, weights, s, pow, keyed)
    requires multiset(ranked) == multiset(keyed) && TopFirst(ranked, k)
    requires FirstOfNames(SourcesOf(ranked[..k]), out)
    ensures Sampled(sources, weights, k, s, pow, out)
  {
  }

  // The key of source i, from the draw that is due.
  method DrawKey(sources: seq<Source>, weights: seq<real>, rng: SeededRand, pow: (real, real) -> real,
                 ghost seed: Word, i: nat) returns (key: Keyed)
    requires i < |sources| == |weights| && rng.s == After(seed, i)
    modifies rng
    ensures rng.s == After(seed, i + 1) && key == KeyAt(sources, weights, seed, pow, i)
  {
    var u := rng.F();
    key := Keyed(sources[i], KeyOf(pow, u, weights[i]));
  }

  // One key for each source, from one draw each.
  method DrawKeys(sources: seq<Source>, weights: seq<real>, rng: SeededRand, pow: (real, real) -> real)
    returns (keys: seq<Keyed>)
    requires |weights| == |sources|
    modifies rng
    ensures keys == KeyedList(sources, weights, old(rng.s), pow)
    ensures rng.s == After(old(rng.s), |sources|)
  {
    keys := [];
    ghost var seed := rng.s;
    ghost var drawn := KeyedList(sources, weights, seed, pow);
    for i := 0 to |sources|
      invariant rng.s == After(seed, i) && |keys| == i
      invariant keys == drawn[..i]
    {
      var key := DrawKey(sources, weights, rng, pow, seed, i);
      assert drawn[..i + 1] == drawn[..i] + [drawn[i]];
      keys := keys + [key];
    }
    assert drawn[..|sources|] == drawn;
  }

  // A sample of k sources: ranked is the list the selection leaves, whose first k entries are taken.
  method WeightedSample(sources: seq<Source>, weights: seq<real>, k: int, rng: SeededRand,
                        pow: (real, real) -> real)
    returns (out: seq<Source>, ghost ranked: seq<Keyed>)
    requires |weights| == |sources|
    modifies rng
    ensures k <= 0 || sources == [] ==> out == []
    ensures k >= |sources| > 0 ==> out == DedupFrom(sources, {})
    ensures 0 < k < |sources| ==>
              && |ranked| == |sources|
              && multiset(ranked) == multiset(KeyedList(sources, weights, old(rng.s), pow))
              && TopFirst(ranked, k)
              && out == DedupFrom(SourcesOf(ranked[..k]), {})
    ensures SampleOf(out, sources, k)
    ensures Sampled(sources, weights, k, old(rng.s), pow, out)
    ensures rng.s == After(old(rng.s), if 0 < k < |sources| then |sources| else 0)
    ensures old(rng.s) != ZERO ==> rng.s != ZERO
  {
    ranked := [];
    DedupIsDistinct(sources, {});
    if DistinctNames(sources) {
      DedupOfDistinct(sources, {});
    }
    var n := |sources|;
    if k <= 0 || n == 0 {
      return [], [];
    }
    if k >= n {
      out := DedupByName(sources);
      return;
    }
    var list := DrawKeys(sources, weights, rng, pow);
    NeverZero(old(rng.s), n);
    var keys := new Keyed[n](i requires 0 <= i < n => list[i]);
    assert keys[..] == list;
    SelectTop(keys, k);
    ranked := keys[..];
    SampledFromRanked(sources, KeyedList(sources, weights, old(rng.s), pow), ranked, k);
    var picked := SourcesOf(keys[..k]);
    out := DedupByName(picked);
    KeyedWeighed(sources, weights, old(rng.s), pow);
    RankedIsSample(sources, weights, k, old(rng.s), pow, list, ranked, out);
  }

  /******* The sampled sources of a request *******/

  datatype SampleConfig = SampleConfig(sources: seq<Source>, tpi: seq<Source>, liteCount: int, enrichedCount: int)

  function OfKind(sources: seq<Source>, kind: string): seq<Source> {
    if sources == [] then []
    else (if sources[0].enabled && sources[0].kind == kind then [sources[0]] else []) + OfKind(sources[1..], kind)
  }

  function Enabled(sources: seq<Source>): seq<Source> {
    if sources == [] then [] else (if sources[0].enabled then [sources[0]] else []) + Enabled(sources[1..])
  }

  function Weights(sources: seq<Source>): seq<real> {
    seq(|sources|, i requires 0 <= i < |sources| => sources[i].weight)
  }

  predicate IsLite(s: Source) { s.enabled && s.kind == "LITE" }

  predicate IsEnriched(s: Source) { s.enabled && s.kind == "ENRICHED" }

  predicate IsEnabled(s: Source) { s.enabled }

  lemma {:induction false} OfKindSieved(sources: seq<Source>)
    ensures Sieved(sources, IsLite, OfKind(sources, "LITE"))
    ensures Sieved(sources, IsEnriched, OfKind(sources, "ENRICHED"))
  {
    if sources != [] {
      OfKindSieved(sources[1..]);
      var lite, enriched := OfKind(sources[1..], "LITE"), OfKind(sources[1..], "ENRICHED");
      assert ([sources[0]] + lite)[1..] == lite && [] + lite == lite;
      assert ([sources[0]] + enriched)[1..] == enriched && [] + enriched == enriched;
    }
  }

  lemma {:induction false} EnabledSieved(sources: seq<Source>)
    ensures Sieved(sources, IsEnabled, Enabled(sources))
  {
    if sources != [] {
      EnabledSieved(sources[1..]);
      var rest := Enabled(sources[1..]);
      assert ([sources[0]] + rest)[1..] == rest && [] + rest == rest;
    }
  }

  method SplitByKind(sources: seq<Source>) returns (lite: seq<Source>, enriched: seq<Source>)
    ensures lite == OfKind(sources, "LITE") && enriched == OfKind(sources, "ENRICHED")
  {
    lite, enriched := [], [];
    for i := 0 to |sources|
      invariant OfKind(sources, "LITE") == lite + OfKind(sources[i..], "LITE")
      invariant OfKind(sources, "ENRICHED") == enriched + OfKind(sources[i..], "ENRICHED")
    {
      assert sources[i..][1..] == sources[i + 1..];
      var s := sources[i];
      if !s.enabled {
        continue;
      }
      if s.kind == "LITE" {
        Regroup(lite, [s], OfKind(sources[i + 1..], "LITE"));
        lite := lite + [s];
      } else if s.kind == "ENRICHED" {
        Regroup(enriched, [s], OfKind(sources[i + 1..], "ENRICHED"));
        enriched := enriched + [s];
      }
    }
  }

  method OnlyEnabled(sources: seq<Source>) returns (out: seq<Source>)
    ensures out == Enabled(sources) && Sieved(sources, IsEnabled, out)
  {
    EnabledSieved(sources);
    out := [];
    for i := 0 to |sources|
      invariant Enabled(sources) == out + Enabled(sources[i..])
    {
      assert sources[i..][1..] == sources[i + 1..];
      if sources[i].enabled {
        Regroup(out, [sources[i]], Enabled(sources[i + 1..]));
        out := out + [sources[i]];
      }
    }
  }

  // The enabled sources of either kind, each sampled by its own weight and count from one generator: the light ones
  // only where there are as many as asked for, the enriched ones from where the generator stands then.
  ghost predicate MetaFrom(cfg: SampleConfig, hash: Word, pow: (real, real) -> real, lites: seq<Source>,
                           enricheds: seq<Source>, s: Word, lite: seq<Source>, enriched: seq<Source>) {
    && Sieved(cfg.sources, IsLite, lites) && Sieved(cfg.sources, IsEnriched, enricheds)
    && (if hash == ZERO then ValueOf(s) == 0x9e3779b97f4a7c15 else s == hash)
    && Sampled(lites, Weights(lites), if cfg.liteCount <= |lites| then cfg.liteCount else 0, s, pow, lite)
    && Sampled(enricheds, Weights(enricheds), cfg.enrichedCount,
               After(s, if 0 < cfg.liteCount < |lites| then |lites| else 0), pow, enriched)
  }

  lemma MetaIs(cfg: SampleConfig, hash: Word, pow: (real, real) -> real, s: Word,
               lite: seq<Source>, enriched: seq<Source>)
    requires if hash == ZERO then ValueOf(s) == 0x9e3779b97f4a7c15 else s == hash
    requires var from := OfKind(cfg.sources, "LITE");
             Sampled(from, Weights(from), if cfg.liteCount <= |from| then cfg.liteCount else 0, s, pow, lite)
    requires var from, lites := OfKind(cfg.sources, "ENRICHED"), |OfKind(cfg.sources, "LITE")|;
             Sampled(from, Weights(from), cfg.enrichedCount, After(s, if 0 < cfg.liteCount < lites then lites else 0),
                     pow, enriched)
    ensures exists lites, enricheds, s: Word :: MetaFrom(cfg, hash, pow, lites, enricheds, s, lite, enriched)
  {
    var lites, enricheds := OfKind(cfg.sources, "LITE"), OfKind(cfg.sources, "ENRICHED");
    OfKindSieved(cfg.sources);
    assert MetaFrom(cfg, hash, pow, lites, enricheds, s, lite, enriched);
  }

  // Sampling the light sources is all or nothing; the enriched count is cut to what there is.
  method BuildMeta(cfg: SampleConfig, hash: Word, pow: (real, real) -> real)
    returns (lite: seq<Source>, enriched: seq<Source>, tpi: seq<Source>)
    ensures var from := OfKind(cfg.sources, "LITE");
            SampleOf(lite, from, if cfg.liteCount <= |from| then cfg.liteCount else 0)
    ensures SampleOf(enriched, OfKind(cfg.sources, "ENRICHED"), cfg.enrichedCount)
    ensures tpi == Enabled(cfg.tpi) && Sieved(cfg.tpi, IsEnabled, tpi)
    ensures exists lites, enricheds, s: Word :: MetaFrom(cfg, hash, pow, lites, enricheds, s, lite, enriched)
  {
    var lites, enricheds := SplitByKind(cfg.sources);
    var rng := new SeededRand(hash);
    ghost var ranked;
    ghost var s := rng.s;
    lite, enriched := [], [];
    if cfg.liteCount > 0 && |lites| >= cfg.liteCount {
      lite, ranked := WeightedSample(lites, Weights(lites), cfg.liteCount, rng, pow);
    }
    if |enricheds| > 0 {
      var k := if cfg.enrichedCount > |enricheds| then |enricheds| else cfg.enrichedCount;
      enriched, ranked := WeightedSample(enricheds, Weights(enricheds), k, rng, pow);
    }
    tpi := OnlyEnabled(cfg.tpi);
    MetaIs(cfg, hash, pow, s, lite, enriched);
  }
}
