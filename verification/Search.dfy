/** Finding a literal in a text. */
module Search {
  predicate StartsWith(s: string, lit: string) {
    |lit| <= |s| && s[..|lit|] == lit
  }

  // The first place where the literal occurs, or the length of the text.
  function Find(s: string, lit: string): nat {
    if s == "" || StartsWith(s, lit) then 0 else 1 + Find(s[1..], lit)
  }

  lemma {:induction false} FindBounds(s: string, lit: string)
    requires lit != ""
    ensures Find(s, lit) <= |s|
    ensures Find(s, lit) < |s| ==> StartsWith(s[Find(s, lit)..], lit)
  {
    if s != "" && !StartsWith(s, lit) {
      FindBounds(s[1..], lit);
    }
  }

  predicate Contains(s: string, lit: string) { Find(s, lit) < |s| }

  predicate OccursAt(s: string, lit: string, i: int) {
    0 <= i && i + |lit| <= |s| && s[i..i + |lit|] == lit
  }

  ghost predicate Occurs(s: string, lit: string) {
    exists i :: OccursAt(s, lit, i)
  }

  lemma OccursLater(s: string, lit: string, i: int)
    requires OccursAt(s, lit, i) && !StartsWith(s, lit)
    ensures i > 0 && OccursAt(s[1..], lit, i - 1)
  {
    assert s[0..0 + |lit|] == s[..|lit|];
    SliceOfRest(s, i - 1, |lit|);
  }

  lemma SliceOfRest(s: string, i: nat, n: nat)
    requires i + 1 + n <= |s|
    ensures s[1..][i..i + n] == s[i + 1..i + 1 + n]
  {
    var a, b := s[1..][i..i + n], s[i + 1..i + 1 + n];
    forall k | 0 <= k < n ensures a[k] == b[k] {
      assert a[k] == s[1..][i + k] == s[i + k + 1];
    }
  }

  lemma {:induction false} FindIsFirst(s: string, lit: string)
    requires lit != ""
    ensures Find(s, lit) <= |s|
    ensures Find(s, lit) < |s| ==> OccursAt(s, lit, Find(s, lit))
    ensures forall i :: OccursAt(s, lit, i) ==> Find(s, lit) <= i
  {
    if s != "" && !StartsWith(s, lit) {
      var n := Find(s[1..], lit);
      FindIsFirst(s[1..], lit);
      if n < |s[1..]| {
        SliceOfRest(s, n, |lit|);
      }
      forall i | OccursAt(s, lit, i) ensures n + 1 <= i {
        OccursLater(s, lit, i);
      }
    } else if s != "" {
      assert s[0..0 + |lit|] == s[..|lit|];
    }
  }

  lemma ContainsIff(s: string, lit: string)
    requires lit != ""
    ensures Contains(s, lit) <==> Occurs(s, lit)
  {
    FindIsFirst(s, lit);
  }
}
