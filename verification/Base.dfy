/** Shared datatypes and lemmas: optional values, verdicts, and lists in another order. */
module Base {
  datatype Option<+T> = None | Some(value: T)

  // A verdict that may be missing: nil, true or false.
  datatype Answer = Unknown | Yes | No

  // What is left of a list are the elements to keep, one by one in their old order.
  predicate Sieved<T(==)>(was: seq<T>, keep: T -> bool, left: seq<T>) {
    if was == [] then left == []
    else if keep(was[0]) then left != [] && left[0] == was[0] && Sieved(was[1..], keep, left[1..])
    else Sieved(was[1..], keep, left)
  }

  lemma Regroup<T>(a: seq<T>, b: seq<T>, c: seq<T>)
    ensures a + b + c == a + (b + c)
  {
  }

  // The first element of a list, found in a permutation of it.
  lemma FindFirst<T>(xs: seq<T>, ys: seq<T>) returns (before: seq<T>, after: seq<T>)
    requires xs != [] && multiset(xs) == multiset(ys)
    ensures ys == before + [xs[0]] + after && multiset(xs[1..]) == multiset(before + after)
    ensures forall y :: y in ys <==> y in xs
    ensures forall y :: y in before + after ==> y in xs
  {
    var x := xs[0];
    SameMembers(xs, ys);
    assert x in ys;
    var i :| 0 <= i < |ys| && ys[i] == x;
    before, after := ys[..i], ys[i + 1..];
    WithoutOne(ys, i);
    WithoutOne(xs, 0);
    assert xs[..0] + xs[1..] == xs[1..];
    assert forall y :: y in before + after ==> y in ys;
  }

  lemma WithoutOne<T>(s: seq<T>, i: nat)
    requires i < |s|
    ensures s == s[..i] + [s[i]] + s[i + 1..]
    ensures multiset(s[..i] + s[i + 1..]) == multiset(s) - multiset{s[i]}
  {
    assert s == s[..i] + [s[i]] + s[i + 1..];
    assert multiset(s) == multiset(s[..i]) + multiset{s[i]} + multiset(s[i + 1..]);
  }

  lemma SameMembers<T>(xs: seq<T>, ys: seq<T>)
    requires multiset(xs) == multiset(ys)
    ensures forall y :: y in ys <==> y in xs
  {
    assert forall y :: y in ys <==> y in multiset(ys);
    assert forall y :: y in xs <==> y in multiset(xs);
  }
}
