/** The keys under which the one cache table holds persona sections and enrichment documents. The digest is a
    parameter: all that is used of it is that it prints as 32 characters, none of them a colon. */
module CacheKeys {
  const PHONE := "phone"
  const EMAIL := "email"

  ghost predicate Digest(md5: string -> string) {
    forall s :: |md5(s)| == 32 && ':' !in md5(s)
  }

  function TenantPart(tenant: string): string {
    if tenant != "" then ":_" + tenant else ""
  }

  // Only test builds leave hashing off.
  function Key(md5: string -> string, hashing: bool, kind: string, login: string, tenant: string): string {
    kind + ":" + (if hashing then md5(login) else login) + TenantPart(tenant)
  }

  function Joined(parts: seq<string>): string {
    if parts == [] then "" else if |parts| == 1 then parts[0] else parts[0] + ":" + Joined(parts[1..])
  }

  function Present(s: string): seq<string> { if s != "" then [s] else [] }

  function Parts(phone: string, email: string, name: string): seq<string> {
    Present(phone) + Present(email) + Present(name)
  }

  function EnrichKey(md5: string -> string, phone: string, email: string, name: string): string {
    md5(Joined(Parts(phone, email, name)))
  }

  lemma FirstColon(a: string, b: string)
    requires ':' !in a
    ensures (a + ":" + b)[|a|] == ':' && forall i :: 0 <= i < |a| ==> (a + ":" + b)[i] != ':'
    ensures (a + ":" + b)[..|a|] == a && (a + ":" + b)[|a| + 1..] == b
  {
  }

  lemma SplitAtColon(a: string, b: string, c: string, d: string)
    requires ':' !in a && ':' !in c && a + ":" + b == c + ":" + d
    ensures a == c && b == d
  {
    FirstColon(a, b);
    FirstColon(c, d);
  }

  // Two section keys are the same exactly when kind, tenant and digest of the login are.
  lemma KeysEqualIff(md5: string -> string, k1: string, l1: string, t1: string, k2: string, l2: string, t2: string)
    requires Digest(md5) && ':' !in k1 && ':' !in k2
    ensures Key(md5, true, k1, l1, t1) == Key(md5, true, k2, l2, t2) <==>
            k1 == k2 && t1 == t2 && md5(l1) == md5(l2)
  {
    var r1, r2 := md5(l1) + TenantPart(t1), md5(l2) + TenantPart(t2);
    assert Key(md5, true, k1, l1, t1) == k1 + ":" + r1;
    assert Key(md5, true, k2, l2, t2) == k2 + ":" + r2;
    if Key(md5, true, k1, l1, t1) == Key(md5, true, k2, l2, t2) {
      SplitAtColon(k1, r1, k2, r2);
      assert md5(l1) == r1[..32] && md5(l2) == r2[..32];
      assert TenantPart(t1) == r1[32..] && TenantPart(t2) == r2[32..];
      TenantPartInjective(t1, t2);
    }
  }

  lemma TenantPartInjective(t1: string, t2: string)
    requires TenantPart(t1) == TenantPart(t2)
    ensures t1 == t2
  {
    if t1 != "" { assert t1 == TenantPart(t1)[2..]; }
    if t2 != "" { assert t2 == TenantPart(t2)[2..]; }
  }

  // A section and an enrichment document never share a slot of the table.
  lemma SectionKeyNotEnrichKey(md5: string -> string, kind: string, login: string, tenant: string,
                               phone: string, email: string, name: string)
    requires Digest(md5)
    ensures Key(md5, true, kind, login, tenant) != EnrichKey(md5, phone, email, name)
  {
    assert Key(md5, true, kind, login, tenant)[|kind|] == ':';
  }

  // The second login is the first one with the beginning of its tenant part, and that part goes on with the
  // second one's.
  predicate Absorbs(l1: string, t1: string, l2: string, t2: string) {
    l1 <= l2 && TenantPart(t1) == l2[|l1|..] + TenantPart(t2)
  }

  lemma AbsorbsOfEqual(a: string, x: string, b: string, y: string)
    requires |a| <= |b| && a + x == b + y
    ensures a <= b && x == b[|a|..] + y
  {
    assert a == (a + x)[..|a|] && b[..|a|] == (b + y)[..|a|];
    assert x == (a + x)[|a|..] && b[|a|..] + y == (b + y)[|a|..];
  }

  lemma EqualOfAbsorbs(a: string, x: string, b: string, y: string)
    requires a <= b && x == b[|a|..] + y
    ensures a + x == b + y
  {
    assert b == a + b[|a|..];
    assert a + (b[|a|..] + y) == (a + b[|a|..]) + y;
  }

  lemma AbsorbedKey(l1: string, t1: string, l2: string, t2: string)
    ensures |l1| <= |l2| && l1 + TenantPart(t1) == l2 + TenantPart(t2) <==> Absorbs(l1, t1, l2, t2)
  {
    if |l1| <= |l2| && l1 + TenantPart(t1) == l2 + TenantPart(t2) {
      AbsorbsOfEqual(l1, TenantPart(t1), l2, TenantPart(t2));
    } else if Absorbs(l1, t1, l2, t2) {
      EqualOfAbsorbs(l1, TenantPart(t1), l2, TenantPart(t2));
    }
  }

  // Without hashing, two keys of a kind are the same exactly when one login absorbs the other; logins without a
  // colon never do, unless login and tenant are the same.
  lemma RawKeysEqualIff(md5: string -> string, k1: string, l1: string, t1: string, k2: string, l2: string, t2: string)
    requires ':' !in k1 && ':' !in k2
    ensures Key(md5, false, k1, l1, t1) == Key(md5, false, k2, l2, t2) <==>
            k1 == k2 && (Absorbs(l1, t1, l2, t2) || Absorbs(l2, t2, l1, t1))
    ensures ':' !in l1 && ':' !in l2 && Key(md5, false, k1, l1, t1) == Key(md5, false, k2, l2, t2) ==>
              l1 == l2 && t1 == t2
  {
    var r1, r2 := l1 + TenantPart(t1), l2 + TenantPart(t2);
    assert Key(md5, false, k1, l1, t1) == k1 + ":" + r1 && Key(md5, false, k2, l2, t2) == k2 + ":" + r2;
    AbsorbedKey(l1, t1, l2, t2);
    AbsorbedKey(l2, t2, l1, t1);
    if Key(md5, false, k1, l1, t1) == Key(md5, false, k2, l2, t2) {
      SplitAtColon(k1, r1, k2, r2);
      if ':' !in l1 && ':' !in l2 {
        if Absorbs(l1, t1, l2, t2) {
          ColonFreeAbsorbs(l1, t1, l2, t2);
        } else {
          ColonFreeAbsorbs(l2, t2, l1, t1);
        }
      }
    }
  }

  lemma ColonFreeAbsorbs(l1: string, t1: string, l2: string, t2: string)
    requires Absorbs(l1, t1, l2, t2) && ':' !in l2
    ensures l1 == l2 && t1 == t2
  {
    var x, y := l2[|l1|..], TenantPart(t2);
    assert forall c :: c in x ==> c in l2;
    assert x + y != "" ==> (x + y)[0] == ':';
    assert x == "" && x + y == y;
    assert l2 == l1 + x == l1;
    TenantPartInjective(t1, t2);
  }

  // So a login that itself looks like one with a tenant shares that one's slot.
  lemma RawKeysCollide(md5: string -> string, kind: string, login: string, tenant: string)
    requires tenant != "" && ':' !in kind
    ensures Key(md5, false, kind, login + ":_" + tenant, "") == Key(md5, false, kind, login, tenant)
    ensures login + ":_" + tenant != login
  {
    var l2 := login + ":_" + tenant;
    assert |l2| > |login| && l2[|login|..] == TenantPart(tenant);
    assert TenantPart(tenant) + TenantPart("") == TenantPart(tenant);
    RawKeysEqualIff(md5, kind, login, tenant, kind, l2, "");
  }

  /******* The text under the digest of an enrichment key *******/

  // A text cut at its colons.
  function Pieces(s: string): (ps: seq<string>)
    ensures ps != []
  {
    if s == "" then [""]
    else if s[0] == ':' then [""] + Pieces(s[1..])
    else Prefixed(s[0], Pieces(s[1..]))
  }

  function AllPieces(parts: seq<string>): seq<string> {
    if parts == [] then [] else Pieces(parts[0]) + AllPieces(parts[1..])
  }

  // One character put in front of the first piece.
  function Prefixed(c: char, ps: seq<string>): seq<string>
    requires ps != []
  {
    [[c] + ps[0]] + ps[1..]
  }

  lemma JoinedPrefixed(c: char, ps: seq<string>)
    requires ps != []
    ensures Joined(Prefixed(c, ps)) == [c] + Joined(ps)
  {
    assert Prefixed(c, ps)[1..] == ps[1..];
    if |ps| > 1 {
      assert [c] + ps[0] + ":" + Joined(ps[1..]) == [c] + (ps[0] + ":" + Joined(ps[1..]));
    }
  }

  lemma JoinedAfterColon(ps: seq<string>)
    requires ps != []
    ensures Joined([""] + ps) == ":" + Joined(ps)
  {
    assert ([""] + ps)[1..] == ps;
    assert "" + ":" + Joined(ps) == ":" + Joined(ps);
  }

  lemma {:induction false} JoinedPieces(s: string)
    ensures Joined(Pieces(s)) == s
  {
    if s != "" {
      JoinedPieces(s[1..]);
      assert s == [s[0]] + s[1..];
      if s[0] == ':' {
        JoinedAfterColon(Pieces(s[1..]));
      } else {
        JoinedPrefixed(s[0], Pieces(s[1..]));
      }
    }
  }

  lemma PrefixedConcat(c: char, ps: seq<string>, qs: seq<string>)
    requires ps != []
    ensures Prefixed(c, ps + qs) == Prefixed(c, ps) + qs
  {
    assert (ps + qs)[1..] == ps[1..] + qs;
  }

  lemma PiecesOfCons(c: char, t: string)
    ensures Pieces([c] + t) == PutFirst(c, Pieces(t))
  {
    assert ([c] + t)[1..] == t;
  }

  function PutFirst(c: char, ps: seq<string>): seq<string>
    requires ps != []
  {
    if c == ':' then [""] + ps else Prefixed(c, ps)
  }

  lemma PutFirstConcat(c: char, ps: seq<string>, more: seq<string>)
    requires ps != []
    ensures PutFirst(c, ps + more) == PutFirst(c, ps) + more
  {
    if c == ':' {
      assert [""] + (ps + more) == ([""] + ps) + more;
    } else {
      PrefixedConcat(c, ps, more);
    }
  }

  // If u falls into the pieces of t and more, so do they with one character in front.
  lemma PiecesOfLonger(c: char, t: string, u: string, more: seq<string>)
    requires Pieces(u) == Pieces(t) + more
    ensures Pieces([c] + u) == Pieces([c] + t) + more
  {
    PiecesOfCons(c, u);
    PiecesOfCons(c, t);
    PutFirstConcat(c, Pieces(t), more);
  }

  lemma {:induction false} PiecesOfJoin(a: string, b: string)
    ensures Pieces(a + ":" + b) == Pieces(a) + Pieces(b)
  {
    if a == "" {
      PiecesOfCons(':', b);
      assert a + ":" + b == [':'] + b;
    } else {
      PiecesOfJoin(a[1..], b);
      PiecesOfLonger(a[0], a[1..], a[1..] + ":" + b, Pieces(b));
      assert [a[0]] + a[1..] == a && [a[0]] + (a[1..] + ":" + b) == a + ":" + b;
    }
  }

  lemma {:induction false} PiecesOfJoined(parts: seq<string>)
    requires parts != []
    ensures Pieces(Joined(parts)) == AllPieces(parts)
  {
    if |parts| == 1 {
      assert parts[1..] == [];
    } else {
      PiecesOfJoined(parts[1..]);
      PiecesOfJoin(parts[0], Joined(parts[1..]));
    }
  }

  lemma {:induction false} PiecesOfNone(parts: seq<string>)
    requires forall i :: 0 <= i < |parts| ==> parts[i] != ""
    ensures Joined(parts) == "" <==> parts == []
    ensures AllPieces(parts) == [] <==> parts == []
  {
  }

  // Lists of non-empty values have the same text exactly when they fall into the same pieces at their colons.
  lemma JoinedEqualIff(xs: seq<string>, ys: seq<string>)
    requires forall i :: 0 <= i < |xs| ==> xs[i] != ""
    requires forall i :: 0 <= i < |ys| ==> ys[i] != ""
    ensures Joined(xs) == Joined(ys) <==> AllPieces(xs) == AllPieces(ys)
  {
    PiecesOfNone(xs);
    PiecesOfNone(ys);
    if xs != [] && ys != [] {
      PiecesOfJoined(xs);
      PiecesOfJoined(ys);
      JoinedPieces(Joined(xs));
      JoinedPieces(Joined(ys));
    }
  }

  lemma {:induction false} PiecesOfColonFree(parts: seq<string>)
    requires forall i :: 0 <= i < |parts| ==> ':' !in parts[i]
    ensures AllPieces(parts) == parts
  {
    if parts != [] {
      OnePiece(parts[0]);
      PiecesOfColonFree(parts[1..]);
      assert parts == [parts[0]] + parts[1..];
    }
  }

  lemma {:induction false} OnePiece(s: string)
    requires ':' !in s
    ensures Pieces(s) == [s]
  {
    if s != "" {
      OnePiece(s[1..]);
      assert s == [s[0]] + s[1..];
    }
  }

  // Main result: two requests have the same text under the digest exactly when their values, in order and with the
  // empty ones left out, fall into the same pieces at their colons; without colons, when those lists are equal.
  lemma SameTextIff(p1: string, e1: string, n1: string, p2: string, e2: string, n2: string)
    ensures Joined(Parts(p1, e1, n1)) == Joined(Parts(p2, e2, n2)) <==>
            AllPieces(Parts(p1, e1, n1)) == AllPieces(Parts(p2, e2, n2))
    ensures ColonFree(p1, e1, n1) && ColonFree(p2, e2, n2) ==>
              (Joined(Parts(p1, e1, n1)) == Joined(Parts(p2, e2, n2)) <==> Parts(p1, e1, n1) == Parts(p2, e2, n2))
  {
    JoinedEqualIff(Parts(p1, e1, n1), Parts(p2, e2, n2));
    if ColonFree(p1, e1, n1) && ColonFree(p2, e2, n2) {
      PiecesOfColonFree(Parts(p1, e1, n1));
      PiecesOfColonFree(Parts(p2, e2, n2));
    }
  }

  predicate ColonFree(phone: string, email: string, name: string) {
    ':' !in phone && ':' !in email && ':' !in name
  }

  lemma JoinedFront(a: string, rest: seq<string>)
    requires a != "" ==> rest == [] || Joined(rest) != ""
    ensures Joined(Present(a) + rest) == a + (if a != "" && Joined(rest) != "" then ":" else "") + Joined(rest)
  {
    if a == "" {
      assert Present(a) + rest == rest;
      assert Joined(rest) == "" + "" + Joined(rest);
    } else {
      assert (Present(a) + rest)[1..] == rest;
    }
  }

  // The text: the values there are, in this order, with a colon between any two.
  lemma EnrichTextIs(md5: string -> string, phone: string, email: string, name: string)
    ensures var address := email + (if email != "" && name != "" then ":" else "") + name;
            EnrichKey(md5, phone, email, name) ==
            md5(phone + (if phone != "" && address != "" then ":" else "") + address)
  {
    assert Present(name) + [] == Present(name);
    JoinedFront(name, []);
    JoinedFront(email, Present(name));
    JoinedFront(phone, Present(email) + Present(name));
    assert Parts(phone, email, name) == Present(phone) + (Present(email) + Present(name));
  }

  // A lone phone, a lone e-mail address and a lone name of the same text share a document.
  lemma LoneValuesCollide(md5: string -> string, value: string)
    requires value != ""
    ensures EnrichKey(md5, value, "", "") == EnrichKey(md5, "", value, "") == EnrichKey(md5, "", "", value)
  {
    assert Parts(value, "", "") == [value] && Parts("", value, "") == [value] && Parts("", "", value) == [value];
    SameTextIff(value, "", "", "", value, "");
    SameTextIff(value, "", "", "", "", value);
  }
}
