/** What the conditions mean, for every text: where it is cut, what the pattern reads in each part, and when the
    whole of it is accepted. */
module Grammar {
  import opened Base
  import opened Condition
  import opened JsonValue
  import opened Search

  /******* Trimming *******/

  // What is left between the white space at both ends.
  ghost predicate TrimmedTo(s: string, t: string) {
    && (t != "" ==> !Space(t[0]) && !Space(t[|t| - 1]))
    && exists a, b :: s == a + t + b && (forall k :: 0 <= k < |a| ==> Space(a[k]))
                      && forall k :: 0 <= k < |b| ==> Space(b[k])
  }

  lemma {:induction false} LeftSpace(a: string, u: string)
    requires forall k :: 0 <= k < |a| ==> Space(a[k])
    ensures TrimLeft(a + u) == TrimLeft(u)
  {
    if a == "" {
      assert a + u == u;
    } else {
      assert (a + u)[1..] == a[1..] + u;
      LeftSpace(a[1..], u);
    }
  }

  lemma {:induction false} RightSpace(u: string, b: string)
    requires forall k :: 0 <= k < |b| ==> Space(b[k])
    ensures TrimRight(u + b) == TrimRight(u)
  {
    if b == "" {
      assert u + b == u;
    } else {
      assert (u + b)[..|u + b| - 1] == u + b[..|b| - 1];
      RightSpace(u, b[..|b| - 1]);
    }
  }

  lemma {:induction false} TrimLeftCuts(s: string) returns (a: string)
    ensures s == a + TrimLeft(s) && forall k :: 0 <= k < |a| ==> Space(a[k])
    ensures TrimLeft(s) != "" ==> !Space(TrimLeft(s)[0])
  {
    a := "";
    if s != "" && Space(s[0]) {
      a := TrimLeftCuts(s[1..]);
      assert s == [s[0]] + s[1..];
      assert s == ([s[0]] + a) + TrimLeft(s);
      a := [s[0]] + a;
    }
  }

  lemma {:induction false} TrimRightCuts(s: string) returns (b: string)
    ensures s == TrimRight(s) + b && forall k :: 0 <= k < |b| ==> Space(b[k])
    ensures TrimRight(s) != "" ==> !Space(TrimRight(s)[|TrimRight(s)| - 1])
  {
    b := "";
    if s != "" && Space(s[|s| - 1]) {
      var front, c := s[..|s| - 1], s[|s| - 1];
      b := TrimRightCuts(front);
      assert s == front + [c];
      assert s == TrimRight(s) + (b + [c]);
      b := b + [c];
    }
  }

  lemma TrimmedIsTrim(t: string, a: string, b: string)
    requires t != "" ==> !Space(t[0]) && !Space(t[|t| - 1])
    requires (forall k :: 0 <= k < |a| ==> Space(a[k])) && forall k :: 0 <= k < |b| ==> Space(b[k])
    ensures Trim(a + (t + b)) == t
  {
    LeftSpace(a, t + b);
    if t == "" {
      assert t + b == b && b + "" == b;
      LeftSpace(b, "");
    } else {
      assert (t + b)[0] == t[0];
      RightSpace(t, b);
    }
  }

  lemma TrimIsTrimmed(s: string)
    ensures TrimmedTo(s, Trim(s))
  {
    var t := Trim(s);
    var a := TrimLeftCuts(s);
    var b := TrimRightCuts(TrimLeft(s));
    Regroup(a, t, b);
    if t != "" {
      assert t[0] == TrimLeft(s)[0];
    }
    assert s == a + t + b;
  }

  lemma TrimmedIff(s: string, t: string)
    ensures TrimmedTo(s, t) <==> t == Trim(s)
  {
    TrimIsTrimmed(s);
    if TrimmedTo(s, t) {
      var a, b :| s == a + t + b && (forall k :: 0 <= k < |a| ==> Space(a[k]))
                  && forall k :: 0 <= k < |b| ==> Space(b[k]);
      Regroup(a, t, b);
      TrimmedIsTrim(t, a, b);
    }
  }

  /******* The clauses *******/

  // A text cut at " and ", each time at the first place where it occurs.
  ghost predicate CutInto(s: string, ps: seq<string>)
    decreases |ps|
  {
    && ps != []
    && if |ps| == 1 then ps[0] == s && !Occurs(s, " and ")
       else exists i :: FirstAt(s, i) && ps[0] == s[..i] && CutInto(s[i + 5..], ps[1..])
  }

  ghost predicate FirstAt(s: string, i: int) {
    OccursAt(s, " and ", i) && forall j :: 0 <= j < i ==> !OccursAt(s, " and ", j)
  }

  lemma FirstIsFind(s: string, i: int)
    ensures FirstAt(s, i) <==> i == Find(s, AND) < |s|
    ensures Find(s, AND) == |s| <==> !Occurs(s, " and ")
  {
    FindIsFirst(s, AND);
  }

  lemma {:induction false} SplitCuts(s: string)
    ensures CutInto(s, Split(s))
    decreases |s|
  {
    FindIsFirst(s, AND);
    FirstIsFind(s, Find(s, AND));
    if Find(s, AND) < |s| {
      var n := Find(s, AND);
      var rest := Split(s[n + 5..]);
      SplitCuts(s[n + 5..]);
      assert Split(s) == [s[..n]] + rest && Split(s)[1..] == rest && |rest| > 0;
      assert FirstAt(s, n);
    } else {
      assert Split(s) == [s];
    }
  }

  lemma {:induction false} CutIsSplit(s: string, ps: seq<string>)
    requires CutInto(s, ps)
    ensures ps == Split(s)
    decreases |ps|
  {
    if |ps| == 1 {
      FirstIsFind(s, 0);
      assert ps == [s];
    } else {
      var i :| FirstAt(s, i) && ps[0] == s[..i] && CutInto(s[i + 5..], ps[1..]);
      FirstIsFind(s, i);
      CutIsSplit(s[i + 5..], ps[1..]);
      assert ps == [ps[0]] + ps[1..];
    }
  }

  /******* The pattern *******/

  predicate Blanks(b: string) { forall k :: 0 <= k < |b| ==> Blank(b[k]) }

  // At least one blank, then the literal, then the rest.
  ghost predicate Next(s: string, lit: string, rest: string) {
    exists b :: b != "" && Blanks(b) && s == b + lit + rest
  }

  // What has to come after the closing quote.
  ghost predicate Ends(s: string) {
    exists b, p, q, r, rest ::
      Blanks(b) && s == b + ")" + p && Next(p, "is", q) && Next(q, "not", r) && Next(r, "None", rest)
  }

  // The text starts with a presence check of the field.
  ghost predicate Reads(s: string, field: string) {
    && field != "" && (forall k :: 0 <= k < |field| ==> Word(field[k]))
    && exists b, open, close, rest :: Blanks(b) && Quote(open) && Quote(close) && Ends(rest)
                                      && s == "you_req_json.get(" + b + [open] + field + [close] + rest
  }

  lemma {:induction false} SkipsBlanks(b: string, t: string)
    requires Blanks(b) && (t == "" || !Blank(t[0]))
    ensures SkipBlanks(b + t) == t
  {
    if b == "" {
      assert b + t == t;
    } else {
      assert (b + t)[1..] == b[1..] + t;
      SkipsBlanks(b[1..], t);
    }
  }

  lemma {:induction false} SkippedBlanks(s: string) returns (b: string)
    ensures Blanks(b) && s == b + SkipBlanks(s) && (SkipBlanks(s) == "" || !Blank(SkipBlanks(s)[0]))
    ensures s != "" && Blank(s[0]) ==> b != ""
  {
    b := "";
    if s != "" && Blank(s[0]) {
      b := SkippedBlanks(s[1..]);
      assert s == [s[0]] + s[1..];
      assert s == ([s[0]] + b) + SkipBlanks(s);
      b := [s[0]] + b;
    }
  }

  lemma AfterIff(s: string, lit: string, rest: string)
    ensures After(s, lit) == Some(rest) <==> s == lit + rest
  {
    if s == lit + rest {
      assert s[..|lit|] == lit && s[|lit|..] == rest;
    }
  }

  lemma AfterBlankIff(s: string, lit: string, rest: string)
    requires lit != "" && !Blank(lit[0])
    ensures AfterBlank(s, lit) == Some(rest) <==> Next(s, lit, rest)
  {
    AfterIff(SkipBlanks(s), lit, rest);
    if AfterBlank(s, lit) == Some(rest) {
      var b := SkippedBlanks(s);
      Regroup(b, lit, rest);
    }
    if b :| b != "" && Blanks(b) && s == b + lit + rest {
      Regroup(b, lit, rest);
      SkipsBlanks(b, lit + rest);
      assert s[0] == b[0];
    }
  }

  lemma MatchTailIff(s: string)
    ensures MatchTail(s) <==> Ends(s)
  {
    var t := SkipBlanks(s);
    if MatchTail(s) {
      var b := SkippedBlanks(s);
      var p := After(t, ")").value;
      var q := AfterBlank(p, "is").value;
      var r := AfterBlank(q, "not").value;
      var rest := AfterBlank(r, "None").value;
      AfterIff(t, ")", p);
      AfterBlankIff(p, "is", q);
      AfterBlankIff(q, "not", r);
      AfterBlankIff(r, "None", rest);
      Regroup(b, ")", p);
    }
    if b, p, q, r, rest :|
      Blanks(b) && s == b + ")" + p && Next(p, "is", q) && Next(q, "not", r) && Next(r, "None", rest)
    {
      Regroup(b, ")", p);
      SkipsBlanks(b, ")" + p);
      AfterIff(t, ")", p);
      AfterBlankIff(p, "is", q);
      AfterBlankIff(q, "not", r);
      AfterBlankIff(r, "None", rest);
    }
  }

  lemma {:induction false} WordLengthIs(s: string)
    ensures forall k :: 0 <= k < WordLength(s) ==> Word(s[k])
    ensures WordLength(s) < |s| ==> !Word(s[WordLength(s)])
  {
    if s != "" && Word(s[0]) {
      WordLengthIs(s[1..]);
    }
  }

  // The parts of a matching text.
  lemma MatchParts(t: string, field: string, rest: string)
    requires t != "" && WordLength(t[1..]) == |field| && 1 + |field| < |t|
    requires field == t[1..|field| + 1] && rest == t[|field| + 2..]
    ensures (forall k :: 0 <= k < |field| ==> Word(field[k])) && t == [t[0]] + field + [t[1 + |field|]] + rest
  {
    WordLengthIs(t[1..]);
    assert forall k :: 0 <= k < |field| ==> field[k] == t[1..][k];
  }

  lemma MatchAtReads(s: string)
    requires MatchAt(s).Some?
    ensures Reads(s, MatchAt(s).value)
  {
    var a := After(s, HEAD).value;
    var t := SkipBlanks(a);
    var b := SkippedBlanks(a);
    var n := WordLength(t[1..]);
    var field, rest := t[1..n + 1], t[n + 2..];
    AfterIff(s, HEAD, a);
    MatchParts(t, field, rest);
    MatchTailIff(rest);
    SixPieces(HEAD, b, [t[0]], field, [t[1 + n]], rest);
  }

  lemma SixPieces(head: string, b: string, open: string, field: string, close: string, rest: string)
    ensures head + b + open + field + close + rest == head + (b + (open + field + close + rest))
  {
  }

  lemma QuotedField(t: string, field: string, open: char, close: char, rest: string)
    requires field != "" && (forall k :: 0 <= k < |field| ==> Word(field[k])) && Quote(close)
    requires t == [open] + field + [close] + rest
    ensures t != "" && t[0] == open && WordLength(t[1..]) == |field| && 1 + |field| < |t| && t[1 + |field|] == close
    ensures t[1..|field| + 1] == field && t[|field| + 2..] == rest
  {
    assert t[1..] == field + ([close] + rest);
    WordLengthOf(field, [close] + rest);
  }

  lemma ReadsMatchesAt(s: string, field: string, b: string, open: char, close: char, rest: string)
    requires field != "" && forall k :: 0 <= k < |field| ==> Word(field[k])
    requires Blanks(b) && Quote(open) && Quote(close) && Ends(rest)
    requires s == "you_req_json.get(" + b + [open] + field + [close] + rest
    ensures MatchAt(s) == Some(field)
  {
    var t := [open] + field + [close] + rest;
    SixPieces(HEAD, b, [open], field, [close], rest);
    AfterIff(s, HEAD, b + t);
    QuotedField(t, field, open, close, rest);
    SkipsBlanks(b, t);
    MatchTailIff(rest);
  }

  lemma MatchAtIff(s: string, field: string)
    ensures MatchAt(s) == Some(field) <==> Reads(s, field)
  {
    if MatchAt(s) == Some(field) {
      MatchAtReads(s);
    }
    if Reads(s, field) {
      var b, open, close, rest :| Blanks(b) && Quote(open) && Quote(close) && Ends(rest)
                                  && s == "you_req_json.get(" + b + [open] + field + [close] + rest;
      ReadsMatchesAt(s, field, b, open, close, rest);
    }
  }

  ghost predicate ReadsNone(s: string) {
    forall g :: !Reads(s, g)
  }

  // The leftmost place where the text reads as a check, and the field it checks there.
  ghost predicate FirstReadAt(s: string, i: int, field: string) {
    0 <= i <= |s| && Reads(s[i..], field) && forall j :: 0 <= j < i ==> ReadsNone(s[j..])
  }

  ghost predicate FirstRead(s: string, field: string) {
    exists i :: FirstReadAt(s, i, field)
  }

  lemma MatchAtNone(s: string)
    ensures MatchAt(s).None? <==> ReadsNone(s)
  {
    forall g ensures MatchAt(s) == Some(g) <==> Reads(s, g) { MatchAtIff(s, g); }
    if MatchAt(s).Some? {
      assert Reads(s, MatchAt(s).value);
    }
  }

  lemma ReadHere(s: string, field: string)
    requires !ReadsNone(s)
    ensures FirstRead(s, field) <==> Reads(s, field)
  {
    assert s[0..] == s && !ReadsNone(s[0..]);
    if Reads(s, field) {
      assert FirstReadAt(s, 0, field);
    }
  }

  lemma ReadLater(s: string, field: string)
    requires s != "" && ReadsNone(s)
    ensures FirstRead(s, field) <==> FirstRead(s[1..], field)
  {
    assert s[0..] == s;
    if i :| FirstReadAt(s, i, field) {
      assert i > 0 && s[1..][i - 1..] == s[i..];
      forall j | 0 <= j < i - 1 ensures ReadsNone(s[1..][j..]) { assert s[1..][j..] == s[j + 1..]; }
      assert FirstReadAt(s[1..], i - 1, field);
    }
    if i :| FirstReadAt(s[1..], i, field) {
      assert s[1..][i..] == s[i + 1..];
      forall j | 0 <= j < i + 1 ensures ReadsNone(s[j..]) {
        if j > 0 { assert s[j..] == s[1..][j - 1..]; }
      }
      assert FirstReadAt(s, i + 1, field);
    }
  }

  lemma {:induction false} FirstMatchIff(s: string, field: string)
    ensures FirstMatch(s) == Some(field) <==> FirstRead(s, field)
  {
    MatchAtNone(s);
    if MatchAt(s).Some? {
      ReadHere(s, field);
      MatchAtIff(s, field);
    } else if s != "" {
      FirstMatchIff(s[1..], field);
      ReadLater(s, field);
    } else {
      assert forall i :: 0 <= i <= |s| ==> s[i..] == s;
    }
  }

  /******* The whole condition *******/

  ghost predicate ClauseAccepts(clause: string, req: map<string, Json>) {
    exists t, field :: TrimmedTo(clause, t) && FirstRead(t, field) && field in req && req[field] != Null
  }

  ghost predicate AllAccept(clauses: seq<string>, req: map<string, Json>) {
    forall k :: 0 <= k < |clauses| ==> ClauseAccepts(clauses[k], req)
  }

  // No "or" and no comparison.
  ghost predicate Simple(c: string) {
    !Occurs(c, " or ") && !Occurs(c, "==") && !Occurs(c, "!=")
  }

  // Nothing but checks joined by "and", each of a field that the request has.
  ghost predicate Accepts(cond: string, req: map<string, Json>) {
    exists c, clauses :: TrimmedTo(cond, c) && Simple(c) && CutInto(c, clauses) && AllAccept(clauses, req)
  }

  lemma ClauseIff(clause: string, req: map<string, Json>)
    ensures ClauseHolds(clause, req) <==> ClauseAccepts(clause, req)
  {
    TrimmedIff(clause, Trim(clause));
    var m := FirstMatch(Trim(clause));
    if m.Some? {
      FirstMatchIff(Trim(clause), m.value);
    }
    if t, field :| TrimmedTo(clause, t) && FirstRead(t, field) && field in req && req[field] != Null {
      TrimmedIff(clause, t);
      FirstMatchIff(t, field);
    }
  }

  lemma RefusedIff(c: string)
    ensures Refused(c) <==> !Simple(c)
  {
    ContainsIff(c, " or ");
    ContainsIff(c, "==");
    ContainsIff(c, "!=");
  }

  lemma AllAcceptIff(clauses: seq<string>, req: map<string, Json>)
    ensures AllAccept(clauses, req) <==> forall i :: 0 <= i < |clauses| ==> ClauseHolds(clauses[i], req)
  {
    forall i | 0 <= i < |clauses| ensures ClauseHolds(clauses[i], req) <==> ClauseAccepts(clauses[i], req) {
      ClauseIff(clauses[i], req);
    }
  }

  // Main result, for every text: a condition holds exactly when it is accepted.
  lemma HoldsIff(cond: string, req: map<string, Json>)
    ensures Holds(cond, req) <==> Accepts(cond, req)
  {
    var c := Trim(cond);
    TrimmedIff(cond, c);
    RefusedIff(c);
    SplitCuts(c);
    AllAcceptIff(Split(c), req);
    if d, clauses :| TrimmedTo(cond, d) && Simple(d) && CutInto(d, clauses) && AllAccept(clauses, req) {
      TrimmedIff(cond, d);
      CutIsSplit(d, clauses);
    }
  }
}
