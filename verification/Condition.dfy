/** The conditions that switch a feature on: presence checks on request fields, joined by "and". Everything
    else is refused. */
module Condition {
  import opened Base
  import opened JsonValue
  import opened Search

  const HEAD := "you_req_json.get("
  const AND := " and "

  /******* Trimming and splitting *******/

  // White space as Unicode has it.
  predicate Space(c: char) {
    || '\t' <= c <= '\r' || c == ' ' || c == '\U{85}' || c == '\U{A0}' || c == '\U{1680}'
    || '\U{2000}' <= c <= '\U{200A}' || c == '\U{2028}' || c == '\U{2029}' || c == '\U{202F}'
    || c == '\U{205F}' || c == '\U{3000}'
  }

  function TrimLeft(s: string): string {
    if s != "" && Space(s[0]) then TrimLeft(s[1..]) else s
  }

  function TrimRight(s: string): string {
    if s != "" && Space(s[|s| - 1]) then TrimRight(s[..|s| - 1]) else s
  }

  function Trim(s: string): string { TrimRight(TrimLeft(s)) }

  function Split(s: string): seq<string>
    decreases |s|
  {
    FindBounds(s, AND);
    if Find(s, AND) < |s| then [s[..Find(s, AND)]] + Split(s[Find(s, AND) + |AND|..]) else [s]
  }

  /******* One clause *******/

  // \s of the pattern.
  predicate Blank(c: char) { c == '\t' || c == '\n' || c == '\U{0C}' || c == '\r' || c == ' ' }

  predicate Word(c: char) {
    'a' <= c <= 'z' || 'A' <= c <= 'Z' || '0' <= c <= '9' || c == '_'
  }

  predicate Quote(c: char) { c == '\'' || c == '"' }

  function SkipBlanks(s: string): string {
    if s != "" && Blank(s[0]) then SkipBlanks(s[1..]) else s
  }

  function WordLength(s: string): (n: nat)
    ensures n <= |s|
  {
    if s != "" && Word(s[0]) then 1 + WordLength(s[1..]) else 0
  }

  // What follows a literal that the text starts with.
  function After(s: string, lit: string): Option<string> {
    if StartsWith(s, lit) then Some(s[|lit|..]) else None
  }

  // At least one blank, then the literal.
  function AfterBlank(s: string, lit: string): Option<string> {
    if s != "" && Blank(s[0]) then After(SkipBlanks(s), lit) else None
  }

  // The part of the pattern after the closing quote.
  predicate MatchTail(s: string) {
    var a := After(SkipBlanks(s), ")");
    a.Some? &&
    var b := AfterBlank(a.value, "is");
    b.Some? &&
    var c := AfterBlank(b.value, "not");
    c.Some? && AfterBlank(c.value, "None").Some?
  }

  // The field named by a match at the very start. No two neighbouring parts of the pattern share a
  // character, so the greedy match is the only one.
  function MatchAt(s: string): Option<string> {
    match After(s, HEAD)
    case None => None
    case Some(a) =>
      var b := SkipBlanks(a);
      if b == "" || !Quote(b[0]) then None
      else
        var n := WordLength(b[1..]);
        if n == 0 || 1 + n >= |b| || !Quote(b[1 + n]) || !MatchTail(b[n + 2..]) then None
        else Some(b[1..n + 1])
  }

  // The leftmost match.
  function FirstMatch(s: string): Option<string> {
    if MatchAt(s).Some? then MatchAt(s) else if s == "" then None else FirstMatch(s[1..])
  }

  predicate FieldPresent(req: map<string, Json>, field: string) {
    field in req && req[field] != Null
  }

  predicate ClauseHolds(clause: string, req: map<string, Json>) {
    var m := FirstMatch(Trim(clause));
    m.Some? && FieldPresent(req, m.value)
  }

  predicate Refused(c: string) {
    Contains(c, " or ") || Contains(c, "==") || Contains(c, "!=")
  }

  predicate Holds(cond: string, req: map<string, Json>) {
    var c := Trim(cond);
    !Refused(c) && forall i :: 0 <= i < |Split(c)| ==> ClauseHolds(Split(c)[i], req)
  }

  method ClausesHold(clauses: seq<string>, req: map<string, Json>) returns (ok: bool)
    ensures ok <==> forall i :: 0 <= i < |clauses| ==> ClauseHolds(clauses[i], req)
  {
    for i := 0 to |clauses|
      invariant forall j :: 0 <= j < i ==> ClauseHolds(clauses[j], req)
    {
      var m := FirstMatch(Trim(clauses[i]));
      if m.None? {
        return false;
      }
      if !FieldPresent(req, m.value) {
        return false;
      }
    }
    ok := true;
  }

  method EvalCondition(cond: string, req: map<string, Json>) returns (ok: bool)
    ensures ok <==> Holds(cond, req)
  {
    var c := Trim(cond);
    if Refused(c) {
      return false;
    }
    ok := ClausesHold(Split(c), req);
  }

  /******* Reading back what was printed *******/

  predicate FieldName(f: string) {
    f != "" && forall i :: 0 <= i < |f| ==> Word(f[i])
  }

  function Clause(f: string): string {
    HEAD + "'" + f + "'" + ") is not None"
  }

  function Print(fields: seq<string>): string
    requires fields != []
  {
    if |fields| == 1 then Clause(fields[0]) else Clause(fields[0]) + AND + Print(fields[1..])
  }

  // Two characters next to each other somewhere.
  predicate Pair(s: string, a: char, b: char) {
    |s| >= 2 && ((s[0] == a && s[1] == b) || Pair(s[1..], a, b))
  }

  lemma {:induction false} PairConcat(x: string, y: string, a: char, b: char)
    requires !Pair(x, a, b) && !Pair(y, a, b)
    requires x != "" && y != "" ==> x[|x| - 1] != a || y[0] != b
    ensures !Pair(x + y, a, b)
  {
    if x == "" {
      assert x + y == y;
    } else {
      if |x| > 1 { assert x[1..][|x| - 2] == x[|x| - 1]; }
      PairConcat(x[1..], y, a, b);
      assert (x + y)[1..] == x[1..] + y;
    }
  }

  lemma {:induction false} NoPairNoFind(s: string, lit: string)
    requires |lit| >= 2 && !Pair(s, lit[0], lit[1])
    ensures Find(s, lit) == |s|
  {
    if s != "" {
      NoPairNoFind(s[1..], lit);
    }
  }

  lemma {:induction false} WordsHavePair(f: string, a: char, b: char)
    requires forall i :: 0 <= i < |f| ==> Word(f[i])
    requires !Word(a)
    ensures !Pair(f, a, b)
  {
    if |f| >= 2 {
      WordsHavePair(f[1..], a, b);
    }
  }

  /******* The text of one clause *******/

  const TAIL := ") is not None"

  lemma ClauseShape(f: string)
    requires FieldName(f)
    ensures Clause(f) == HEAD + ("'" + f + ("'" + TAIL))
    ensures !Pair(Clause(f), ' ', 'o') && !Pair(Clause(f), ' ', 'a')
    ensures !Pair(Clause(f), '=', '=') && !Pair(Clause(f), '!', '=')
    ensures Clause(f)[0] == 'y' && Clause(f)[|Clause(f)| - 1] == 'e'
  {
    assert Clause(f) == HEAD + ("'" + f + ("'" + TAIL));
    NoPairs(f, ' ', 'o');
    NoPairs(f, ' ', 'a');
    NoPairs(f, '=', '=');
    NoPairs(f, '!', '=');
    assert TAIL[|TAIL| - 1] == 'e';
  }

  lemma NoPairs(f: string, a: char, b: char)
    requires FieldName(f) && (a == ' ' || a == '=' || a == '!') && (a == ' ' ==> b == 'o' || b == 'a')
    ensures !Pair(HEAD + ("'" + f + ("'" + TAIL)), a, b)
  {
    HeadHasNone(a, b);
    TailHasNone(a, b);
    WordsHavePair(f, a, b);
    PairConcat("'", TAIL, a, b);
    PairConcat("'", f, a, b);
    PairConcat("'" + f, "'" + TAIL, a, b);
    PairConcat(HEAD, "'" + f + ("'" + TAIL), a, b);
  }

  lemma HeadHasNone(a: char, b: char)
    requires a == ' ' || a == '=' || a == '!'
    ensures !Pair(HEAD, a, b)
  {
    NoFirstNoPair(HEAD, a, b);
  }

  lemma {:induction false} NoFirstNoPair(s: string, a: char, b: char)
    requires a !in s
    ensures !Pair(s, a, b)
  {
    if |s| >= 2 {
      NoFirstNoPair(s[1..], a, b);
    }
  }

  lemma TailHasNone(a: char, b: char)
    requires (a == ' ' && (b == 'o' || b == 'a')) || a == '=' || a == '!'
    ensures !Pair(TAIL, a, b)
  {
    NoFirstNoPair(")", a, b);
    NoFirstNoPair("is", a, b);
    NoFirstNoPair("not", a, b);
    NoFirstNoPair("None", a, b);
    PairConcat(" ", "None", a, b);
    PairConcat("not", " " + "None", a, b);
    PairConcat(" ", "not" + (" " + "None"), a, b);
    PairConcat("is", " " + ("not" + (" " + "None")), a, b);
    PairConcat(" ", "is" + (" " + ("not" + (" " + "None"))), a, b);
    PairConcat(")", " " + ("is" + (" " + ("not" + (" " + "None")))), a, b);
    assert TAIL == ")" + (" " + ("is" + (" " + ("not" + (" " + "None")))));
  }

  /******* The pattern on a printed clause *******/

  lemma {:induction false} WordLengthOf(f: string, rest: string)
    requires forall i :: 0 <= i < |f| ==> Word(f[i])
    requires rest == "" || !Word(rest[0])
    ensures WordLength(f + rest) == |f|
  {
    if f == "" {
      assert f + rest == rest;
    } else {
      WordLengthOf(f[1..], rest);
      assert (f + rest)[1..] == f[1..] + rest;
    }
  }

  lemma BlankThen(lit: string, rest: string)
    requires lit != "" && !Blank(lit[0])
    ensures AfterBlank(" " + lit + rest, lit) == Some(rest)
  {
    var s := " " + lit + rest;
    assert s[1..] == lit + rest;
    assert SkipBlanks(s) == lit + rest;
  }

  lemma PiecesMatch(a: string, b: string, c: string)
    requires a == " " + "is" + b && b == " " + "not" + c && c == " " + "None" + ""
    ensures MatchTail(")" + a)
  {
    assert SkipBlanks(")" + a) == ")" + a;
    assert (")" + a)[..1] == ")" && (")" + a)[1..] == a;
    BlankThen("is", b);
    BlankThen("not", c);
    BlankThen("None", "");
  }

  lemma TailMatches()
    ensures MatchTail(TAIL)
  {
    var c := " " + "None" + "";
    var b := " " + "not" + c;
    var a := " " + "is" + b;
    PiecesMatch(a, b, c);
    assert TAIL == ")" + a;
  }

  lemma ClauseMatches(f: string)
    requires FieldName(f)
    ensures FirstMatch(Clause(f)) == Some(f)
  {
    var quoted := "'" + f + ("'" + TAIL);
    ClauseShape(f);
    assert After(Clause(f), HEAD) == Some(quoted);
    assert SkipBlanks(quoted) == quoted;
    assert quoted[1..] == f + ("'" + TAIL);
    WordLengthOf(f, "'" + TAIL);
    assert quoted[|f| + 2..] == TAIL;
    TailMatches();
    assert quoted[1..|f| + 1] == f;
  }

  lemma TrimNothing(s: string)
    requires s != "" && !Space(s[0]) && !Space(s[|s| - 1])
    ensures Trim(s) == s
  {
  }

  /******* The whole condition *******/

  // Where a text starts with the separator, its first two characters are a blank and an "a".
  lemma SeparatorStart(s: string)
    ensures StartsWith(s, AND) ==> |s| >= 2 && s[0] == ' ' && s[1] == 'a'
  {
    if StartsWith(s, AND) {
      assert s[..|AND|][0] == AND[0] && s[..|AND|][1] == AND[1];
    }
  }

  lemma {:induction false} FindSeparator(clause: string, rest: string)
    requires !Pair(clause, ' ', 'a') && (clause != "" ==> clause[|clause| - 1] != ' ')
    ensures Find(clause + AND + rest, AND) == |clause|
  {
    var s := clause + AND + rest;
    if clause == "" {
      assert s[..|AND|] == AND;
    } else {
      assert |clause| > 1 ==> clause[1..][|clause| - 2] == clause[|clause| - 1];
      FindSeparator(clause[1..], rest);
      assert s[1..] == clause[1..] + AND + rest;
      SeparatorStart(s);
      assert |clause| > 1 ==> s[0] == clause[0] && s[1] == clause[1];
      assert !StartsWith(s, AND);
    }
  }

  lemma SplitAtSeparator(clause: string, rest: string)
    requires Find(clause + AND + rest, AND) == |clause|
    ensures Split(clause + AND + rest) == [clause] + Split(rest)
  {
    var s := clause + AND + rest;
    assert s[..|clause|] == clause && s[|clause| + |AND|..] == rest;
  }

  lemma {:induction false} SplitOfPrint(fields: seq<string>)
    requires fields != [] && forall i :: 0 <= i < |fields| ==> FieldName(fields[i])
    ensures |Split(Print(fields))| == |fields|
    ensures forall i :: 0 <= i < |fields| ==> Split(Print(fields))[i] == Clause(fields[i])
  {
    ClauseShape(fields[0]);
    var clause := Clause(fields[0]);
    if |fields| == 1 {
      NoPairNoFind(clause, AND);
    } else {
      var rest := Print(fields[1..]);
      SplitOfPrint(fields[1..]);
      FindSeparator(clause, rest);
      SplitAtSeparator(clause, rest);
      assert Print(fields) == clause + AND + rest;
    }
  }

  lemma {:induction false} PrintShape(fields: seq<string>, a: char, b: char)
    requires fields != [] && forall i :: 0 <= i < |fields| ==> FieldName(fields[i])
    requires (a == ' ' && b == 'o') || ((a == '=' || a == '!') && b == '=')
    ensures !Pair(Print(fields), a, b)
    ensures Print(fields) != "" && Print(fields)[0] == 'y' && Print(fields)[|Print(fields)| - 1] == 'e'
  {
    ClauseShape(fields[0]);
    if |fields| > 1 {
      PrintShape(fields[1..], a, b);
      NoFirstNoPair("and", a, b);
      PairConcat(" ", "and", a, b);
      PairConcat(" and", " ", a, b);
      assert AND == " and" + " " && AND[|AND| - 1] == ' ';
      PairConcat(Clause(fields[0]), AND, a, b);
      PairConcat(Clause(fields[0]) + AND, Print(fields[1..]), a, b);
    }
  }

  lemma NotRefused(c: string)
    requires !Pair(c, ' ', 'o') && !Pair(c, '=', '=') && !Pair(c, '!', '=')
    ensures !Refused(c)
  {
    NoPairNoFind(c, " or ");
    NoPairNoFind(c, "==");
    NoPairNoFind(c, "!=");
  }

  // Printed conditions, with the shape that everything else about them rests on.
  ghost predicate Shaped(c: string) {
    && c != "" && c[0] == 'y' && c[|c| - 1] == 'e'
    && !Pair(c, ' ', 'o') && !Pair(c, '=', '=') && !Pair(c, '!', '=')
  }

  lemma PrintShaped(fields: seq<string>, c: string)
    requires fields != [] && forall i :: 0 <= i < |fields| ==> FieldName(fields[i])
    requires c == Print(fields)
    ensures Shaped(c)
  {
    PrintAvoids(fields, c, ' ', 'o');
    PrintAvoids(fields, c, '=', '=');
    PrintAvoids(fields, c, '!', '=');
  }

  lemma PrintAvoids(fields: seq<string>, c: string, a: char, b: char)
    requires fields != [] && forall i :: 0 <= i < |fields| ==> FieldName(fields[i])
    requires (a == ' ' && b == 'o') || ((a == '=' || a == '!') && b == '=')
    requires c == Print(fields)
    ensures !Pair(c, a, b) && c != "" && c[0] == 'y' && c[|c| - 1] == 'e'
  {
    PrintShape(fields, a, b);
  }

  lemma ShapedPasses(c: string)
    requires Shaped(c)
    ensures Trim(c) == c && !Refused(c)
  {
    TrimFromTo(c);
    NotRefused(c);
  }

  lemma TrimFromTo(s: string)
    requires s != "" && s[0] == 'y' && s[|s| - 1] == 'e'
    ensures Trim(s) == s
  {
    TrimNothing(s);
  }

  lemma ClauseHoldsIff(f: string, req: map<string, Json>)
    requires FieldName(f)
    ensures ClauseHolds(Clause(f), req) <==> FieldPresent(req, f)
  {
    ClauseShape(f);
    TrimNothing(Clause(f));
    ClauseMatches(f);
  }

  // Main result: a printed conjunction of presence checks holds exactly when every field it names is there.
  lemma EvalOfPrint(fields: seq<string>, req: map<string, Json>)
    requires fields != [] && forall i :: 0 <= i < |fields| ==> FieldName(fields[i])
    ensures Holds(Print(fields), req) <==> forall i :: 0 <= i < |fields| ==> FieldPresent(req, fields[i])
  {
    PrintShaped(fields, Print(fields));
    ShapedPasses(Print(fields));
    SplitOfPrint(fields);
    forall i | 0 <= i < |fields| ensures ClauseHolds(Clause(fields[i]), req) <==> FieldPresent(req, fields[i]) {
      ClauseHoldsIff(fields[i], req);
    }
    ClausesAgree(Split(Print(fields)), fields, req);
  }

  lemma ClausesAgree(clauses: seq<string>, fields: seq<string>, req: map<string, Json>)
    requires |clauses| == |fields| && forall i :: 0 <= i < |fields| ==> clauses[i] == Clause(fields[i])
    requires forall i :: 0 <= i < |fields| ==> (ClauseHolds(Clause(fields[i]), req) <==> FieldPresent(req, fields[i]))
    ensures (forall i :: 0 <= i < |clauses| ==> ClauseHolds(clauses[i], req)) <==>
            (forall i :: 0 <= i < |fields| ==> FieldPresent(req, fields[i]))
  {
  }
}
