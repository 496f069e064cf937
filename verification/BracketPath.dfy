/** Paths written as bracketed quoted segments, as in ['score']['value'], and their parser. */
module BracketPath {
  import opened Base

  const SINGLE := '\''
  const DOUBLE := '"'

  function Until(s: string, quote: char): nat {
    if s == "" || s[0] == quote then 0 else 1 + Until(s[1..], quote)
  }

  // The segment when s starts with one bracketed segment in the given quotes.
  function Segment(s: string, quote: char): Option<string> {
    if |s| >= 2 && s[0] == '[' && s[1] == quote then
      var n := Until(s[2..], quote);
      if n + 3 < |s| && s[n + 2] == quote && s[n + 3] == ']' then Some(s[2..n + 2]) else None
    else None
  }

  // Single quotes are tried before double quotes.
  function Leading(s: string): Option<string> {
    var single := Segment(s, SINGLE);
    if single.Some? then single else Segment(s, DOUBLE)
  }

  // All segments from left to right, skipping whatever lies between them.
  function Parse(s: string): seq<string>
    decreases |s|
  {
    if s == "" then []
    else
      match Leading(s)
      case Some(seg) => (if |seg| + 4 <= |s| then [seg] + Parse(s[|seg| + 4..]) else [seg])
      case None => Parse(s[1..])
  }

  lemma {:induction false} UntilBounds(s: string, quote: char)
    ensures Until(s, quote) <= |s|
  {
    if s != "" && s[0] != quote {
      UntilBounds(s[1..], quote);
    }
  }

  lemma LeadingFits(s: string)
    requires Leading(s).Some?
    ensures |Leading(s).value| + 4 <= |s|
  {}

  lemma ParseAt(s: string, i: nat)
    requires i < |s|
    ensures match Leading(s[i..])
            case Some(seg) => i + |seg| + 4 <= |s| && Parse(s[i..]) == [seg] + Parse(s[i + |seg| + 4..])
            case None => Parse(s[i..]) == Parse(s[i + 1..])
  {
    if Leading(s[i..]).Some? {
      var seg := Leading(s[i..]).value;
      LeadingFits(s[i..]);
      assert s[i..][|seg| + 4..] == s[i + |seg| + 4..];
    } else {
      assert s[i..][1..] == s[i + 1..];
    }
  }

  // A segment can be quoted when it avoids one of the two quote characters.
  predicate Quotable(seg: string) {
    SINGLE !in seg || DOUBLE !in seg
  }

  function Bracketed(seg: string): string {
    var q := if SINGLE !in seg then SINGLE else DOUBLE;
    ['[', q] + seg + [q, ']']
  }

  function Print(path: seq<string>): string {
    if path == [] then "" else Bracketed(path[0]) + Print(path[1..])
  }

  lemma {:induction false} UntilQuote(seg: string, quote: char, rest: string)
    requires quote !in seg
    ensures Until(seg + [quote] + rest, quote) == |seg|
  {
    var s := seg + [quote] + rest;
    if seg != "" {
      assert s[0] == seg[0];
      assert s[1..] == seg[1..] + [quote] + rest;
      UntilQuote(seg[1..], quote, rest);
    }
  }

  lemma LeadingOfBracketed(seg: string, rest: string)
    requires Quotable(seg)
    ensures Leading(Bracketed(seg) + rest) == Some(seg)
  {
    var q := if SINGLE !in seg then SINGLE else DOUBLE;
    var s := Bracketed(seg) + rest;
    assert s[2..] == seg + [q] + ([']'] + rest);
    UntilQuote(seg, q, [']'] + rest);
    assert s[2..|seg| + 2] == seg;
  }

  // Parsing undoes printing on every list of quotable segments, empty ones included.
  lemma {:induction false} ParseOfPrint(path: seq<string>)
    requires forall i :: 0 <= i < |path| ==> Quotable(path[i])
    ensures Parse(Print(path)) == path
  {
    if path != [] {
      var rest := Print(path[1..]);
      LeadingOfBracketed(path[0], rest);
      ParseOfPrint(path[1..]);
      assert (Bracketed(path[0]) + rest)[|path[0]| + 4..] == rest;
    }
  }

  /******* What the parser finds, for every text *******/

  // The text starts with the segment in brackets and either kind of quotes, which the segment itself avoids.
  ghost predicate Starts(s: string, seg: string) {
    || ('\'' !in seg && exists rest :: s == "['" + seg + "']" + rest)
    || ('"' !in seg && exists rest :: s == "[\"" + seg + "\"]" + rest)
  }

  ghost predicate StartsNone(s: string) {
    forall seg :: !Starts(s, seg)
  }

  // The leftmost place where a segment starts.
  ghost predicate FirstStart(s: string, i: int, seg: string) {
    0 <= i <= |s| && Starts(s[i..], seg) && forall j :: 0 <= j < i ==> StartsNone(s[j..])
  }

  // The segments found from left to right, each search going on behind the one found last.
  ghost predicate Finds(s: string, out: seq<string>)
    decreases |out|
  {
    if out == [] then forall i :: 0 <= i <= |s| ==> StartsNone(s[i..])
    else exists i :: FirstStart(s, i, out[0]) && i + |out[0]| + 4 <= |s| && Finds(s[i + |out[0]| + 4..], out[1..])
  }

  lemma {:induction false} UntilIsFirst(s: string, quote: char)
    ensures Until(s, quote) <= |s| && quote !in s[..Until(s, quote)]
    ensures Until(s, quote) < |s| ==> s[Until(s, quote)] == quote
  {
    if s != "" && s[0] != quote {
      UntilIsFirst(s[1..], quote);
      assert s[..Until(s, quote)] == [s[0]] + s[1..][..Until(s[1..], quote)];
    }
  }

  lemma SegmentIff(s: string, quote: char, seg: string)
    ensures Segment(s, quote) == Some(seg) <==>
            quote !in seg && exists rest :: s == ['[', quote] + seg + [quote, ']'] + rest
  {
    if Segment(s, quote) == Some(seg) {
      UntilIsFirst(s[2..], quote);
      assert seg == s[2..][..|seg|];
      assert s == ['[', quote] + seg + [quote, ']'] + s[|seg| + 4..];
    }
    if rest :| quote !in seg && s == ['[', quote] + seg + [quote, ']'] + rest {
      assert s[2..] == seg + [quote] + ([']'] + rest);
      UntilQuote(seg, quote, [']'] + rest);
      assert s[2..|seg| + 2] == seg;
    }
  }

  lemma LeadingIff(s: string, seg: string)
    ensures Leading(s) == Some(seg) <==> Starts(s, seg)
  {
    SegmentIff(s, SINGLE, seg);
    SegmentIff(s, DOUBLE, seg);
    assert ['[', SINGLE] == "['" && [SINGLE, ']'] == "']" && ['[', DOUBLE] == "[\"" && [DOUBLE, ']'] == "\"]";
  }

  lemma LeadingNone(s: string)
    ensures Leading(s).None? <==> StartsNone(s)
  {
    forall seg ensures Leading(s) == Some(seg) <==> Starts(s, seg) { LeadingIff(s, seg); }
    if Leading(s).Some? {
      assert Starts(s, Leading(s).value);
    }
  }

  lemma FindsHere(s: string, seg: string, more: seq<string>)
    requires Leading(s) == Some(seg) && |seg| + 4 <= |s| && Finds(s[|seg| + 4..], more)
    ensures Finds(s, [seg] + more)
  {
    var out := [seg] + more;
    LeadingIff(s, seg);
    assert s[0..] == s && FirstStart(s, 0, out[0]);
    assert out[1..] == more && s[0 + |out[0]| + 4..] == s[|seg| + 4..];
  }

  lemma FindsLater(s: string, out: seq<string>)
    requires s != "" && StartsNone(s) && Finds(s[1..], out)
    ensures Finds(s, out)
  {
    forall j | 0 <= j <= |s| ensures s[j..] == if j == 0 then s else s[1..][j - 1..] {}
    if out == [] {
      forall i | 0 <= i <= |s| ensures StartsNone(s[i..]) {
        assert i > 0 ==> StartsNone(s[1..][i - 1..]);
      }
    } else {
      var i :| FirstStart(s[1..], i, out[0]) && i + |out[0]| + 4 <= |s[1..]|
               && Finds(s[1..][i + |out[0]| + 4..], out[1..]);
      assert s[1..][i + |out[0]| + 4..] == s[i + 1 + |out[0]| + 4..];
      assert FirstStart(s, i + 1, out[0]);
    }
  }

  // Main result, for every text: the parser finds exactly the segments there are to find.
  lemma {:induction false} ParseFinds(s: string)
    ensures Finds(s, Parse(s))
    decreases |s|
  {
    LeadingNone(s);
    if s == "" {
      assert s[0..] == s;
      assert forall i :: 0 <= i <= |s| ==> s[i..] == s;
    } else if Leading(s).Some? {
      var seg := Leading(s).value;
      LeadingFits(s);
      ParseFinds(s[|seg| + 4..]);
      FindsHere(s, seg, Parse(s[|seg| + 4..]));
    } else {
      ParseFinds(s[1..]);
      FindsLater(s, Parse(s));
    }
  }

  // The scan from left to right; ParseFinds says what it finds.
  method ParseBracketPath(s: string) returns (out: seq<string>)
    ensures out == Parse(s)
  {
    out := [];
    var i := 0;
    while i < |s|
      invariant i <= |s| && Parse(s) == out + Parse(s[i..])
    {
      ParseAt(s, i);
      match Leading(s[i..]) {
        case Some(seg) =>
          Regroup(out, [seg], Parse(s[i + |seg| + 4..]));
          out := out + [seg];
          i := i + |seg| + 4;
        case None =>
          i := i + 1;
      }
    }
  }
}
