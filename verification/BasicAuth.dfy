/** The load tester's hand-written base64 loop and the Basic credentials it builds, against section 4 of
    RFC 4648 and section 2 of RFC 7617. Shifts and masks of bytes are written as division and remainder. */
module BasicAuth {
  import opened Base

  type Byte = n: int | 0 <= n < 256
  type Bytes = seq<Byte>

  const UPPER := "ABCDEFGHIJKLMNOPQRSTUVWXYZ"
  const LOWER := "abcdefghijklmnopqrstuvwxyz"
  const DIGITS := "0123456789"
  const B64 := UPPER + LOWER + DIGITS + "+/"
  const PAD := '='
  const COLON: Byte := 58

  /******* The standard *******/

  // The value of an alphabet character, by the ranges of Table 1 of RFC 4648; 64 for padding, -1 otherwise.
  function Value(c: char): int {
    if 'A' <= c <= 'Z' then c as int - 'A' as int
    else if 'a' <= c <= 'z' then c as int - 'a' as int + 26
    else if '0' <= c <= '9' then c as int - '0' as int + 52
    else if c == '+' then 62
    else if c == '/' then 63
    else if c == PAD then 64
    else -1
  }

  // The bytes of four values: padding stands last, and the bits it leaves unused are zero.
  function Join(a: int, b: int, c: int, d: int): Option<Bytes> {
    if !(0 <= a < 64 && 0 <= b < 64 && 0 <= c <= 64 && 0 <= d <= 64) then None
    else if c == 64 then if d == 64 && b % 16 == 0 then Some([a * 4 + b / 16]) else None
    else if d == 64 then if c % 4 == 0 then Some([a * 4 + b / 16, b % 16 * 16 + c / 4]) else None
    else Some([a * 4 + b / 16, b % 16 * 16 + c / 4, c % 4 * 64 + d])
  }

  // Strict decoding: only the last group may be padded.
  function Decode(s: string): Option<Bytes> {
    if s == "" then Some([])
    else if |s| < 4 then None
    else
      match Join(Value(s[0]), Value(s[1]), Value(s[2]), Value(s[3]))
      case None => None
      case Some(first) =>
        if |first| < 3 then if |s| == 4 then Some(first) else None
        else
          match Decode(s[4..])
          case Some(rest) => Some(first + rest)
          case None => None
  }

  /******* The encoder *******/

  // The character of a value; SymbolIsTable ties it to the encoder's table.
  function Symbol(v: int): char
    requires 0 <= v <= 64
  {
    if v < 26 then ('A' as int + v) as char
    else if v < 52 then ('a' as int + v - 26) as char
    else if v < 62 then ('0' as int + v - 52) as char
    else if v == 62 then '+'
    else if v == 63 then '/'
    else PAD
  }

  // The four values of a chunk of one to three bytes; missing bytes count as zero, missing values are padding.
  function Split(raw: Bytes): (int, int, int, int)
    requires raw != []
  {
    var c0 := raw[0];
    var c1 := if |raw| > 1 then raw[1] else 0;
    var c2 := if |raw| > 2 then raw[2] else 0;
    (c0 / 4, c0 % 4 * 16 + c1 / 16,
     if |raw| > 1 then c1 % 16 * 4 + c2 / 64 else 64,
     if |raw| > 2 then c2 % 64 else 64)
  }

  function Group(raw: Bytes): string
    requires raw != []
  {
    var (a, b, c, d) := Split(raw);
    [Symbol(a), Symbol(b), Symbol(c), Symbol(d)]
  }

  function Chunk(raw: Bytes): Bytes {
    if |raw| > 3 then raw[..3] else raw
  }

  function Rest(raw: Bytes): Bytes {
    if |raw| > 3 then raw[3..] else []
  }

  function Encoding(raw: Bytes): string
    decreases |raw|
  {
    if raw == [] then "" else Group(Chunk(raw)) + Encoding(Rest(raw))
  }

  function From(raw: Bytes, i: nat): Bytes {
    if i <= |raw| then raw[i..] else []
  }

  lemma EncodingFrom(raw: Bytes, i: nat, out: string)
    requires i < |raw|
    ensures out + Encoding(From(raw, i)) == out + Group(Chunk(raw[i..])) + Encoding(From(raw, i + 3))
  {
    assert Rest(raw[i..]) == From(raw, i + 3);
    Regroup(out, Group(Chunk(raw[i..])), Encoding(From(raw, i + 3)));
  }

  lemma UpperAt(n: int)
    requires 0 <= n < 26
    ensures UPPER[n] == Symbol(n)
  {
  }

  lemma LowerAt(n: int)
    requires 0 <= n < 26
    ensures LOWER[n] == Symbol(n + 26)
  {
  }

  lemma DigitAt(n: int)
    requires 0 <= n < 10
    ensures DIGITS[n] == Symbol(n + 52)
  {
  }

  // Where the parts of the table lie.
  lemma TableParts(v: int)
    requires 0 <= v < 64
    ensures |UPPER| == |LOWER| == 26 && |DIGITS| == 10 && |B64| == 64
    ensures B64[v] == if v < 26 then UPPER[v] else if v < 52 then LOWER[v - 26]
                      else if v < 62 then DIGITS[v - 52] else "+/"[v - 62]
  {
  }

  lemma SymbolIsTable(v: int)
    requires 0 <= v < 64
    ensures |B64| == 64 && Symbol(v) == B64[v]
  {
    TableParts(v);
    if v < 26 {
      UpperAt(v);
    } else if v < 52 {
      LowerAt(v - 26);
    } else if v < 62 {
      DigitAt(v - 52);
    }
  }

  // The character the table holds for six bits.
  method Letter(v: int) returns (c: char)
    requires 0 <= v < 64
    ensures c == Symbol(v)
  {
    SymbolIsTable(v);
    c := B64[v];
  }

  method AppendGroup(before: string, chunk: Bytes) returns (out: string)
    requires 0 < |chunk| <= 3
    ensures out == before + Group(chunk)
  {
    var c1: Byte, c2: Byte := if |chunk| > 1 then chunk[1] else 0, if |chunk| > 2 then chunk[2] else 0;
    var first := Letter(chunk[0] / 4);
    var second := Letter(chunk[0] % 4 * 16 + c1 / 16);
    var third, fourth := PAD, PAD;
    if |chunk| > 1 {
      third := Letter(c1 % 16 * 4 + c2 / 64);
    }
    if |chunk| > 2 {
      fourth := Letter(c2 % 64);
    }
    out := before + [first];
    out := out + [second];
    out := out + [third];
    out := out + [fourth];
  }

  method Encode(raw: Bytes) returns (out: string)
    ensures out == Encoding(raw)
  {
    out := "";
    var i := 0;
    while i < |raw|
      invariant Encoding(raw) == out + Encoding(From(raw, i))
    {
      EncodingFrom(raw, i, out);
      out := AppendGroup(out, Chunk(raw[i..]));
      i := i + 3;
    }
  }

  lemma SymbolValue(v: int)
    requires 0 <= v <= 64
    ensures Value(Symbol(v)) == v
  {}

  lemma ValueSymbol(c: char)
    requires Value(c) >= 0
    ensures Value(c) <= 64 && Symbol(Value(c)) == c
  {}

  /******* Encoding and decoding *******/

  // Where a byte is cut, each way round.
  lemma TopCut(a: int, b: int, x: int)
    requires 0 <= b < 64
    ensures a * 4 + b / 16 == x <==> a == x / 4 && b / 16 == x % 4
  {}

  lemma MiddleCut(b: int, c: int, y: int)
    requires 0 <= b < 64 && 0 <= c < 64 && 0 <= y < 256
    ensures b % 16 * 16 + c / 4 == y <==> b % 16 == y / 16 && c / 4 == y % 16
  {}

  lemma LowCut(c: int, d: int, z: int)
    requires 0 <= c < 64 && 0 <= d < 64 && 0 <= z < 256
    ensures c % 4 * 64 + d == z <==> c % 4 == z / 64 && d == z % 64
  {}

  // Joining undoes splitting and is undone by it, for each length of the last group.
  lemma JoinOne(x: Byte, a: int, b: int, c: int, d: int)
    ensures Join(a, b, c, d) == Some([x]) <==> (a, b, c, d) == (x / 4, x % 4 * 16, 64, 64)
  {
    if 0 <= b < 64 {
      TopCut(a, b, x);
    }
  }

  lemma JoinTwo(x: Byte, y: Byte, a: int, b: int, c: int, d: int)
    ensures Join(a, b, c, d) == Some([x, y]) <==>
            (a, b, c, d) == (x / 4, x % 4 * 16 + y / 16, y % 16 * 4, 64)
  {
    if 0 <= b < 64 && 0 <= c < 64 {
      TopCut(a, b, x);
      MiddleCut(b, c, y);
    }
  }

  lemma JoinThree(x: Byte, y: Byte, z: Byte, a: int, b: int, c: int, d: int)
    ensures Join(a, b, c, d) == Some([x, y, z]) <==>
            (a, b, c, d) == (x / 4, x % 4 * 16 + y / 16, y % 16 * 4 + z / 64, z % 64)
  {
    if 0 <= b < 64 && 0 <= c < 64 && 0 <= d < 64 {
      TopCut(a, b, x);
      MiddleCut(b, c, y);
      LowCut(c, d, z);
    }
  }

  lemma JoinIffSplit(raw: Bytes, a: int, b: int, c: int, d: int)
    requires 0 < |raw| <= 3
    ensures Join(a, b, c, d) == Some(raw) <==> (a, b, c, d) == Split(raw)
  {
    if |raw| == 1 {
      assert raw == [raw[0]];
      JoinOne(raw[0], a, b, c, d);
    } else if |raw| == 2 {
      assert raw == [raw[0], raw[1]];
      JoinTwo(raw[0], raw[1], a, b, c, d);
    } else {
      assert raw == [raw[0], raw[1], raw[2]];
      JoinThree(raw[0], raw[1], raw[2], a, b, c, d);
    }
  }

  lemma DecodeGroup(raw: Bytes, rest: string)
    requires 0 < |raw| <= 3 && (|raw| < 3 ==> rest == "") && Decode(rest).Some?
    ensures Decode(Group(raw) + rest) == Some(raw + Decode(rest).value)
  {
    var (a, b, c, d) := Split(raw);
    JoinIffSplit(raw, a, b, c, d);
    SymbolValue(a);
    SymbolValue(b);
    SymbolValue(c);
    SymbolValue(d);
    var s := Group(raw) + rest;
    assert s[4..] == rest;
    assert raw + [] == raw;
  }

  // Decoding an encoding gives the bytes back.
  lemma {:induction false} DecodeOfEncoding(raw: Bytes)
    ensures Decode(Encoding(raw)) == Some(raw)
    decreases |raw|
  {
    if raw != [] {
      DecodeOfEncoding(Rest(raw));
      DecodeGroup(Chunk(raw), Encoding(Rest(raw)));
      assert raw == Chunk(raw) + Rest(raw);
    }
  }

  // Four characters for every three bytes begun.
  lemma {:induction false} EncodingLength(raw: Bytes)
    ensures |Encoding(raw)| == 4 * ((|raw| + 2) / 3)
    decreases |raw|
  {
    if raw != [] {
      EncodingLength(Rest(raw));
      var g, e := Group(Chunk(raw)), Encoding(Rest(raw));
      assert |g + e| == 4 + |e|;
      assert (|raw| + 2) / 3 == 1 + (|Rest(raw)| + 2) / 3;
    }
  }

  lemma GroupOfJoined(p: char, q: char, r: char, t: char, first: Bytes)
    requires Join(Value(p), Value(q), Value(r), Value(t)) == Some(first)
    ensures 0 < |first| <= 3 && Group(first) == [p, q, r, t]
  {
    JoinIffSplit(first, Value(p), Value(q), Value(r), Value(t));
    ValueSymbol(p);
    ValueSymbol(q);
    ValueSymbol(r);
    ValueSymbol(t);
  }

  // The first group of a decodable string is the group of the first chunk of its bytes.
  lemma GroupOfDecoded(s: string, raw: Bytes)
    requires s != "" && Decode(s) == Some(raw)
    ensures |s| >= 4 && raw != [] && Group(Chunk(raw)) == s[..4]
    ensures Decode(s[4..]) == Some(Rest(raw))
  {
    var first := Join(Value(s[0]), Value(s[1]), Value(s[2]), Value(s[3])).value;
    GroupOfJoined(s[0], s[1], s[2], s[3], first);
    if |first| == 3 {
      assert raw == first + Decode(s[4..]).value;
      assert Rest(raw) == Decode(s[4..]).value;
    }
    assert Chunk(raw) == first;
  }

  // The encoding is the only string that strictly decodes to the bytes: the encoder is the one of the standard.
  lemma {:induction false} DecodesIffEncoding(s: string, raw: Bytes)
    ensures Decode(s) == Some(raw) <==> s == Encoding(raw)
    decreases |s|
  {
    DecodeOfEncoding(raw);
    if s != "" && Decode(s) == Some(raw) {
      GroupOfDecoded(s, raw);
      DecodesIffEncoding(s[4..], Rest(raw));
      assert s == s[..4] + s[4..];
    }
  }

  /******* Basic credentials *******/

  const BASIC := "Basic "

  // A header from the environment wins; without a user there is no header.
  method BuildAuth(header: string, user: Bytes, pass: Bytes) returns (out: string)
    ensures out == AuthHeader(header, user, pass)
    ensures out == if header != "" then header else if user == [] then "" else "Basic " + Encoding(user + [58] + pass)
  {
    if header != "" {
      return header;
    }
    if user == [] {
      return "";
    }
    var token := Encode(user + [COLON] + pass);
    return BASIC + token;
  }

  function AuthHeader(header: string, user: Bytes, pass: Bytes): string {
    if header != "" then header
    else if user == [] then ""
    else BASIC + Encoding(user + [COLON] + pass)
  }

  function FirstColon(raw: Bytes): nat {
    if raw == [] || raw[0] == COLON then 0 else 1 + FirstColon(raw[1..])
  }

  // What a server reads: the decoded token split at its first colon.
  function Credentials(header: string): Option<(Bytes, Bytes)> {
    if !(BASIC <= header) then None
    else
      match Decode(header[|BASIC|..])
      case None => None
      case Some(raw) =>
        var n := FirstColon(raw);
        if n < |raw| then Some((raw[..n], raw[n + 1..])) else None
  }

  lemma {:induction false} FirstColonSplits(user: Bytes, pass: Bytes)
    ensures var n := FirstColon(user + [COLON] + pass);
            n <= |user| && (n == |user| <==> COLON !in user)
  {
    if user != [] && user[0] != COLON {
      FirstColonSplits(user[1..], pass);
      assert (user + [COLON] + pass)[1..] == user[1..] + [COLON] + pass;
      assert user == [user[0]] + user[1..];
    }
  }

  // The server recovers user and password exactly when the user has no colon.
  lemma CredentialsRecoveredIff(user: Bytes, pass: Bytes)
    requires user != []
    ensures Credentials(AuthHeader("", user, pass)) == Some((user, pass)) <==> COLON !in user
  {
    var raw := user + [COLON] + pass;
    DecodeOfEncoding(raw);
    assert AuthHeader("", user, pass)[|BASIC|..] == Encoding(raw);
    FirstColonSplits(user, pass);
    assert raw[..|user|] == user && raw[|user| + 1..] == pass;
  }
}
