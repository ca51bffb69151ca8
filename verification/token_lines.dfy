/** The text form of a token stream: the scanner writes one line
    `<KIND, value>` per token, and `parse_tokens` reads such text back by
    splitting it into lines (Python's `str.splitlines`), stripping every
    leading and trailing '<' and '>' from a line (`strip("<>")`), and
    splitting what is left at each ", " (`split(", ")`): the first piece is
    the kind, the second, when there is one, the value. */
module TokenLines {
  import opened Text
  import S = Scanner
  import G = Grammar

  /** The line boundaries of `str.splitlines`: \n, \v, \f, \r, \x1c, \x1d,
      \x1e, \x85, U+2028 and U+2029 (and "\r\n" as one boundary). */
  predicate IsLineBreak(c: char) {
    var n := c as int;
    (10 <= n <= 13) || (28 <= n <= 30) || n == 0x85 || n == 0x2028 || n == 0x2029
  }

  predicate NoLineBreak(s: string) {
    forall k :: 0 <= k < |s| ==> !IsLineBreak(s[k])
  }

  /** The first line boundary at or after `i`, or the length. */
  function LineEnd(s: string, i: nat): (e: nat)
    requires i <= |s|
    ensures i <= e <= |s|
    ensures forall k :: i <= k < e ==> !IsLineBreak(s[k])
    ensures e < |s| ==> IsLineBreak(s[e])
    decreases |s| - i
  {
    if i == |s| || IsLineBreak(s[i]) then i else LineEnd(s, i + 1)
  }

  /** The length of the boundary at `e`: two for "\r\n", else one. */
  function BreakLength(s: string, e: nat): nat
    requires e < |s|
  {
    if s[e] == '\r' && e + 1 < |s| && s[e + 1] == '\n' then 2 else 1
  }

  /** `str.splitlines()`: the text between boundaries, with no empty line
      after a final boundary; no line holds a boundary character. */
  function SplitLines(s: string): (lines: seq<string>)
    ensures forall j :: 0 <= j < |lines| ==> NoLineBreak(lines[j])
    ensures s == [] <==> lines == []
    decreases |s|
  {
    if s == [] then []
    else
      var e := LineEnd(s, 0);
      if e == |s| then [s]
      else [s[..e]] + SplitLines(s[e + BreakLength(s, e)..])
  }

  /** Each line followed by "\n": what writing one line per entry gives. */
  function JoinLines(lines: seq<string>): string {
    if lines == [] then "" else lines[0] + "\n" + JoinLines(lines[1..])
  }

  /** A line without boundaries, a "\n", then more text: the line is
      split off first. */
  lemma SplitLinesCons(l: string, rest: string)
    requires NoLineBreak(l)
    ensures SplitLines(l + "\n" + rest) == [l] + SplitLines(rest)
  {
    var s := l + "\n" + rest;
    assert s[|l|] == '\n';
    assert forall k :: 0 <= k < |l| ==> s[k] == l[k];
    assert LineEnd(s, 0) == |l|;
    assert s[..|l|] == l;
    assert s[|l| + 1..] == rest;
  }

  /** Lines that hold no boundary come back from the text they are
      written to. */
  lemma {:induction false} SplitJoin(lines: seq<string>)
    requires forall j :: 0 <= j < |lines| ==> NoLineBreak(lines[j])
    ensures SplitLines(JoinLines(lines)) == lines
  {
    if lines != [] {
      SplitLinesCons(lines[0], JoinLines(lines[1..]));
      SplitJoin(lines[1..]);
    }
  }

  predicate IsAngle(c: char) {
    c == '<' || c == '>'
  }

  /** `lstrip("<>")`. */
  function StripLeft(s: string): (r: string)
    ensures |r| <= |s| && r == s[|s| - |r|..]
    ensures r == [] || !IsAngle(r[0])
    ensures forall k :: 0 <= k < |s| - |r| ==> IsAngle(s[k])
    decreases |s|
  {
    if s != [] && IsAngle(s[0]) then StripLeft(s[1..]) else s
  }

  /** `rstrip("<>")`. */
  function StripRight(s: string): (r: string)
    ensures |r| <= |s| && r == s[..|r|]
    ensures r == [] || !IsAngle(r[|r| - 1])
    ensures forall k :: |r| <= k < |s| ==> IsAngle(s[k])
    decreases |s|
  {
    if s != [] && IsAngle(s[|s| - 1]) then StripRight(s[..|s| - 1]) else s
  }

  /** `strip("<>")`. */
  function Strip(s: string): string {
    StripRight(StripLeft(s))
  }

  /** A ", " starts at `k`. */
  predicate SeparatorAt(s: string, k: nat) {
    k + 2 <= |s| && s[k] == ',' && s[k + 1] == ' '
  }

  predicate NoSeparator(s: string) {
    forall k :: 0 <= k < |s| ==> !SeparatorAt(s, k)
  }

  /** The first ", " at or after `i`, or the length when there is none. */
  function SeparatorFrom(s: string, i: nat): (k: nat)
    requires i <= |s|
    ensures i <= k <= |s|
    ensures k < |s| ==> SeparatorAt(s, k)
    ensures forall j :: i <= j < k ==> !SeparatorAt(s, j)
    decreases |s| - i
  {
    if i == |s| || SeparatorAt(s, i) then i else SeparatorFrom(s, i + 1)
  }

  /** `split(", ")`: the pieces between separators, left to right; never
      empty, and a single piece, the whole text, exactly when the text holds
      no separator. */
  function Split(s: string): (parts: seq<string>)
    ensures |parts| >= 1
    ensures |parts| == 1 <==> NoSeparator(s)
    ensures |parts| == 1 ==> parts[0] == s
    decreases |s|
  {
    var k := SeparatorFrom(s, 0);
    if k == |s| then [s] else [s[..k]] + Split(s[k + 2..])
  }

  /** `", ".join(parts)`. */
  function JoinPieces(parts: seq<string>): string
    requires |parts| >= 1
  {
    if |parts| == 1 then parts[0] else parts[0] + ", " + JoinPieces(parts[1..])
  }

  /** The text before the first separator holds none. */
  lemma BeforeSeparator(s: string, k: nat)
    requires k <= |s| && forall j :: 0 <= j < k ==> !SeparatorAt(s, j)
    ensures NoSeparator(s[..k])
  {
    forall j | 0 <= j < k
      ensures !SeparatorAt(s[..k], j)
    {
      assert !SeparatorAt(s, j);
    }
  }

  /** A text is what comes before a separator, the separator, and what
      comes after it. */
  lemma SeparatorSplits(s: string, k: nat)
    requires SeparatorAt(s, k)
    ensures s == s[..k] + ", " + s[k + 2..]
  {
    assert s[k..k + 2] == [s[k], s[k + 1]];
    assert s == s[..k] + s[k..k + 2] + s[k + 2..];
  }

  /** Joining the pieces with ", " gives back the text: `split` loses
      nothing but the separators. */
  lemma {:induction false} SplitJoinPieces(s: string)
    ensures JoinPieces(Split(s)) == s
    decreases |s|
  {
    var k := SeparatorFrom(s, 0);
    if k < |s| {
      var rest := s[k + 2..];
      SplitJoinPieces(rest);
      assert Split(s) == [s[..k]] + Split(rest);
      assert JoinPieces(Split(s)) == s[..k] + ", " + JoinPieces(Split(rest));
      SeparatorSplits(s, k);
    }
  }

  /** No piece of `split(", ")` holds a separator. */
  lemma {:induction false} SplitPiecesClean(s: string)
    ensures forall j :: 0 <= j < |Split(s)| ==> NoSeparator(Split(s)[j])
    decreases |s|
  {
    var k := SeparatorFrom(s, 0);
    BeforeSeparator(s, k);
    if k < |s| {
      var rest := s[k + 2..];
      SplitPiecesClean(rest);
      assert Split(s) == [s[..k]] + Split(rest);
    } else {
      assert s[..k] == s;
    }
  }

  /** One line of `parse_tokens`: the first piece is the kind, the second,
      when there is one, the value; further pieces are dropped. */
  function DecodeLine(line: string): G.Token {
    var parts := Split(Strip(line));
    G.Token(parts[0], if |parts| > 1 then Some(parts[1]) else None)
  }

  /** What a decoded line looks like: no value exactly when the stripped
      line holds no ", ", and then the whole stripped line is the kind;
      otherwise the stripped line is the kind, ", ", then text that starts
      with the value. Neither part holds a separator. */
  lemma DecodeLineShape(line: string)
    ensures var t := DecodeLine(line);
      && (t.value.None? <==> NoSeparator(Strip(line)))
      && (t.value.None? ==> t.kind == Strip(line))
      && (t.value.Some? ==>
            && |t.kind| + 2 <= |Strip(line)| && Strip(line)[..|t.kind| + 2] == t.kind + ", "
            && t.value.value <= Strip(line)[|t.kind| + 2..])
      && NoSeparator(t.kind)
      && (t.value.Some? ==> NoSeparator(t.value.value))
  {
    var x := Strip(line);
    SplitJoinPieces(x);
    SplitPiecesClean(x);
    var parts := Split(x);
    if |parts| > 1 {
      assert parts[1..][0] == parts[1];
      assert x == parts[0] + ", " + JoinPieces(parts[1..]);
    }
  }

  /** What `parse_tokens` returns for a text: a token per line. */
  function TokensOf(stream: string): (ts: seq<G.Token>)
    ensures |ts| == |SplitLines(stream)|
    ensures stream == [] <==> ts == []
  {
    DecodeLines(SplitLines(stream))
  }

  /** One token per line, in order. */
  function DecodeLines(lines: seq<string>): (ts: seq<G.Token>)
    ensures |ts| == |lines| && forall i :: 0 <= i < |lines| ==> ts[i] == DecodeLine(lines[i])
  {
    if lines == [] then [] else [DecodeLine(lines[0])] + DecodeLines(lines[1..])
  }

  lemma DecodeLinesCons(l: string, lines: seq<string>)
    ensures DecodeLines([l] + lines) == [DecodeLine(l)] + DecodeLines(lines)
  {
    assert ([l] + lines)[0] == l && ([l] + lines)[1..] == lines;
  }

  /** The first `i` tokens are the decoded first `i` lines. */
  predicate DecodedUpTo(tokens: seq<G.Token>, lines: seq<string>, i: nat) {
    i <= |lines| && |tokens| == i && forall j :: 0 <= j < i ==> tokens[j] == DecodeLine(lines[j])
  }

  lemma DecodedExtend(tokens: seq<G.Token>, lines: seq<string>, i: nat, t: G.Token)
    requires DecodedUpTo(tokens, lines, i) && i < |lines| && t == DecodeLine(lines[i])
    ensures DecodedUpTo(tokens + [t], lines, i + 1)
  {
  }

  lemma DecodedAll(stream: string, tokens: seq<G.Token>)
    requires DecodedUpTo(tokens, SplitLines(stream), |SplitLines(stream)|)
    ensures tokens == TokensOf(stream)
  {
  }

  /** `parse_tokens`, with its loop over the lines. */
  method ParseTokens(stream: string) returns (tokens: seq<G.Token>)
    ensures tokens == TokensOf(stream)
  {
    tokens := [];
    var lines := SplitLines(stream);
    for i := 0 to |lines|
      invariant DecodedUpTo(tokens, lines, i)
    {
      var parts := Split(Strip(lines[i]));
      var tokenType := parts[0];
      var value := if |parts| > 1 then Some(parts[1]) else None;
      DecodedExtend(tokens, lines, i, G.Token(tokenType, value));
      tokens := tokens + [G.Token(tokenType, value)];
    }
    DecodedAll(stream, tokens);
  }

  /** The line the scanner writes for a token. */
  function EncodeLine(t: S.Token): string {
    "<" + t.kind + ", " + t.value + ">"
  }

  /** A written line is the kind and the value between '<' and '>', with
      ", " between them, and nothing else. */
  lemma EncodeLineShape(t: S.Token)
    ensures var line := EncodeLine(t);
      && |line| == |t.kind| + |t.value| + 4
      && line[0] == '<' && line[|line| - 1] == '>'
      && line[1..|t.kind| + 1] == t.kind && SeparatorAt(line, |t.kind| + 1)
      && line[|t.kind| + 3..|line| - 1] == t.value
  {
    var line := EncodeLine(t);
    assert line == "<" + t.kind + ", " + t.value + ">";
    assert line[1..|t.kind| + 1] == t.kind;
    assert line[|t.kind| + 3..|line| - 1] == t.value;
  }

  /** The text the scanner writes for a token sequence. */
  function Encode(ts: seq<S.Token>): string {
    JoinLines(EncodedLines(ts))
  }

  /** The lines written for a token sequence, one per token, in order. */
  function EncodedLines(ts: seq<S.Token>): (lines: seq<string>)
    ensures |lines| == |ts| && forall i :: 0 <= i < |ts| ==> lines[i] == EncodeLine(ts[i])
  {
    seq(|ts|, i requires 0 <= i < |ts| => EncodeLine(ts[i]))
  }

  /** The parser's view of a scanner token: the value is present. */
  function ToParserToken(t: S.Token): G.Token {
    G.Token(t.kind, Some(t.value))
  }

  /** A token whose line reads back as itself: neither part holds ", " or
      a line boundary, the kind does not start with an angle bracket and
      the value does not end with one. */
  predicate Encodable(t: S.Token) {
    && NoSeparator(t.kind) && NoSeparator(t.value)
    && NoLineBreak(t.kind) && NoLineBreak(t.value)
    && (t.kind == [] || !IsAngle(t.kind[0]))
    && (t.value == [] || !IsAngle(t.value[|t.value| - 1]))
  }

  /** A line with no ", " once stripped is all kind, with no value. */
  lemma DecodeWithoutSeparator(line: string)
    requires NoSeparator(Strip(line))
    ensures DecodeLine(line) == G.Token(Strip(line), None)
  {
  }

  /** Text without ", ", a separator, then more text: the text is the
      first piece. */
  lemma SplitAtFirst(a: string, b: string)
    requires NoSeparator(a)
    ensures Split(a + ", " + b) == [a] + Split(b)
  {
    var y := a + ", " + b;
    forall j | 0 <= j < |a|
      ensures !SeparatorAt(y, j)
    {
      if j + 1 < |a| {
        assert !SeparatorAt(a, j);
      } else {
        assert y[j + 1] == ',';
      }
    }
    assert SeparatorAt(y, |a|);
    assert SeparatorFrom(y, 0) == |a|;
    assert y[..|a|] == a;
    assert y[|a| + 2..] == b;
  }

  lemma StripLeftPast(c: char, x: string)
    requires IsAngle(c) && x != [] && !IsAngle(x[0])
    ensures StripLeft([c] + x) == x
  {
    assert ([c] + x)[1..] == x;
  }

  lemma StripRightPast(y: string, c: char)
    requires IsAngle(c) && y != [] && !IsAngle(y[|y| - 1])
    ensures StripRight(y + [c]) == y
  {
    assert (y + [c])[..|y|] == y;
  }

  /** `strip` takes exactly the brackets the scanner put around a line. */
  lemma StripEncoded(t: S.Token)
    requires t.kind == [] || !IsAngle(t.kind[0])
    requires t.value == [] || !IsAngle(t.value[|t.value| - 1])
    ensures Strip(EncodeLine(t)) == t.kind + ", " + t.value
  {
    var y := t.kind + ", " + t.value;
    assert !IsAngle(y[0]) by {
      if t.kind != [] {
        assert y[0] == t.kind[0];
      }
    }
    assert !IsAngle(y[|y| - 1]) by {
      if t.value != [] {
        assert y[|y| - 1] == t.value[|t.value| - 1];
      }
    }
    assert EncodeLine(t) == ['<'] + (y + ['>']);
    StripLeftPast('<', y + ['>']);
    StripRightPast(y, '>');
  }

  /** A kind and a value joined by ", ", neither holding one, split back
      into the two. */
  lemma SplitPair(kind: string, value: string)
    requires NoSeparator(kind) && NoSeparator(value)
    ensures Split(kind + ", " + value) == [kind, value]
  {
    SplitAtFirst(kind, value);
    var rest := Split(value);
    assert |rest| == 1 && rest[0] == value;
    assert [kind] + rest == [kind, value];
  }

  /** A line that strips and splits into two pieces is that kind and value. */
  lemma DecodeTwoPieces(line: string, kind: string, value: string)
    requires Split(Strip(line)) == [kind, value]
    ensures DecodeLine(line) == G.Token(kind, Some(value))
  {
  }

  lemma DecodeEncodeLine(t: S.Token)
    requires Encodable(t)
    ensures DecodeLine(EncodeLine(t)) == ToParserToken(t)
  {
    StripEncoded(t);
    SplitPair(t.kind, t.value);
    DecodeTwoPieces(EncodeLine(t), t.kind, t.value);
  }

  /** The lines written for encodable tokens hold no boundary. */
  lemma EncodedLinesUnbroken(t: S.Token)
    requires NoLineBreak(t.kind) && NoLineBreak(t.value)
    ensures NoLineBreak(EncodeLine(t))
  {
    var l := EncodeLine(t);
    forall k | 0 <= k < |l|
      ensures !IsLineBreak(l[k])
    {
      if 1 <= k < 1 + |t.kind| {
        assert l[k] == t.kind[k - 1];
      } else if 3 + |t.kind| <= k < 3 + |t.kind| + |t.value| {
        assert l[k] == t.value[k - 3 - |t.kind|];
      }
    }
  }

  /** When no kind and no value holds a line boundary, the written text
      splits back into exactly the written lines, one per token. */
  lemma EncodeOneLinePerToken(ts: seq<S.Token>)
    requires forall i :: 0 <= i < |ts| ==> NoLineBreak(ts[i].kind) && NoLineBreak(ts[i].value)
    ensures SplitLines(Encode(ts)) == EncodedLines(ts)
    ensures |TokensOf(Encode(ts))| == |ts|
  {
    var lines := EncodedLines(ts);
    forall j | 0 <= j < |lines|
      ensures NoLineBreak(lines[j])
    {
      EncodedLinesUnbroken(ts[j]);
    }
    SplitJoin(lines);
  }

  /** `parse_tokens` reads a line without boundaries, then the rest. */
  lemma TokensOfCons(l: string, rest: string)
    requires NoLineBreak(l)
    ensures TokensOf(l + "\n" + rest) == [DecodeLine(l)] + TokensOf(rest)
  {
    SplitLinesCons(l, rest);
    DecodeLinesCons(l, SplitLines(rest));
  }


  /** Reading back the text written for a token sequence gives the same
      (kind, value) pairs, for tokens whose lines are unambiguous. */
  lemma RoundTrip(ts: seq<S.Token>)
    requires forall i :: 0 <= i < |ts| ==> Encodable(ts[i])
    ensures TokensOf(Encode(ts)) == seq(|ts|, i requires 0 <= i < |ts| => ToParserToken(ts[i]))
  {
    var lines := EncodedLines(ts);
    EncodeOneLinePerToken(ts);
    forall i | 0 <= i < |ts|
      ensures DecodeLine(lines[i]) == ToParserToken(ts[i])
    {
      DecodeEncodeLine(ts[i]);
    }
  }

  /** A line whose stripped text splits into at least two pieces decodes
      to the first two. */
  lemma DecodeFirstTwo(line: string, kind: string, value: string, rest: seq<string>)
    requires Split(Strip(line)) == [kind, value] + rest
    ensures DecodeLine(line) == G.Token(kind, Some(value))
  {
  }

  /** The last character of `a + ", " + b` is that of `b`, or a space. */
  lemma LastOfJoined(a: string, b: string)
    requires b == [] || !IsAngle(b[|b| - 1])
    ensures var v := a + ", " + b; !IsAngle(v[|v| - 1])
  {
    var v := a + ", " + b;
    if b != [] {
      assert v[|v| - 1] == b[|b| - 1];
    }
  }

  /** Two separator-free texts and then any text, joined by ", ", split
      into the first two and the pieces of the third. */
  lemma SplitAtSecond(kind: string, a: string, b: string)
    requires NoSeparator(kind) && NoSeparator(a)
    ensures Split(kind + ", " + (a + ", " + b)) == [kind, a] + Split(b)
  {
    SplitAtFirst(kind, a + ", " + b);
    SplitAtFirst(a, b);
  }

  /** A value holding ", " is cut at its first separator: only the text
      before it comes back. */
  lemma ValueCutAtSeparator(kind: string, a: string, b: string)
    requires NoSeparator(kind) && NoSeparator(a)
    requires kind == [] || !IsAngle(kind[0])
    requires b == [] || !IsAngle(b[|b| - 1])
    ensures DecodeLine(EncodeLine(S.Token(kind, a + ", " + b))) == G.Token(kind, Some(a))
  {
    var v := a + ", " + b;
    var t := S.Token(kind, v);
    LastOfJoined(a, b);
    StripEncoded(t);
    SplitAtSecond(kind, a, b);
    DecodeFirstTwo(EncodeLine(t), kind, a, Split(b));
  }

  /** The kind's first character starts the joined line body. */
  lemma FirstOfJoined(kind: string, x: string)
    requires kind == [] || !IsAngle(kind[0])
    ensures !IsAngle((kind + ", " + x)[0])
  {
    if kind != [] {
      assert (kind + ", " + x)[0] == kind[0];
    }
  }

  /** `rstrip` removes two trailing brackets in a row. */
  lemma StripRightTwo(y: string, c: char, d: char)
    requires IsAngle(c) && IsAngle(d) && y != [] && !IsAngle(y[|y| - 1])
    ensures StripRight((y + [c]) + [d]) == y
  {
    assert ((y + [c]) + [d])[..|y| + 1] == y + [c];
    StripRightPast(y, c);
  }

  /** Stripping a line whose value ends in an extra angle bracket. */
  lemma StripExtraAngle(kind: string, x: string, c: char)
    requires IsAngle(c) && x != [] && !IsAngle(x[|x| - 1])
    requires kind == [] || !IsAngle(kind[0])
    ensures Strip(EncodeLine(S.Token(kind, x + [c]))) == kind + ", " + x
  {
    var y := kind + ", " + x;
    assert EncodeLine(S.Token(kind, x + [c])) == ['<'] + ((y + [c]) + ['>']);
    FirstOfJoined(kind, x);
    StripLeftPast('<', (y + [c]) + ['>']);
    assert y[|y| - 1] == x[|x| - 1];
    StripRightTwo(y, c, '>');
  }

  /** A value ending in an angle bracket loses it to `strip`. */
  lemma TrailingAngleStripped(kind: string, x: string, c: char)
    requires IsAngle(c) && Encodable(S.Token(kind, x)) && x != []
    ensures DecodeLine(EncodeLine(S.Token(kind, x + [c]))) == G.Token(kind, Some(x))
  {
    StripExtraAngle(kind, x, c);
    SplitPair(kind, x);
    DecodeTwoPieces(EncodeLine(S.Token(kind, x + [c])), kind, x);
  }

  /** The part of a written line before a boundary in its value. */
  lemma HeadLineDecodes(kind: string, a: string)
    requires NoSeparator(kind) && NoSeparator(a)
    requires kind == [] || !IsAngle(kind[0])
    requires a == [] || !IsAngle(a[|a| - 1])
    ensures DecodeLine("<" + kind + ", " + a) == G.Token(kind, Some(a))
  {
    var x := kind + ", " + a;
    FirstOfJoined(kind, a);
    LastOfJoined(kind, a);
    assert "<" + kind + ", " + a == ['<'] + x;
    StripLeftPast('<', x);
    assert Strip("<" + kind + ", " + a) == x;
    SplitPair(kind, a);
    DecodeTwoPieces("<" + kind + ", " + a, kind, a);
  }

  /** The part of a written line after a boundary in its value. */
  lemma TailLineDecodes(b: string)
    requires NoSeparator(b) && b != [] && !IsAngle(b[0]) && !IsAngle(b[|b| - 1])
    ensures DecodeLine(b + ">") == G.Token(b, None)
  {
    assert StripLeft(b + ">") == b + ">";
    StripRightPast(b, '>');
    DecodeWithoutSeparator(b + ">");
  }

  /** The text written for one token whose value holds a "\n". */
  lemma EncodeBrokenValue(kind: string, a: string, b: string)
    ensures Encode([S.Token(kind, a + "\n" + b)])
      == ("<" + kind + ", " + a) + "\n" + ((b + ">") + "\n" + "")
  {
    var head := "<" + kind + ", " + a;
    var tail := b + ">";
    var t := S.Token(kind, a + "\n" + b);
    assert EncodeLine(t) == head + "\n" + tail;
    var lines := EncodedLines([t]);
    assert lines == [head + "\n" + tail] && lines[1..] == [];
    assert Encode([t]) == (head + "\n" + tail) + "\n" + JoinLines([]);
  }

  /** Neither part of that text holds a boundary. */
  lemma BrokenValueLinesUnbroken(kind: string, a: string, b: string)
    requires NoLineBreak(kind) && NoLineBreak(a) && NoLineBreak(b)
    ensures NoLineBreak("<" + kind + ", " + a) && NoLineBreak(b + ">")
  {
    var head := "<" + kind + ", " + a;
    var tail := b + ">";
    EncodedLinesUnbroken(S.Token(kind, a));
    assert EncodeLine(S.Token(kind, a)) == head + ">";
    forall k | 0 <= k < |head| ensures !IsLineBreak(head[k]) {
      assert head[k] == (head + ">")[k];
    }
    forall k | 0 <= k < |tail| ensures !IsLineBreak(tail[k]) {
      if k < |b| {
        assert tail[k] == b[k];
      }
    }
  }

  /** Two boundary-free lines, each written with "\n", read back as two
      tokens. */
  lemma TokensOfTwoLines(head: string, tail: string)
    requires NoLineBreak(head) && NoLineBreak(tail)
    ensures TokensOf(head + "\n" + (tail + "\n" + "")) == [DecodeLine(head), DecodeLine(tail)]
  {
    TokensOfCons(head, tail + "\n" + "");
    TokensOfCons(tail, "");
  }

  /** A line boundary inside a value splits its line in two: the value
      `a\nb` of a token reads back as the value `a`, followed by a second
      token whose kind is `b` and which has no value; so the STRING `a\nb`
      comes back as the STRING `a` and a token of kind `b`. */
  lemma LineBreakInValueSplits(kind: string, a: string, b: string)
    requires NoSeparator(kind) && NoLineBreak(kind) && (kind == [] || !IsAngle(kind[0]))
    requires NoSeparator(a) && NoLineBreak(a) && (a == [] || !IsAngle(a[|a| - 1]))
    requires NoSeparator(b) && NoLineBreak(b) && b != [] && !IsAngle(b[0]) && !IsAngle(b[|b| - 1])
    ensures TokensOf(Encode([S.Token(kind, a + "\n" + b)]))
      == [G.Token(kind, Some(a)), G.Token(b, None)]
  {
    EncodeBrokenValue(kind, a, b);
    BrokenValueLinesUnbroken(kind, a, b);
    TokensOfTwoLines("<" + kind + ", " + a, b + ">");
    HeadLineDecodes(kind, a);
    TailLineDecodes(b);
  }
}
