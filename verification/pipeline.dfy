/** The two stages joined: calling `get_next_token` until it yields `None`
    or raises, writing each token as a `<KIND, value>` line, and reading
    the lines back with `parse_tokens`. */
module Pipeline {
  import opened Text
  import opened Scanner
  import opened ScannerFacts
  import L = TokenLines
  import G = Grammar

  /** Repeated `get_next_token` calls from cursor `i` in state `st`: the
      tokens in order, and how the run ended (end of input or an error).
      That the run ends at all is the scanner's progress: each token moves
      the cursor forward, and the cursor never passes the length plus one. */
  function ScanAll(s: string, i: nat, st: State): (r: (seq<Token>, ScanResult))
    requires i <= |s| + 1
    ensures !r.1.Emitted?
    decreases |s| + 1 - i
  {
    var (res, j, next) := Step(s, i, st);
    match res
    case Emitted(t) =>
      var (rest, end) := ScanAll(s, j, next);
      ([t] + rest, end)
    case _ => ([], res)
  }

  /** The tokens of a scan, and each one is what one step emitted. */
  lemma {:induction false} ScanAllTokensAreSteps(s: string, i: nat, st: State, n: nat)
    requires i <= |s| + 1
    requires n < |ScanAll(s, i, st).0|
    ensures exists k: nat, q: State :: k <= |s| + 1 && Step(s, k, q).0 == Emitted(ScanAll(s, i, st).0[n])
    decreases |s| + 1 - i
  {
    var (res, j, next) := Step(s, i, st);
    if n == 0 {
      assert Step(s, i, st).0 == Emitted(ScanAll(s, i, st).0[0]);
    } else {
      ScanAllTokensAreSteps(s, j, next, n - 1);
    }
  }

  /** A value that survives its `<KIND, value>` line. */
  predicate SafeValue(v: string) {
    L.NoSeparator(v) && L.NoLineBreak(v) && (v == [] || !L.IsAngle(v[|v| - 1]))
  }

  /** Text that holds no ',', no line boundary and no angle bracket. */
  predicate Plain(v: string) {
    forall k :: 0 <= k < |v| ==> v[k] != ',' && !L.IsLineBreak(v[k]) && !L.IsAngle(v[k])
  }

  lemma PlainIsSafe(v: string)
    requires Plain(v)
    ensures SafeValue(v)
  {
    forall k | 0 <= k < |v|
      ensures !L.SeparatorAt(v, k)
    {
    }
  }

  /** Capital letters and '_', as every kind is spelled. */
  predicate Capitals(v: string) {
    forall k :: 0 <= k < |v| ==> 'A' <= v[k] <= 'Z' || v[k] == '_'
  }

  lemma KindIsPlain(k: string)
    requires IsTokenKind(k)
    ensures Plain(k)
  {
    assert Capitals(k);
  }

  lemma KindEncodable(k: string, v: string)
    requires IsTokenKind(k) && SafeValue(v)
    ensures L.Encodable(Token(k, v))
  {
    KindIsPlain(k);
    PlainIsSafe(k);
  }

  lemma PunctuationValueSafe(s: string, i: nat, st: State, j: nat)
    requires FirstNonSpace(s, i, j) && IsPunctuation(s[j])
    ensures Step(s, i, st).0.Emitted? && SafeValue(Step(s, i, st).0.token.value)
  {
    StepPunctuation(s, i, st, j);
    var c := s[j];
    assert !L.SeparatorAt([c], 0);
    assert c in "{}:,[]";
  }

  lemma NumberValueSafe(s: string, i: nat, st: State, j: nat)
    requires FirstNonSpace(s, i, j) && (IsDigit(s[j]) || s[j] == '-')
    ensures Step(s, i, st).0.Emitted? && SafeValue(Step(s, i, st).0.token.value)
  {
    StepNumber(s, i, st, j);
    var v := Step(s, i, st).0.token.value;
    assert forall m :: 0 <= m < |v| ==> IsNumberChar(v[m]);
    PlainIsSafe(v);
  }

  lemma WordValueSafe(s: string, i: nat, st: State, j: nat)
    requires FirstNonSpace(s, i, j) && (s[j] == 't' || s[j] == 'f' || s[j] == 'n')
    requires Step(s, i, st).0.Emitted?
    ensures SafeValue(Step(s, i, st).0.token.value)
  {
    var v := Step(s, i, st).0.token.value;
    if s[j] == 'n' {
      StepNull(s, i, st, j);
      assert v == "null";
    } else {
      StepBoolean(s, i, st, j);
      assert v == "true" || v == "false";
    }
    assert Plain(v);
    PlainIsSafe(v);
  }

  /** Every token a step emits is written and read back unchanged, unless
      it is a STRING whose value is not safe: kinds, punctuation, numbers
      and the three words hold no ", ", no boundary and no angle bracket. */
  lemma StepEncodable(s: string, i: nat, st: State)
    requires Step(s, i, st).0.Emitted?
    requires Step(s, i, st).0.token.kind == "STRING" ==> SafeValue(Step(s, i, st).0.token.value)
    ensures L.Encodable(Step(s, i, st).0.token)
  {
    var t := Step(s, i, st).0.token;
    var j := SkipSpaces(s, i);
    assert FirstNonSpace(s, i, j);
    StepKinds(s, i, st);
    var c := s[j];
    if IsPunctuation(c) {
      PunctuationValueSafe(s, i, st, j);
    } else if IsDigit(c) || c == '-' {
      NumberValueSafe(s, i, st, j);
    } else if c == 't' || c == 'f' || c == 'n' {
      WordValueSafe(s, i, st, j);
    } else if c == '"' {
      StepString(s, i, st, j);
    }
    KindEncodable(t.kind, t.value);
  }

  /** Writing a scan's tokens and reading them back with `parse_tokens`
      gives the same (kind, value) pairs, for every text whose STRING
      tokens hold no ", " and no line boundary and do not end in an angle
      bracket. */
  lemma ScanWriteRead(s: string)
    requires forall t :: t in ScanAll(s, 0, Start).0 && t.kind == "STRING" ==> SafeValue(t.value)
    ensures var ts := ScanAll(s, 0, Start).0;
      L.TokensOf(L.Encode(ts)) == seq(|ts|, i requires 0 <= i < |ts| => L.ToParserToken(ts[i]))
  {
    var ts := ScanAll(s, 0, Start).0;
    forall n | 0 <= n < |ts|
      ensures L.Encodable(ts[n])
    {
      ScanAllTokensAreSteps(s, 0, Start, n);
      var k: nat, q: State :| k <= |s| + 1 && Step(s, k, q).0 == Emitted(ts[n]);
      assert ts[n] in ts;
      StepEncodable(s, k, q);
    }
    L.RoundTrip(ts);
  }
}
