/** What one scanner step promises, stated over `Scanner.Step` for every
    text, cursor and state. Each lemma fixes `j`, the first non-whitespace
    position at or after the cursor, and says what the character there
    produces. */
module ScannerFacts {
  import opened Text
  import opened Scanner

  /** Position `j` is where `skip_whitespace` stops when it starts at `i`
      and finds a character. */
  predicate FirstNonSpace(s: string, i: nat, j: nat) {
    i <= j < |s| && !IsSpace(s[j]) && forall k :: i <= k < j ==> IsSpace(s[k])
  }

  lemma {:induction false} SkipSpacesStopsAt(s: string, i: nat, j: nat)
    requires FirstNonSpace(s, i, j)
    ensures SkipSpaces(s, i) == j
    decreases j - i
  {
    if i < j {
      SkipSpacesStopsAt(s, i + 1, j);
    }
  }

  /** The ten token kinds. */
  predicate IsTokenKind(k: string) {
    k in {"LEFT_BRACE", "RIGHT_BRACE", "LEFT_BRACKET", "RIGHT_BRACKET", "COLON",
          "COMMA", "STRING", "NUMBER", "BOOLEAN", "NULL"}
  }

  /** The kind each punctuation character stands for. */
  function PunctuationKind(c: char): string
    requires IsPunctuation(c)
  {
    match c
    case '{' => "LEFT_BRACE"
    case '}' => "RIGHT_BRACE"
    case ':' => "COLON"
    case ',' => "COMMA"
    case '[' => "LEFT_BRACKET"
    case ']' => "RIGHT_BRACKET"
  }

  /** Every punctuation character has an entry in the transition table, and
      the name of the state it leads to is the character's kind; so the
      `INVALID` branch of the punctuation case never fires. */
  lemma PunctuationInTable(c: char)
    requires IsPunctuation(c)
    ensures Lookup(Start, Char(c)) != Invalid
    ensures Name(Lookup(Start, Char(c))) == PunctuationKind(c)
  {
    assert c == '{' || c == '}' || c == ':' || c == ',' || c == '[' || c == ']';
  }

  /** The keys of the transition table are exactly the thirteen listed
      pairs: eleven characters and the digit class from START, and the
      closing quote inside a string. */
  lemma TransitionKeys(st: State, inp: Input)
    ensures (st, inp) in Transitions <==>
      || (st == Start && (inp == Digit || (inp.Char? && inp.c in {'{', '}', ':', ',', '[', ']', '"', '-', 't', 'f', 'n'})))
      || (st == InString && inp == Char('"'))
  {
  }

  /** No entry leads back to START or to INVALID, so `Lookup` yields
      INVALID only for a missing entry; a digit moves from START into a
      number and from nowhere else. */
  lemma TransitionTargets(st: State, inp: Input)
    ensures (st, inp) in Transitions ==> Transitions[(st, inp)] !in {Start, Invalid}
    ensures Lookup(st, Digit) == (if st == Start then InNumber else Invalid)
  {
  }

  /** A text is blank, in the parser's sense, exactly when the scanner's
      whitespace skipping runs through all of it. */
  lemma BlankIsSkipped(s: string)
    ensures IsBlank(s) <==> SkipSpaces(s, 0) == |s|
  {
    var j := SkipSpaces(s, 0);
    if j < |s| {
      assert !IsSpace(s[j]);
    }
  }

  /** End of input: the step yields `None` exactly when nothing but
      whitespace remains; it then leaves the cursor at the end of the
      consumed whitespace and the state unchanged. */
  lemma StepAtEnd(s: string, i: nat, st: State)
    ensures Step(s, i, st).0 == EndOfInput <==> forall k :: i <= k < |s| ==> IsSpace(s[k])
    ensures Step(s, i, st).0 == EndOfInput ==>
      Step(s, i, st).1 == (if i <= |s| then |s| else i) && Step(s, i, st).2 == st
  {
    var j := SkipSpaces(s, i);
    if j < |s| {
      assert !IsSpace(s[j]);
    }
  }

  /** Punctuation: the single-character token of that kind; the cursor
      moves one past the character. */
  lemma StepPunctuation(s: string, i: nat, st: State, j: nat)
    requires FirstNonSpace(s, i, j) && IsPunctuation(s[j])
    ensures Step(s, i, st) ==
      (Emitted(Token(PunctuationKind(s[j]), [s[j]])), j + 1, Lookup(Start, Char(s[j])))
  {
    SkipSpacesStopsAt(s, i, j);
    PunctuationInTable(s[j]);
  }

  /** Strings: the value is what follows the opening quote up to the next
      quote and holds no quote; the cursor ends one past the closing quote,
      or at length + 1 when there is no closing quote, in which case the
      value is the rest of the text and no error is raised. */
  lemma StepString(s: string, i: nat, st: State, j: nat)
    requires FirstNonSpace(s, i, j) && s[j] == '"'
    ensures var (r, k, next) := Step(s, i, st);
      && next == InString
      && j + 2 <= k <= |s| + 1
      && r == Emitted(Token("STRING", s[j + 1..k - 1]))
      && '"' !in s[j + 1..k - 1]
      && (k <= |s| ==> s[k - 1] == '"')
      && (k == |s| + 1 <==> '"' !in s[j + 1..])
  {
    SkipSpacesStopsAt(s, i, j);
    var e := QuoteEnd(s, j + 1);
    assert Step(s, i, st) == (Emitted(Token("STRING", s[j + 1..e])), e + 1, InString);
    if e < |s| {
      assert s[j + 1..][e - j - 1] == '"';
    } else {
      assert s[j + 1..] == s[j + 1..e];
    }
  }

  /** Numbers: the maximal non-empty run of digits, '.' and '-' that starts
      at the cursor; the character after it, if any, is none of those. */
  lemma StepNumber(s: string, i: nat, st: State, j: nat)
    requires FirstNonSpace(s, i, j) && (IsDigit(s[j]) || s[j] == '-')
    ensures var (r, k, next) := Step(s, i, st);
      && next == InNumber
      && j < k <= |s|
      && r == Emitted(Token("NUMBER", s[j..k]))
      && (forall m :: j <= m < k ==> IsNumberChar(s[m]))
      && (k < |s| ==> !IsNumberChar(s[k]))
  {
    SkipSpacesStopsAt(s, i, j);
  }

  lemma SliceIsWord(s: string, j: nat, w: string)
    requires j < |s|
    ensures Slice(s, j, j + |w|) == w <==> j + |w| <= |s| && s[j..j + |w|] == w
  {
  }

  /** Booleans: at 't' or 'f', the text "true" or "false" gives a BOOLEAN
      token with that text and moves the cursor by 4 or 5; any other text
      is an error at the unchanged cursor, quoting up to five characters. */
  lemma StepBoolean(s: string, i: nat, st: State, j: nat)
    requires FirstNonSpace(s, i, j) && (s[j] == 't' || s[j] == 'f')
    ensures var (r, k, next) := Step(s, i, st);
      && next == (if s[j] == 't' then InTrue else InFalse)
      && (j + 4 <= |s| && s[j..j + 4] == "true" ==>
            r == Emitted(Token("BOOLEAN", "true")) && k == j + 4)
      && (j + 5 <= |s| && s[j..j + 5] == "false" ==>
            r == Emitted(Token("BOOLEAN", "false")) && k == j + 5)
      && (!(j + 4 <= |s| && s[j..j + 4] == "true") && !(j + 5 <= |s| && s[j..j + 5] == "false") ==>
            r == ScanError(j, Slice(s, j, j + 5)) && k == j)
  {
    SkipSpacesStopsAt(s, i, j);
    SliceIsWord(s, j, "true");
    SliceIsWord(s, j, "false");
  }

  /** Null: at 'n', the text "null" gives a NULL token and moves the cursor
      by 4; any other text is an error at the unchanged cursor. */
  lemma StepNull(s: string, i: nat, st: State, j: nat)
    requires FirstNonSpace(s, i, j) && s[j] == 'n'
    ensures var (r, k, next) := Step(s, i, st);
      && next == InNull
      && (j + 4 <= |s| && s[j..j + 4] == "null" ==>
            r == Emitted(Token("NULL", "null")) && k == j + 4)
      && (!(j + 4 <= |s| && s[j..j + 4] == "null") ==>
            r == ScanError(j, Slice(s, j, j + 4)) && k == j)
  {
    SkipSpacesStopsAt(s, i, j);
    SliceIsWord(s, j, "null");
  }

  /** Any other character: an error naming the character at its own
      position; the character is not consumed and the state is unchanged. */
  lemma StepUnexpected(s: string, i: nat, st: State, j: nat)
    requires FirstNonSpace(s, i, j)
    requires !IsDigit(s[j]) && !IsPunctuation(s[j]) && s[j] !in "-\"tfn"
    ensures Step(s, i, st) == (ScanError(j, [s[j]]), j, st)
  {
    SkipSpacesStopsAt(s, i, j);
  }

  /** Every token the scanner emits has one of the ten kinds; its value is
      never a quote-containing STRING. */
  lemma StepKinds(s: string, i: nat, st: State)
    requires Step(s, i, st).0.Emitted?
    ensures IsTokenKind(Step(s, i, st).0.token.kind)
    ensures Step(s, i, st).0.token.kind == "STRING" ==> '"' !in Step(s, i, st).0.token.value
  {
    var j := SkipSpaces(s, i);
    assert FirstNonSpace(s, i, j);
    var c := s[j];
    if IsPunctuation(c) {
      StepPunctuation(s, i, st, j);
    } else if c == '"' {
      StepString(s, i, st, j);
    }
  }
}
