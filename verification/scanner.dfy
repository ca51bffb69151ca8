/** The DFA scanner: a cursor over the input text, a state name, and a
    transition table keyed by (state, input class). Each call of
    `GetNextToken` skips whitespace, dispatches on the character under the
    cursor, and returns one token, end of input, or a scanner error.

    `Step` is the pure specification of one call; the class's methods are
    proved to compute it, and the lemmas in module ScannerFacts state what it
    promises. */
module Scanner {
  import opened Text

  /** The states of the DFA, each with the name the source gives it. */
  datatype State =
    | Start | LeftBrace | RightBrace | Colon | Comma | LeftBracket | RightBracket
    | InString | StringEnd | InNumber | InTrue | InFalse | InNull
    | Invalid

  function Name(st: State): string {
    match st
    case Start => "START"
    case LeftBrace => "LEFT_BRACE"
    case RightBrace => "RIGHT_BRACE"
    case Colon => "COLON"
    case Comma => "COMMA"
    case LeftBracket => "LEFT_BRACKET"
    case RightBracket => "RIGHT_BRACKET"
    case InString => "IN_STRING"
    case StringEnd => "STRING_END"
    case InNumber => "IN_NUMBER"
    case InTrue => "IN_TRUE"
    case InFalse => "IN_FALSE"
    case InNull => "IN_NULL"
    case Invalid => "INVALID"
  }

  /** An input class of the transition table: one character, or any digit. */
  datatype Input = Char(c: char) | Digit

  const Transitions: map<(State, Input), State> := map[
    (Start, Char('{')) := LeftBrace,
    (Start, Char('}')) := RightBrace,
    (Start, Char(':')) := Colon,
    (Start, Char(',')) := Comma,
    (Start, Char('[')) := LeftBracket,
    (Start, Char(']')) := RightBracket,
    (Start, Char('"')) := InString,
    (InString, Char('"')) := StringEnd,
    (Start, Char('-')) := InNumber,
    (Start, Digit) := InNumber,
    (Start, Char('t')) := InTrue,
    (Start, Char('f')) := InFalse,
    (Start, Char('n')) := InNull
  ]

  /** `transitions.get((state, input), "INVALID")`. */
  function Lookup(st: State, inp: Input): (next: State)
    ensures next == Invalid <==> (st, inp) !in Transitions
  {
    if (st, inp) in Transitions then Transitions[(st, inp)] else Invalid
  }

  datatype Token = Token(kind: string, value: string)

  /** What one `get_next_token` call yields: a token, `None`, or a raised
      `ScannerError(position, character)`. */
  datatype ScanResult =
    | Emitted(token: Token)
    | EndOfInput
    | ScanError(position: nat, text: string)

  predicate IsPunctuation(c: char) {
    c in "{}:,[]"
  }

  /** The characters `read_number` accepts: digits, '.' and '-'. */
  predicate IsNumberChar(c: char) {
    IsDigit(c) || c == '.' || c == '-'
  }

  /** Python's `s[a:b]` for 0 <= a <= b: both ends clamped to the length. */
  function Slice(s: string, a: nat, b: nat): (r: string)
    requires a <= b
    ensures b <= |s| ==> r == s[a..b]
    ensures a <= |s| < b ==> r == s[a..]
  {
    var lo := if a <= |s| then a else |s|;
    var hi := if b <= |s| then b else |s|;
    s[lo..hi]
  }

  /** Where `skip_whitespace` leaves a cursor that starts at `i`: the first
      position at or after `i` that does not hold whitespace. */
  function SkipSpaces(s: string, i: nat): (j: nat)
    ensures i <= j
    ensures i <= |s| ==> j <= |s|
    ensures i > |s| ==> j == i
    ensures j < |s| ==> !IsSpace(s[j])
    ensures forall k :: i <= k < j ==> k < |s| && IsSpace(s[k])
    decreases |s| - i
  {
    if i < |s| && IsSpace(s[i]) then SkipSpaces(s, i + 1) else i
  }

  /** The first position at or after `i` that holds a double quote, or the
      length of the text when there is none. */
  function QuoteEnd(s: string, i: nat): (e: nat)
    requires i <= |s|
    ensures i <= e <= |s|
    ensures e < |s| ==> s[e] == '"'
    ensures forall k :: i <= k < e ==> s[k] != '"'
    decreases |s| - i
  {
    if i < |s| && s[i] != '"' then QuoteEnd(s, i + 1) else i
  }

  /** The end of the maximal run of number characters that starts at `i`. */
  function NumberEnd(s: string, i: nat): (e: nat)
    requires i <= |s|
    ensures i <= e <= |s|
    ensures e < |s| ==> !IsNumberChar(s[e])
    ensures forall k :: i <= k < e ==> IsNumberChar(s[k])
    decreases |s| - i
  {
    if i < |s| && IsNumberChar(s[i]) then NumberEnd(s, i + 1) else i
  }

  /** `read_boolean` at cursor `j`: the result and the new cursor. */
  function BooleanAt(s: string, j: nat): (r: (ScanResult, nat))
    ensures r.0.Emitted? <==>
      (j + 4 <= |s| && s[j..j + 4] == "true") || (j + 5 <= |s| && s[j..j + 5] == "false")
    ensures r.0.Emitted? ==>
      r.0.token.kind == "BOOLEAN" && r.1 == j + |r.0.token.value| <= |s| && s[j..r.1] == r.0.token.value
    ensures r.0.ScanError? ==> r.1 == j && r.0.position == j && |r.0.text| <= 5
    ensures !r.0.EndOfInput?
  {
    if Slice(s, j, j + 4) == "true" then (Emitted(Token("BOOLEAN", "true")), j + 4)
    else if Slice(s, j, j + 5) == "false" then (Emitted(Token("BOOLEAN", "false")), j + 5)
    else (ScanError(j, Slice(s, j, j + 5)), j)
  }

  /** `read_null` at cursor `j`: the result and the new cursor. */
  function NullAt(s: string, j: nat): (r: (ScanResult, nat))
    ensures r.0.Emitted? <==> j + 4 <= |s| && s[j..j + 4] == "null"
    ensures r.0.Emitted? ==> r.0.token == Token("NULL", "null") && r.1 == j + 4 <= |s|
    ensures r.0.ScanError? ==> r.1 == j && r.0.position == j && |r.0.text| <= 4
    ensures !r.0.EndOfInput?
  {
    if Slice(s, j, j + 4) == "null" then (Emitted(Token("NULL", "null")), j + 4)
    else (ScanError(j, Slice(s, j, j + 4)), j)
  }

  /** The punctuation branch once the cursor has moved past `c`: the token
      named by the table's next state, or an error when the table has no
      entry (which never happens, see ScannerFacts.PunctuationInTable). */
  function PunctuationResult(next: State, c: char, after: nat): ScanResult {
    if next == Invalid then ScanError(after, [c]) else Emitted(Token(Name(next), [c]))
  }

  /** One `get_next_token` call on text `s` with cursor `i` and state `st`:
      the result, the new cursor and the new state. */
  function Step(s: string, i: nat, st: State): (r: (ScanResult, nat, State))
    ensures i <= r.1
    ensures r.0.Emitted? ==> i < r.1 <= |s| + 1
    ensures i <= |s| && !r.0.Emitted? ==> r.1 <= |s|
  {
    var j := SkipSpaces(s, i);
    if j >= |s| then (EndOfInput, j, st)
    else
      var c := s[j];
      if IsDigit(c) then
        (Emitted(Token("NUMBER", s[j..NumberEnd(s, j)])), NumberEnd(s, j), Lookup(Start, Digit))
      else if c == '-' then
        (Emitted(Token("NUMBER", s[j..NumberEnd(s, j)])), NumberEnd(s, j), Lookup(Start, Char('-')))
      else if c == '"' then
        var e := QuoteEnd(s, j + 1);
        (Emitted(Token("STRING", s[j + 1..e])), e + 1, Lookup(Start, Char('"')))
      else if IsPunctuation(c) then
        var next := Lookup(Start, Char(c));
        (PunctuationResult(next, c, j + 1), j + 1, next)
      else if c == 't' || c == 'f' then
        var (res, k) := BooleanAt(s, j);
        (res, k, Lookup(Start, Char(c)))
      else if c == 'n' then
        var (res, k) := NullAt(s, j);
        (res, k, Lookup(Start, Char('n')))
      else
        (ScanError(j, [c]), j, st)
  }

  /** The scanner object: the input, the cursor and the current state. */
  class JsonScannerDfa {
    const input: string
    var currentIndex: nat
    var state: State

    constructor (inputString: string)
      ensures input == inputString && currentIndex == 0 && state == Start
    {
      input := inputString;
      currentIndex := 0;
      state := Start;
    }

    /** `reset`: back to the start state at the beginning of the input. */
    method Reset()
      modifies this
      ensures state == Start && currentIndex == 0
    {
      state := Start;
      currentIndex := 0;
    }

    /** `get_next_token`. */
    method GetNextToken() returns (r: ScanResult)
      modifies this
      ensures (r, currentIndex, state) == Step(input, old(currentIndex), old(state))
    {
      SkipWhitespace();
      if currentIndex >= |input| {
        return EndOfInput;
      }
      var c := input[currentIndex];
      if IsDigit(c) {
        state := Lookup(Start, Digit);
        var t := ReadNumber();
        r := Emitted(t);
      } else if c == '-' {
        state := Lookup(Start, Char('-'));
        var t := ReadNumber();
        r := Emitted(t);
      } else if c == '"' {
        state := Lookup(Start, Char('"'));
        var t := ReadString();
        r := Emitted(t);
      } else if IsPunctuation(c) {
        state := Lookup(Start, Char(c));
        currentIndex := currentIndex + 1;
        if state == Invalid {
          return ScanError(currentIndex, [c]);
        }
        r := Emitted(Token(Name(state), [c]));
      } else if c == 't' || c == 'f' {
        state := Lookup(Start, Char(c));
        r := ReadBoolean();
      } else if c == 'n' {
        state := Lookup(Start, Char('n'));
        r := ReadNull();
      } else {
        r := ScanError(currentIndex, [c]);
      }
    }

    /** `read_string`: the cursor is on the opening quote. */
    method ReadString() returns (t: Token)
      requires currentIndex < |input|
      modifies `currentIndex
      ensures var e := QuoteEnd(input, old(currentIndex) + 1);
        t == Token("STRING", input[old(currentIndex) + 1..e]) && currentIndex == e + 1
    {
      var value := "";
      currentIndex := currentIndex + 1;
      ghost var start := currentIndex;
      while currentIndex < |input| && input[currentIndex] != '"'
        invariant start <= currentIndex <= |input|
        invariant value == input[start..currentIndex]
        invariant QuoteEnd(input, currentIndex) == QuoteEnd(input, start)
        decreases |input| - currentIndex
      {
        value := value + [input[currentIndex]];
        currentIndex := currentIndex + 1;
      }
      currentIndex := currentIndex + 1;
      t := Token("STRING", value);
    }

    /** `read_number`: the cursor is on a digit or '-'. */
    method ReadNumber() returns (t: Token)
      requires currentIndex < |input|
      modifies `currentIndex
      ensures currentIndex == NumberEnd(input, old(currentIndex))
      ensures t == Token("NUMBER", input[old(currentIndex)..currentIndex])
    {
      var value := "";
      ghost var start := currentIndex;
      while currentIndex < |input| && IsNumberChar(input[currentIndex])
        invariant start <= currentIndex <= |input|
        invariant value == input[start..currentIndex]
        invariant NumberEnd(input, currentIndex) == NumberEnd(input, start)
        decreases |input| - currentIndex
      {
        value := value + [input[currentIndex]];
        currentIndex := currentIndex + 1;
      }
      t := Token("NUMBER", value);
    }

    /** `read_boolean`: the cursor is on 't' or 'f'. */
    method ReadBoolean() returns (r: ScanResult)
      requires currentIndex < |input|
      modifies `currentIndex
      ensures (r, currentIndex) == BooleanAt(input, old(currentIndex))
    {
      var start := currentIndex;
      var word := Slice(input, start, start + 4);
      if word == "true" {
        currentIndex := currentIndex + 4;
        return Emitted(Token("BOOLEAN", "true"));
      }
      word := Slice(input, start, start + 5);
      if word == "false" {
        currentIndex := currentIndex + 5;
        return Emitted(Token("BOOLEAN", "false"));
      }
      r := ScanError(currentIndex, word);
    }

    /** `read_null`: the cursor is on 'n'. */
    method ReadNull() returns (r: ScanResult)
      requires currentIndex < |input|
      modifies `currentIndex
      ensures (r, currentIndex) == NullAt(input, old(currentIndex))
    {
      var word := Slice(input, currentIndex, currentIndex + 4);
      if word == "null" {
        currentIndex := currentIndex + 4;
        return Emitted(Token("NULL", "null"));
      }
      r := ScanError(currentIndex, word);
    }

    /** `skip_whitespace`. */
    method SkipWhitespace()
      modifies `currentIndex
      ensures currentIndex == SkipSpaces(input, old(currentIndex))
    {
      while currentIndex < |input| && IsSpace(input[currentIndex])
        invariant old(currentIndex) <= currentIndex
        invariant SkipSpaces(input, currentIndex) == SkipSpaces(input, old(currentIndex))
        decreases |input| - currentIndex
      {
        currentIndex := currentIndex + 1;
      }
    }
  }
}
