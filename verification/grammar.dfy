/** The recursive-descent parser as functions over an explicit state: the
    token list and the index of the current token. Each function returns
    the value it recognised and the index after it, or the error that
    aborted the parse; the first error met in the left-to-right descent is
    the one returned. A current token of `None` (the index has run off the
    end of the list) is the error `EndOfTokens`.

    The grammar, with the seven numbered semantic checks applied inline:
      object := '{' [ pair (',' pair)* ] '}'
      pair   := STRING ':' value
      value  := STRING | NUMBER | BOOLEAN | NULL | object | array
      array  := '[' [ value (',' value)* ] ']' */
module Grammar {
  import opened Text
  import opened Trees

  /** A token as the parser sees it. The value is absent when the token was
      decoded from a line without ", " (see module TokenLines). */
  datatype Token = Token(kind: string, value: Option<string>)

  const LEFT_BRACE: string := "LEFT_BRACE"
  const RIGHT_BRACE: string := "RIGHT_BRACE"
  const LEFT_BRACKET: string := "LEFT_BRACKET"
  const RIGHT_BRACKET: string := "RIGHT_BRACKET"
  const COLON: string := "COLON"
  const COMMA: string := "COMMA"
  const STRING: string := "STRING"
  const NUMBER: string := "NUMBER"
  const BOOLEAN: string := "BOOLEAN"
  const NULL: string := "NULL"

  datatype SyntaxReason =
    | Expected(expected: string, found: string)  // `match` saw another kind
    | EndOfTokens                               // the current token is None
    | KeyNotString                              // `parse_pair` not at a STRING
    | InvalidValue                              // `parse_value` at no value kind
    | InvalidRoot                               // `parse` not at '{' or '['
    | NoKeyValue                                // the key token has no value
    | NoValue(kind: string)                     // a STRING or NUMBER value token has none

  /** The numbers of the seven semantic checks. */
  type ErrorType = n: nat | 1 <= n <= 7 witness 1

  /** The two exceptions the parser raises; a semantic error carries the
      check's number and the offending text ("" for check 6). */
  datatype ParseError =
    | SyntaxError(reason: SyntaxReason)
    | SemanticError(id: ErrorType, text: string)

  datatype Result<T> = Ok(value: T) | Err(error: ParseError)

  /** The message text the source gives each error. */
  function Message(e: ParseError): (r: string)
    ensures e.SemanticError? ==> |r| > 13 && r[..11] == "Error type " && r[12..14] == ": "
    ensures e.SemanticError? ==> r[11] as int == '0' as int + e.id
    ensures e.SemanticError? && e.id != 2 && e.id != 6 ==>
      14 + |Detail(e.id)| <= |r| && e.text <= r[14 + |Detail(e.id)|..]
  {
    match e
    case SyntaxError(Expected(x, y)) => "Expected " + x + ", but got " + y
    case SyntaxError(EndOfTokens) => "'NoneType' object has no attribute 'token_type'"
    case SyntaxError(KeyNotString) => "key in pair should be type STRING"
    case SyntaxError(InvalidValue) => "Invalid value"
    case SyntaxError(InvalidRoot) => "Input must start with an object or array"
    case SyntaxError(NoKeyValue) => "'NoneType' object is not iterable"
    case SyntaxError(NoValue(k)) =>
      "'NoneType' object has no attribute '" + (if k == NUMBER then "startswith" else "lower") + "'"
    case SemanticError(id, v) =>
      "Error type " + [('0' as int + id) as char] + ": " + Detail(id) + Quoted(id, v)
  }

  /** The words of a semantic error's message after its number. */
  function Detail(id: ErrorType): string {
    if id == 1 then "Invalid decimal number '"
    else if id == 2 then "Empty Key."
    else if id == 3 then "Leading zeros in number '"
    else if id == 4 || id == 7 then "Reserved keyword '"
    else if id == 5 then "Duplicate key '"
    else "List elements must be of the same type."
  }

  /** The offending text, quoted, and the rest of the message; checks 2 and
      6 do not quote the text. */
  function Quoted(id: ErrorType, v: string): string {
    if id == 1 || id == 3 then v + "'."
    else if id == 4 then v + "' cannot be a dictionary key"
    else if id == 5 then v + "' found."
    else if id == 7 then v + "' cannot be used as a string."
    else ""
  }

  /** `str(value)`: a missing value prints as "None". */
  function Display(v: Option<string>): string {
    match v
    case Some(s) => s
    case None => "None"
  }

  /** Check 1: starts or ends with '.', or holds more than one '.'. */
  predicate IsInvalidDecimal(v: string) {
    (|v| > 0 && v[0] == '.') || (|v| > 0 && v[|v| - 1] == '.') || multiset(v)['.'] > 1
  }

  /** Check 3: starts with '0', is longer than one character, and does not
      start with "0.". */
  predicate HasLeadingZero(v: string) {
    |v| > 1 && v[0] == '0' && v[1] != '.'
  }

  /** The text before the first '.', or the whole text when it has none. */
  function IntegerPart(v: string): (a: string)
    ensures a <= v && '.' !in a
    ensures |a| < |v| ==> v[|a|] == '.'
  {
    if v == [] || v[0] == '.' then [] else [v[0]] + IntegerPart(v[1..])
  }

  /** Check 1 passes exactly the texts without a '.' and the texts made of
      two non-empty '.'-free parts around a single '.'. */
  lemma ValidDecimalShape(v: string)
    ensures !IsInvalidDecimal(v) <==>
      || '.' !in v
      || exists k :: 0 < k < |v| - 1 && v[k] == '.' && '.' !in v[..k] && '.' !in v[k + 1..]
  {
    if '.' in v {
      var k := |IntegerPart(v)|;
      assert v == v[..k] + [v[k]] + v[k + 1..];
      assert multiset(v)['.'] == multiset(v[..k])['.'] + 1 + multiset(v[k + 1..])['.'];
      assert v[..k] == IntegerPart(v);
      if !IsInvalidDecimal(v) {
        assert 0 < k < |v| - 1 && '.' !in v[k + 1..];
      }
    }
  }

  /** Check 3 fires exactly when the integer part has more than one
      character and starts with '0'; so "0.5" and "-01" pass it. */
  lemma LeadingZeroInIntegerPart(v: string)
    ensures HasLeadingZero(v) <==> |IntegerPart(v)| > 1 && IntegerPart(v)[0] == '0'
  {
    if |v| > 1 && v[0] != '.' {
      assert IntegerPart(v) == [v[0]] + IntegerPart(v[1..]);
    }
  }

  /** `match(expected)` at index `i`: the current token's value and the
      next index when its kind is the expected one. */
  function Match(ts: seq<Token>, i: nat, expected: string): (r: Result<(Option<string>, nat)>)
    ensures r.Ok? <==> i < |ts| && ts[i].kind == expected
    ensures r.Ok? ==> r.value == (ts[i].value, i + 1)
    ensures i >= |ts| ==> r == Err(SyntaxError(EndOfTokens))
    ensures i < |ts| && ts[i].kind != expected ==> r == Err(SyntaxError(Expected(expected, ts[i].kind)))
  {
    if i >= |ts| then Err(SyntaxError(EndOfTokens))
    else if ts[i].kind == expected then Ok((ts[i].value, i + 1))
    else Err(SyntaxError(Expected(expected, ts[i].kind)))
  }

  /** `parse_value` at index `i`. */
  function ParseValue(ts: seq<Token>, i: nat): (r: Result<(Json, nat)>)
    requires i <= |ts|
    ensures r.Ok? ==> i < r.value.1 <= |ts|
    decreases |ts| - i, 2
  {
    if i >= |ts| then Err(SyntaxError(EndOfTokens))
    else
      var t := ts[i];
      if t.kind == STRING then
        match t.value
        case None => Err(SyntaxError(NoValue(STRING)))
        case Some(v) =>
          if IsReserved(v) then Err(SemanticError(7, v)) else Ok((Str(v), i + 1))
      else if t.kind == NUMBER then
        match t.value
        case None => Err(SyntaxError(NoValue(NUMBER)))
        case Some(v) =>
          if IsInvalidDecimal(v) then Err(SemanticError(1, v))
          else if HasLeadingZero(v) then Err(SemanticError(3, v))
          else Ok((Num(v), i + 1))
      else if t.kind == BOOLEAN || t.kind == NULL then
        // the tag is read after `match` has moved past the literal
        if i + 1 >= |ts| then Err(SyntaxError(EndOfTokens))
        else Ok((Literal(t.kind, Display(t.value), ts[i + 1].kind), i + 1))
      else if t.kind == LEFT_BRACE then ParseObject(ts, i)
      else if t.kind == LEFT_BRACKET then ParseArray(ts, i)
      else Err(SyntaxError(InvalidValue))
  }

  /** `parse_object` at index `i`. */
  function ParseObject(ts: seq<Token>, i: nat): (r: Result<(Json, nat)>)
    requires i <= |ts|
    ensures r.Ok? ==> i < r.value.1 <= |ts| && r.value.0.Object?
    decreases |ts| - i, 1
  {
    match Match(ts, i, LEFT_BRACE)
    case Err(e) => Err(e)
    case Ok((_, j)) =>
      if j >= |ts| then Err(SyntaxError(EndOfTokens))
      else if ts[j].kind != RIGHT_BRACE then
        match ParsePair(ts, j)
        case Err(e) => Err(e)
        case Ok((m, k)) => MembersRest(ts, k, {m.key}, [m])
      else
        match Match(ts, j, RIGHT_BRACE)
        case Err(e) => Err(e)
        case Ok((_, k)) => Ok((Object([]), k))
  }

  /** The comma loop of `parse_object`, at index `k`, with the keys seen and
      the members recognised so far. */
  function MembersRest(ts: seq<Token>, k: nat, keys: set<string>, ms: seq<Member>): (r: Result<(Json, nat)>)
    requires k <= |ts|
    ensures r.Ok? ==> k < r.value.1 <= |ts| && r.value.0.Object?
    decreases |ts| - k, 0
  {
    if k >= |ts| then Err(SyntaxError(EndOfTokens))
    else if ts[k].kind == COMMA then
      match ParsePair(ts, k + 1)
      case Err(e) => Err(e)
      case Ok((m, p)) =>
        if m.key in keys then Err(SemanticError(5, m.key))
        else MembersRest(ts, p, keys + {m.key}, ms + [m])
    else
      match Match(ts, k, RIGHT_BRACE)
      case Err(e) => Err(e)
      case Ok((_, e)) => Ok((Object(ms), e))
  }

  /** `parse_pair` at index `i`. */
  function ParsePair(ts: seq<Token>, i: nat): (r: Result<(Member, nat)>)
    requires i <= |ts|
    ensures r.Ok? ==> i < r.value.1 <= |ts|
    decreases |ts| - i, 0
  {
    if i >= |ts| then Err(SyntaxError(EndOfTokens))
    else if ts[i].kind == STRING then
      match ts[i].value
      case None => Err(SyntaxError(NoKeyValue))
      case Some(key) =>
        if IsBlank(key) then Err(SemanticError(2, key))
        else if IsReserved(key) then Err(SemanticError(4, key))
        else
          match Match(ts, i + 1, COLON)
          case Err(e) => Err(e)
          case Ok((_, j)) =>
            match ParseValue(ts, j)
            case Err(e) => Err(e)
            case Ok((v, k)) => Ok((Member(key, v), k))
    else Err(SyntaxError(KeyNotString))
  }

  /** `parse_array` at index `i`. */
  function ParseArray(ts: seq<Token>, i: nat): (r: Result<(Json, nat)>)
    requires i <= |ts|
    ensures r.Ok? ==> i < r.value.1 <= |ts| && r.value.0.Array?
    decreases |ts| - i, 1
  {
    match Match(ts, i, LEFT_BRACKET)
    case Err(e) => Err(e)
    case Ok((_, j)) =>
      if j >= |ts| then Err(SyntaxError(EndOfTokens))
      else if ts[j].kind != RIGHT_BRACKET then
        match ParseValue(ts, j)
        case Err(e) => Err(e)
        case Ok((v, k)) => ElementsRest(ts, k, Tag(v), [v])
      else
        match Match(ts, j, RIGHT_BRACKET)
        case Err(e) => Err(e)
        case Ok((_, k)) => Ok((Array([]), k))
  }

  /** The comma loop of `parse_array`, at index `k`, with the first
      element's tag and the elements recognised so far. */
  function ElementsRest(ts: seq<Token>, k: nat, tag: string, es: seq<Json>): (r: Result<(Json, nat)>)
    requires k <= |ts|
    ensures r.Ok? ==> k < r.value.1 <= |ts| && r.value.0.Array?
    decreases |ts| - k, 0
  {
    if k >= |ts| then Err(SyntaxError(EndOfTokens))
    else if ts[k].kind == COMMA then
      match ParseValue(ts, k + 1)
      case Err(e) => Err(e)
      case Ok((v, p)) =>
        if Tag(v) != tag then Err(SemanticError(6, ""))
        else ElementsRest(ts, p, tag, es + [v])
    else
      match Match(ts, k, RIGHT_BRACKET)
      case Err(e) => Err(e)
      case Ok((_, e)) => Ok((Array(es), e))
  }

  /** `parse`: the root must be an object or an array; whatever follows its
      closing token is not looked at. */
  function Parse(ts: seq<Token>): (r: Result<Json>)
    ensures |ts| == 0 ==> r == Err(SyntaxError(EndOfTokens))
    ensures |ts| > 0 && ts[0].kind != LEFT_BRACE && ts[0].kind != LEFT_BRACKET ==>
      r == Err(SyntaxError(InvalidRoot))
    ensures r.Ok? ==>
      && |ts| > 0
      && (r.value.Object? <==> ts[0].kind == LEFT_BRACE)
      && (r.value.Array? <==> ts[0].kind == LEFT_BRACKET)
  {
    if |ts| == 0 then Err(SyntaxError(EndOfTokens))
    else if ts[0].kind == LEFT_BRACE then
      match ParseObject(ts, 0)
      case Err(e) => Err(e)
      case Ok((v, _)) => Ok(v)
    else if ts[0].kind == LEFT_BRACKET then
      match ParseArray(ts, 0)
      case Err(e) => Err(e)
      case Ok((v, _)) => Ok(v)
    else Err(SyntaxError(InvalidRoot))
  }

  /** What `parse` returns: the `ParseTreeNode` of the recognised root. */
  function ParseTree(ts: seq<Token>): Result<Node> {
    match Parse(ts)
    case Err(e) => Err(e)
    case Ok(v) => Ok(ToNode(v))
  }
}
