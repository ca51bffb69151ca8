/** The converse of what module GrammarFacts proves: a token list that
    spells out a tree with the semantic invariants and the positional
    literal tags is accepted, and `parse` returns exactly that tree. With
    `GrammarFacts.ParseRecognised` this makes the invariants an exact
    description of the trees `parse` returns. */
module GrammarComplete {
  import opened Text
  import opened Trees
  import opened Grammar
  import opened GrammarFacts

  /** The tokens that spell out a value, as the scanner writes them: the
      punctuation with its own character as value, a STRING key, a COLON,
      a COMMA between entries, and each scalar with its text. */
  function Tokens(v: Json): (r: seq<Token>)
    ensures |r| >= 1
    decreases v, 0
  {
    match v
    case Object(ms) => [Token(LEFT_BRACE, Some("{"))] + MembersTokens(ms) + [Token(RIGHT_BRACE, Some("}"))]
    case Array(es) => [Token(LEFT_BRACKET, Some("["))] + ElementsTokens(es) + [Token(RIGHT_BRACKET, Some("]"))]
    case Str(t) => [Token(STRING, Some(t))]
    case Num(t) => [Token(NUMBER, Some(t))]
    case Literal(k, t, _) => [Token(k, Some(t))]
  }

  /** `key : value`. */
  function PairTokens(m: Member): seq<Token>
    decreases m, 1
  {
    [Token(STRING, Some(m.key)), Token(COLON, Some(":"))] + Tokens(m.value)
  }

  /** The members of an object: the first pair, then `, pair` for each
      further one. */
  function MembersTokens(ms: seq<Member>): seq<Token>
    decreases ms, 1
  {
    if ms == [] then [] else PairTokens(ms[0]) + MoreMembers(ms[1..])
  }

  function MoreMembers(ms: seq<Member>): seq<Token>
    decreases ms, 0
  {
    if ms == [] then [] else [Token(COMMA, Some(","))] + PairTokens(ms[0]) + MoreMembers(ms[1..])
  }

  /** The elements of an array: the first value, then `, value` for each
      further one. */
  function ElementsTokens(es: seq<Json>): seq<Token>
    decreases es, 1
  {
    if es == [] then [] else Tokens(es[0]) + MoreElements(es[1..])
  }

  function MoreElements(es: seq<Json>): seq<Token>
    decreases es, 0
  {
    if es == [] then [] else [Token(COMMA, Some(","))] + Tokens(es[0]) + MoreElements(es[1..])
  }

  /** The keys of a member list. */
  function KeysOf(ms: seq<Member>): set<string> {
    set j | 0 <= j < |ms| :: ms[j].key
  }

  /** `xs` occurs in `ts` starting at `i`. */
  predicate At(ts: seq<Token>, i: nat, xs: seq<Token>) {
    i + |xs| <= |ts| && forall j :: 0 <= j < |xs| ==> ts[i + j] == xs[j]
  }

  lemma AtSplit(ts: seq<Token>, i: nat, a: seq<Token>, b: seq<Token>)
    requires At(ts, i, a + b)
    ensures At(ts, i, a) && At(ts, i + |a|, b)
  {
    forall j | 0 <= j < |a|
      ensures ts[i + j] == a[j]
    {
      assert (a + b)[j] == a[j];
    }
    forall j | 0 <= j < |b|
      ensures ts[i + |a| + j] == b[j]
    {
      assert (a + b)[|a| + j] == b[j];
    }
  }

  lemma AtCons(ts: seq<Token>, i: nat, x: Token, b: seq<Token>)
    requires At(ts, i, [x] + b)
    ensures i < |ts| && ts[i] == x && At(ts, i + 1, b)
  {
    AtSplit(ts, i, [x], b);
    assert ts[i + 0] == [x][0];
  }

  /** An object's tokens: its opening brace, then its members and the
      closing brace. */
  lemma ObjectAt(ts: seq<Token>, i: nat, v: Json)
    requires v.Object? && At(ts, i, Tokens(v))
    ensures i < |ts| && ts[i] == Token(LEFT_BRACE, Some("{"))
    ensures At(ts, i + 1, MembersTokens(v.members) + [Token(RIGHT_BRACE, Some("}"))])
    ensures |Tokens(v)| == |MembersTokens(v.members)| + 2
  {
    var close := Token(RIGHT_BRACE, Some("}"));
    assert Tokens(v) == [Token(LEFT_BRACE, Some("{"))] + (MembersTokens(v.members) + [close]);
    AtCons(ts, i, Token(LEFT_BRACE, Some("{")), MembersTokens(v.members) + [close]);
  }

  lemma ArrayAt(ts: seq<Token>, i: nat, v: Json)
    requires v.Array? && At(ts, i, Tokens(v))
    ensures i < |ts| && ts[i] == Token(LEFT_BRACKET, Some("["))
    ensures At(ts, i + 1, ElementsTokens(v.elements) + [Token(RIGHT_BRACKET, Some("]"))])
    ensures |Tokens(v)| == |ElementsTokens(v.elements)| + 2
  {
    var close := Token(RIGHT_BRACKET, Some("]"));
    assert Tokens(v) == [Token(LEFT_BRACKET, Some("["))] + (ElementsTokens(v.elements) + [close]);
    AtCons(ts, i, Token(LEFT_BRACKET, Some("[")), ElementsTokens(v.elements) + [close]);
  }

  /** The members of a non-empty object: the first pair, then the rest. */
  lemma MembersAt(ts: seq<Token>, j: nat, ms: seq<Member>)
    requires ms != [] && At(ts, j, MembersTokens(ms) + [Token(RIGHT_BRACE, Some("}"))])
    ensures At(ts, j, PairTokens(ms[0]))
    ensures At(ts, j + |PairTokens(ms[0])|, MoreMembers(ms[1..]) + [Token(RIGHT_BRACE, Some("}"))])
    ensures |MembersTokens(ms)| == |PairTokens(ms[0])| + |MoreMembers(ms[1..])|
  {
    var rest := MoreMembers(ms[1..]) + [Token(RIGHT_BRACE, Some("}"))];
    assert MembersTokens(ms) == PairTokens(ms[0]) + MoreMembers(ms[1..]);
    assert MembersTokens(ms) + [Token(RIGHT_BRACE, Some("}"))] == PairTokens(ms[0]) + rest;
    AtSplit(ts, j, PairTokens(ms[0]), rest);
  }

  lemma ElementsAt(ts: seq<Token>, j: nat, es: seq<Json>)
    requires es != [] && At(ts, j, ElementsTokens(es) + [Token(RIGHT_BRACKET, Some("]"))])
    ensures At(ts, j, Tokens(es[0]))
    ensures At(ts, j + |Tokens(es[0])|, MoreElements(es[1..]) + [Token(RIGHT_BRACKET, Some("]"))])
    ensures |ElementsTokens(es)| == |Tokens(es[0])| + |MoreElements(es[1..])|
  {
    var rest := MoreElements(es[1..]) + [Token(RIGHT_BRACKET, Some("]"))];
    assert ElementsTokens(es) == Tokens(es[0]) + MoreElements(es[1..]);
    assert ElementsTokens(es) + [Token(RIGHT_BRACKET, Some("]"))] == Tokens(es[0]) + rest;
    AtSplit(ts, j, Tokens(es[0]), rest);
  }

  /** The `n`-th further member: a COMMA, its pair, then the rest. */
  lemma MoreMembersAt(ts: seq<Token>, k: nat, ms: seq<Member>, n: nat)
    requires n < |ms| && At(ts, k, MoreMembers(ms[n..]) + [Token(RIGHT_BRACE, Some("}"))])
    ensures k < |ts| && ts[k] == Token(COMMA, Some(","))
    ensures At(ts, k + 1, PairTokens(ms[n]))
    ensures At(ts, k + 1 + |PairTokens(ms[n])|, MoreMembers(ms[n + 1..]) + [Token(RIGHT_BRACE, Some("}"))])
    ensures |MoreMembers(ms[n..])| == 1 + |PairTokens(ms[n])| + |MoreMembers(ms[n + 1..])|
  {
    var rest := MoreMembers(ms[n + 1..]) + [Token(RIGHT_BRACE, Some("}"))];
    assert ms[n..][0] == ms[n] && ms[n..][1..] == ms[n + 1..];
    assert MoreMembers(ms[n..]) + [Token(RIGHT_BRACE, Some("}"))] == [Token(COMMA, Some(","))] + (PairTokens(ms[n]) + rest);
    AtCons(ts, k, Token(COMMA, Some(",")), PairTokens(ms[n]) + rest);
    AtSplit(ts, k + 1, PairTokens(ms[n]), rest);
  }

  lemma MoreElementsAt(ts: seq<Token>, k: nat, es: seq<Json>, n: nat)
    requires n < |es| && At(ts, k, MoreElements(es[n..]) + [Token(RIGHT_BRACKET, Some("]"))])
    ensures k < |ts| && ts[k] == Token(COMMA, Some(","))
    ensures At(ts, k + 1, Tokens(es[n]))
    ensures At(ts, k + 1 + |Tokens(es[n])|, MoreElements(es[n + 1..]) + [Token(RIGHT_BRACKET, Some("]"))])
    ensures |MoreElements(es[n..])| == 1 + |Tokens(es[n])| + |MoreElements(es[n + 1..])|
  {
    var rest := MoreElements(es[n + 1..]) + [Token(RIGHT_BRACKET, Some("]"))];
    assert es[n..][0] == es[n] && es[n..][1..] == es[n + 1..];
    assert MoreElements(es[n..]) + [Token(RIGHT_BRACKET, Some("]"))] == [Token(COMMA, Some(","))] + (Tokens(es[n]) + rest);
    AtCons(ts, k, Token(COMMA, Some(",")), Tokens(es[n]) + rest);
    AtSplit(ts, k + 1, Tokens(es[n]), rest);
  }

  /** After the members of an object comes a COMMA when more follow, its
      closing brace otherwise. */
  lemma MoreMembersFirst(ts: seq<Token>, p: nat, ms: seq<Member>)
    requires At(ts, p, MoreMembers(ms) + [Token(RIGHT_BRACE, Some("}"))])
    ensures p < |ts| && ts[p].kind == (if ms == [] then RIGHT_BRACE else COMMA)
  {
    assert ts[p + 0] == (MoreMembers(ms) + [Token(RIGHT_BRACE, Some("}"))])[0];
  }

  lemma MoreElementsFirst(ts: seq<Token>, p: nat, es: seq<Json>)
    requires At(ts, p, MoreElements(es) + [Token(RIGHT_BRACKET, Some("]"))])
    ensures p < |ts| && ts[p].kind == (if es == [] then RIGHT_BRACKET else COMMA)
  {
    assert ts[p + 0] == (MoreElements(es) + [Token(RIGHT_BRACKET, Some("]"))])[0];
  }

  /** What the invariants of an object say about its `n`-th member. */
  lemma MemberFacts(v: Json, n: nat)
    requires v.Object? && Recognised(v) && n < |v.members|
    ensures var m := v.members[n];
      && !IsBlank(m.key) && !IsReserved(m.key) && Recognised(m.value)
      && (m.value.Literal? ==> m.value.tag == (if n + 1 == |v.members| then RIGHT_BRACE else COMMA))
      && forall j :: 0 <= j < n ==> v.members[j].key != m.key
  {
  }

  /** What the invariants of an array say about its `n`-th element. */
  lemma ElementFacts(v: Json, n: nat)
    requires v.Array? && Recognised(v) && n < |v.elements|
    ensures var e := v.elements[n];
      && Recognised(e) && Tag(e) == Tag(v.elements[0])
      && (e.Literal? ==> e.tag == (if n + 1 == |v.elements| then RIGHT_BRACKET else COMMA))
  {
  }

  /** A recognised value's first token is not a closing bracket. */
  lemma FirstNotCloser(v: Json)
    requires WellFormed(v)
    ensures Tokens(v)[0].kind != RIGHT_BRACKET
  {
  }

  lemma KeysOfSnoc(ms: seq<Member>, n: nat)
    requires n < |ms|
    ensures KeysOf(ms[..n]) + {ms[n].key} == KeysOf(ms[..n + 1])
  {
    var a, b := ms[..n], ms[..n + 1];
    forall x | x in KeysOf(b)
      ensures x in KeysOf(a) + {ms[n].key}
    {
      var j :| 0 <= j < |b| && b[j].key == x;
      if j < n {
        assert a[j].key == x;
      }
    }
    forall x | x in KeysOf(a)
      ensures x in KeysOf(b)
    {
      var j :| 0 <= j < |a| && a[j].key == x;
      assert b[j].key == x;
    }
    assert b[n].key == ms[n].key;
  }

  /** One round of the comma loop of an object: a COMMA, a pair with a
      fresh key, then the loop goes on after the pair. */
  lemma MembersRestStep(ts: seq<Token>, k: nat, v: Json, n: nat, p: nat)
    requires v.Object? && n < |v.members|
    requires k < |ts| && ts[k].kind == COMMA
    requires ParsePair(ts, k + 1) == Ok((v.members[n], p))
    requires v.members[n].key !in KeysOf(v.members[..n])
    ensures MembersRest(ts, k, KeysOf(v.members[..n]), v.members[..n])
      == MembersRest(ts, p, KeysOf(v.members[..n + 1]), v.members[..n + 1])
  {
    var ms := v.members;
    KeysOfSnoc(ms, n);
    assert ms[..n] + [ms[n]] == ms[..n + 1];
  }

  /** The comma loop of an object ends at its closing brace. */
  lemma MembersRestStop(ts: seq<Token>, k: nat, keys: set<string>, ms: seq<Member>)
    requires k < |ts| && ts[k].kind == RIGHT_BRACE
    ensures MembersRest(ts, k, keys, ms) == Ok((Object(ms), k + 1))
  {
  }

  /** One round of the comma loop of an array: a COMMA, a value with the
      loop's tag, then the loop goes on after the value. */
  lemma ElementsRestStep(ts: seq<Token>, k: nat, tag: string, es: seq<Json>, e: Json, p: nat, es': seq<Json>)
    requires k < |ts| && ts[k].kind == COMMA
    requires ParseValue(ts, k + 1) == Ok((e, p)) && Tag(e) == tag
    requires es' == es + [e]
    ensures ElementsRest(ts, k, tag, es) == ElementsRest(ts, p, tag, es')
  {
  }

  /** Extending a prefix by the next entry. */
  lemma Snoc<T>(s: seq<T>, n: nat)
    requires n < |s|
    ensures s[..n + 1] == s[..n] + [s[n]]
  {
  }

  lemma ElementsRestStop(ts: seq<Token>, k: nat, tag: string, es: seq<Json>)
    requires k < |ts| && ts[k].kind == RIGHT_BRACKET
    ensures ElementsRest(ts, k, tag, es) == Ok((Array(es), k + 1))
  {
  }

  /** The start of a non-empty object: the opening brace, the first pair,
      then the comma loop with that pair's key. */
  lemma ObjectStart(ts: seq<Token>, i: nat, m: Member, k: nat, keys: set<string>, ms: seq<Member>)
    requires i + 1 < |ts| && ts[i].kind == LEFT_BRACE && ts[i + 1].kind != RIGHT_BRACE
    requires ParsePair(ts, i + 1) == Ok((m, k)) && keys == {m.key} && ms == [m]
    ensures ParseObject(ts, i) == MembersRest(ts, k, keys, ms)
  {
  }

  lemma ArrayStart(ts: seq<Token>, i: nat, e: Json, k: nat, es: seq<Json>)
    requires i + 1 < |ts| && ts[i].kind == LEFT_BRACKET && ts[i + 1].kind != RIGHT_BRACKET
    requires ParseValue(ts, i + 1) == Ok((e, k)) && es == [e]
    ensures ParseArray(ts, i) == ElementsRest(ts, k, Tag(e), es)
  {
  }

  /** The last round of the comma loops: the closing token ends the
      container with every entry collected. */
  lemma MembersRestEnd(ts: seq<Token>, k: nat, v: Json)
    requires v.Object? && At(ts, k, MoreMembers([]) + [Token(RIGHT_BRACE, Some("}"))])
    ensures MembersRest(ts, k, KeysOf(v.members), v.members) == Ok((v, k + |MoreMembers([])| + 1))
  {
    MoreMembersFirst(ts, k, []);
    MembersRestStop(ts, k, KeysOf(v.members), v.members);
  }

  lemma ElementsRestEnd(ts: seq<Token>, k: nat, v: Json)
    requires v.Array? && v.elements != [] && At(ts, k, MoreElements([]) + [Token(RIGHT_BRACKET, Some("]"))])
    ensures ElementsRest(ts, k, Tag(v.elements[0]), v.elements) == Ok((v, k + |MoreElements([])| + 1))
  {
    MoreElementsFirst(ts, k, []);
    ElementsRestStop(ts, k, Tag(v.elements[0]), v.elements);
  }

  /** The key of the `n`-th member is not among those before it. */
  lemma FreshKey(v: Json, n: nat)
    requires v.Object? && Recognised(v) && n < |v.members|
    ensures v.members[n].key !in KeysOf(v.members[..n])
  {
    var ms := v.members;
    MemberFacts(v, n);
    forall j | 0 <= j < n
      ensures ms[..n][j].key != ms[n].key
    {
    }
  }

  /** What the comma loop of an object needs of its `n`-th member: a
      valid pair whose key is new and whose literal is tagged by position. */
  predicate MemberReady(v: Json, n: nat)
    requires v.Object? && n < |v.members|
  {
    var m := v.members[n];
    && !IsBlank(m.key) && !IsReserved(m.key) && Recognised(m.value)
    && (m.value.Literal? ==> m.value.tag == (if n + 1 == |v.members| then RIGHT_BRACE else COMMA))
    && m.key !in KeysOf(v.members[..n])
  }

  /** What the comma loop of an array needs of its `n`-th element. */
  predicate ElementReady(v: Json, n: nat)
    requires v.Array? && n < |v.elements|
  {
    var e := v.elements[n];
    && Recognised(e) && Tag(e) == Tag(v.elements[0])
    && (e.Literal? ==> e.tag == (if n + 1 == |v.elements| then RIGHT_BRACKET else COMMA))
  }

  lemma MembersReady(v: Json)
    requires v.Object? && Recognised(v)
    ensures forall j | 0 <= j < |v.members| :: MemberReady(v, j)
  {
    forall j | 0 <= j < |v.members|
      ensures MemberReady(v, j)
    {
      MemberFacts(v, j);
      FreshKey(v, j);
    }
  }

  lemma ElementsReady(v: Json)
    requires v.Array? && Recognised(v)
    ensures forall j | 0 <= j < |v.elements| :: ElementReady(v, j)
  {
    forall j | 0 <= j < |v.elements|
      ensures ElementReady(v, j)
    {
      ElementFacts(v, j);
    }
  }

  lemma {:induction false} ValueComplete(ts: seq<Token>, i: nat, v: Json)
    requires Recognised(v) && At(ts, i, Tokens(v))
    requires v.Literal? ==> i + 1 < |ts| && ts[i + 1].kind == v.tag
    ensures ParseValue(ts, i) == Ok((v, i + |Tokens(v)|))
    decreases v, 2
  {
    assert ts[i + 0] == Tokens(v)[0];
    match v
    case Object(_) => ObjectComplete(ts, i, v);
    case Array(_) => ArrayComplete(ts, i, v);
    case _ =>
  }

  lemma {:induction false} PairComplete(ts: seq<Token>, i: nat, m: Member)
    requires !IsBlank(m.key) && !IsReserved(m.key) && Recognised(m.value)
    requires At(ts, i, PairTokens(m))
    requires m.value.Literal? ==> i + |PairTokens(m)| < |ts| && ts[i + |PairTokens(m)|].kind == m.value.tag
    ensures ParsePair(ts, i) == Ok((m, i + |PairTokens(m)|))
    decreases m, 1
  {
    var head := [Token(STRING, Some(m.key)), Token(COLON, Some(":"))];
    AtSplit(ts, i, head, Tokens(m.value));
    assert ts[i + 0] == head[0] && ts[i + 1] == head[1];
    ValueComplete(ts, i + 2, m.value);
  }

  lemma {:induction false} ObjectComplete(ts: seq<Token>, i: nat, v: Json)
    requires v.Object? && Recognised(v) && At(ts, i, Tokens(v))
    ensures ParseObject(ts, i) == Ok((v, i + |Tokens(v)|))
    decreases v, 1
  {
    ObjectAt(ts, i, v);
    if v.members == [] {
      MoreMembersFirst(ts, i + 1, []);
    } else {
      var k := FirstMember(ts, i, v);
      MembersReady(v);
      MembersRestComplete(ts, k, v, 1);
    }
  }

  /** The opening brace and the first pair of a non-empty object; the
      comma loop then starts with that pair's key. */
  lemma {:induction false} FirstMember(ts: seq<Token>, i: nat, v: Json) returns (k: nat)
    requires v.Object? && Recognised(v) && v.members != []
    requires At(ts, i, Tokens(v))
    ensures At(ts, k, MoreMembers(v.members[1..]) + [Token(RIGHT_BRACE, Some("}"))])
    ensures k + |MoreMembers(v.members[1..])| + 1 == i + |Tokens(v)|
    ensures ParseObject(ts, i) == MembersRest(ts, k, KeysOf(v.members[..1]), v.members[..1])
    decreases v, 0, 0
  {
    var ms := v.members;
    var m := ms[0];
    ObjectAt(ts, i, v);
    MembersAt(ts, i + 1, ms);
    assert ts[i + 1 + 0] == PairTokens(m)[0];
    k := i + 1 + |PairTokens(m)|;
    MemberFacts(v, 0);
    MoreMembersFirst(ts, k, ms[1..]);
    assert m in ms;
    PairComplete(ts, i + 1, m);
    assert ms[..1] == [m];
    assert KeysOf([m]) == {m.key} by {
      assert [m][0].key == m.key;
    }
    ObjectStart(ts, i, m, k, KeysOf(ms[..1]), ms[..1]);
  }

  /** One round of the comma loop of an object, on the tokens of its
      `n`-th member: the loop moves past the member and collects it. */
  lemma {:induction false} MemberRound(ts: seq<Token>, k: nat, v: Json, n: nat) returns (p: nat)
    requires v.Object? && 1 <= n < |v.members| && MemberReady(v, n)
    requires At(ts, k, MoreMembers(v.members[n..]) + [Token(RIGHT_BRACE, Some("}"))])
    ensures At(ts, p, MoreMembers(v.members[n + 1..]) + [Token(RIGHT_BRACE, Some("}"))])
    ensures p + |MoreMembers(v.members[n + 1..])| == k + |MoreMembers(v.members[n..])|
    ensures MembersRest(ts, k, KeysOf(v.members[..n]), v.members[..n])
      == MembersRest(ts, p, KeysOf(v.members[..n + 1]), v.members[..n + 1])
    decreases v, 0, |v.members| - n, 0
  {
    var ms := v.members;
    var m := ms[n];
    MoreMembersAt(ts, k, ms, n);
    p := k + 1 + |PairTokens(m)|;
    MoreMembersFirst(ts, p, ms[n + 1..]);
    assert m in ms;
    PairComplete(ts, k + 1, m);
    MembersRestStep(ts, k, v, n, p);
  }

  lemma {:induction false} MembersRestComplete(ts: seq<Token>, k: nat, v: Json, n: nat)
    requires v.Object? && 1 <= n <= |v.members|
    requires forall j | n <= j < |v.members| :: MemberReady(v, j)
    requires At(ts, k, MoreMembers(v.members[n..]) + [Token(RIGHT_BRACE, Some("}"))])
    ensures MembersRest(ts, k, KeysOf(v.members[..n]), v.members[..n])
      == Ok((v, k + |MoreMembers(v.members[n..])| + 1))
    decreases v, 0, |v.members| - n, 1
  {
    var ms := v.members;
    if n == |ms| {
      assert ms[n..] == [] && ms[..n] == ms;
      MembersRestEnd(ts, k, v);
    } else {
      assert MemberReady(v, n);
      var p := MemberRound(ts, k, v, n);
      MembersRestComplete(ts, p, v, n + 1);
    }
  }

  lemma {:induction false} ArrayComplete(ts: seq<Token>, i: nat, v: Json)
    requires v.Array? && Recognised(v) && At(ts, i, Tokens(v))
    ensures ParseArray(ts, i) == Ok((v, i + |Tokens(v)|))
    decreases v, 1
  {
    ArrayAt(ts, i, v);
    if v.elements == [] {
      MoreElementsFirst(ts, i + 1, []);
    } else {
      var k := FirstElement(ts, i, v);
      ElementsReady(v);
      ElementsRestComplete(ts, k, v, 1);
    }
  }

  /** The opening bracket and the first value of a non-empty array; the
      comma loop then compares every further value's tag with its tag. */
  lemma {:induction false} FirstElement(ts: seq<Token>, i: nat, v: Json) returns (k: nat)
    requires v.Array? && Recognised(v) && v.elements != []
    requires At(ts, i, Tokens(v))
    ensures At(ts, k, MoreElements(v.elements[1..]) + [Token(RIGHT_BRACKET, Some("]"))])
    ensures k + |MoreElements(v.elements[1..])| + 1 == i + |Tokens(v)|
    ensures ParseArray(ts, i) == ElementsRest(ts, k, Tag(v.elements[0]), v.elements[..1])
    decreases v, 0, 0
  {
    var es := v.elements;
    var e := es[0];
    ArrayAt(ts, i, v);
    ElementsAt(ts, i + 1, es);
    assert ts[i + 1 + 0] == Tokens(e)[0];
    k := i + 1 + |Tokens(e)|;
    ElementFacts(v, 0);
    MoreElementsFirst(ts, k, es[1..]);
    FirstNotCloser(e);
    assert e in es;
    ValueComplete(ts, i + 1, e);
    assert es[..1] == [e];
    ArrayStart(ts, i, e, k, es[..1]);
  }

  /** One round of the comma loop of an array, on the tokens of its
      `n`-th element. */
  lemma {:induction false} ElementRound(ts: seq<Token>, k: nat, v: Json, n: nat) returns (p: nat)
    requires v.Array? && 1 <= n < |v.elements| && ElementReady(v, n)
    requires At(ts, k, MoreElements(v.elements[n..]) + [Token(RIGHT_BRACKET, Some("]"))])
    ensures At(ts, p, MoreElements(v.elements[n + 1..]) + [Token(RIGHT_BRACKET, Some("]"))])
    ensures p + |MoreElements(v.elements[n + 1..])| == k + |MoreElements(v.elements[n..])|
    ensures ElementsRest(ts, k, Tag(v.elements[0]), v.elements[..n])
      == ElementsRest(ts, p, Tag(v.elements[0]), v.elements[..n + 1])
    decreases v, 0, |v.elements| - n, 0
  {
    var es := v.elements;
    var e := es[n];
    MoreElementsAt(ts, k, es, n);
    p := k + 1 + |Tokens(e)|;
    MoreElementsFirst(ts, p, es[n + 1..]);
    assert e in es;
    ValueComplete(ts, k + 1, e);
    Snoc(es, n);
    ElementsRestStep(ts, k, Tag(es[0]), es[..n], e, p, es[..n + 1]);
  }

  lemma {:induction false} ElementsRestComplete(ts: seq<Token>, k: nat, v: Json, n: nat)
    requires v.Array? && 1 <= n <= |v.elements|
    requires forall j | n <= j < |v.elements| :: ElementReady(v, j)
    requires At(ts, k, MoreElements(v.elements[n..]) + [Token(RIGHT_BRACKET, Some("]"))])
    ensures ElementsRest(ts, k, Tag(v.elements[0]), v.elements[..n])
      == Ok((v, k + |MoreElements(v.elements[n..])| + 1))
    decreases v, 0, |v.elements| - n, 1
  {
    var es := v.elements;
    if n == |es| {
      assert es[n..] == [] && es[..n] == es;
      ElementsRestEnd(ts, k, v);
    } else {
      assert ElementReady(v, n);
      var p := ElementRound(ts, k, v, n);
      ElementsRestComplete(ts, p, v, n + 1);
    }
  }

  /** Completeness: the tokens of an object or array with the invariants
      parse back to that very tree. */
  lemma ParseComplete(v: Json)
    requires v.Object? || v.Array?
    requires WellFormed(v) && LiteralTagsPositional(v)
    ensures Parse(Tokens(v)) == Ok(v)
  {
    var ts := Tokens(v);
    assert At(ts, 0, ts);
    assert ts[0] == Tokens(v)[0];
    if v.Object? {
      ObjectComplete(ts, 0, v);
    } else {
      ArrayComplete(ts, 0, v);
    }
  }

  /** Both directions together: the tokens of an object or array parse
      back to it exactly when it satisfies the invariants. */
  lemma ParseTokensOfTree(v: Json)
    requires v.Object? || v.Array?
    ensures Parse(Tokens(v)) == Ok(v) <==> WellFormed(v) && LiteralTagsPositional(v)
  {
    if WellFormed(v) && LiteralTagsPositional(v) {
      ParseComplete(v);
    }
    if Parse(Tokens(v)) == Ok(v) {
      ParseRecognised(Tokens(v));
    }
  }
}
