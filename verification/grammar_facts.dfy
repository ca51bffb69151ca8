/** What a successful parse guarantees, for every token list: the
    invariants of the tree (distinct keys per object, valid keys, no
    reserved string values, well-shaped numbers, arrays of one kind tag),
    where the kind tag of a BOOLEAN or NULL literal comes from, and that
    nothing after the root's closing token is looked at. */
module GrammarFacts {
  import opened Text
  import opened Trees
  import opened Grammar

  predicate DistinctKeys(ms: seq<Member>) {
    forall a, b :: 0 <= a < b < |ms| ==> ms[a].key != ms[b].key
  }

  /** The invariants the seven semantic checks establish. */
  predicate WellFormed(v: Json)
    decreases v
  {
    match v
    case Object(ms) =>
      && DistinctKeys(ms)
      && forall i :: 0 <= i < |ms| ==>
           !IsBlank(ms[i].key) && !IsReserved(ms[i].key) && WellFormed(ms[i].value)
    case Array(es) =>
      forall i :: 0 <= i < |es| ==> Tag(es[i]) == Tag(es[0]) && WellFormed(es[i])
    case Str(t) => !IsReserved(t)
    case Num(t) => !IsInvalidDecimal(t) && !HasLeadingZero(t)
    case Literal(k, _, _) => k == BOOLEAN || k == NULL
  }

  /** The closing kind that follows the last entry of a container. */
  function Closer(v: Json): string {
    if v.Object? then RIGHT_BRACE else RIGHT_BRACKET
  }

  /** A BOOLEAN or NULL literal is tagged with the token after it: COMMA
      when another entry follows in its container, the container's closing
      kind when it is the last entry. */
  predicate LiteralTagsPositional(v: Json)
    decreases v
  {
    match v
    case Object(ms) =>
      forall i :: 0 <= i < |ms| ==>
        && (ms[i].value.Literal? ==> ms[i].value.tag == (if i + 1 == |ms| then RIGHT_BRACE else COMMA))
        && LiteralTagsPositional(ms[i].value)
    case Array(es) =>
      forall i :: 0 <= i < |es| ==>
        && (es[i].Literal? ==> es[i].tag == (if i + 1 == |es| then RIGHT_BRACKET else COMMA))
        && LiteralTagsPositional(es[i])
    case _ => true
  }

  /** Both invariants of a recognised value. */
  predicate Recognised(v: Json) {
    WellFormed(v) && LiteralTagsPositional(v)
  }

  /** The members collected so far by an object's comma loop: each valid,
      pairwise distinct, recorded in `keys`, and each literal among them
      tagged COMMA except the last, whose tag is the kind at `k`. */
  predicate MembersSoFar(ts: seq<Token>, k: nat, keys: set<string>, ms: seq<Member>) {
    && |ms| > 0
    && DistinctKeys(ms)
    && (forall i :: 0 <= i < |ms| ==> ms[i].key in keys)
    && (forall i :: 0 <= i < |ms| ==>
          !IsBlank(ms[i].key) && !IsReserved(ms[i].key) && Recognised(ms[i].value))
    && (forall i :: 0 <= i < |ms| - 1 ==> ms[i].value.Literal? ==> ms[i].value.tag == COMMA)
    && (ms[|ms| - 1].value.Literal? ==> k < |ts| && ms[|ms| - 1].value.tag == ts[k].kind)
  }

  /** The elements collected so far by an array's comma loop: each of kind
      tag `tag`, and each literal among them tagged COMMA except the last,
      whose tag is the kind at `k`. */
  predicate ElementsSoFar(ts: seq<Token>, k: nat, tag: string, es: seq<Json>) {
    && |es| > 0
    && (forall i :: 0 <= i < |es| ==> Tag(es[i]) == tag && Recognised(es[i]))
    && (forall i :: 0 <= i < |es| - 1 ==> es[i].Literal? ==> es[i].tag == COMMA)
    && (es[|es| - 1].Literal? ==> k < |ts| && es[|es| - 1].tag == ts[k].kind)
  }

  lemma {:induction false} ValueRecognised(ts: seq<Token>, i: nat)
    requires i <= |ts| && ParseValue(ts, i).Ok?
    ensures var (v, k) := ParseValue(ts, i).value;
      Recognised(v) && (v.Literal? ==> k < |ts| && v.tag == ts[k].kind)
    decreases |ts| - i, 2
  {
    var t := ts[i];
    if t.kind == LEFT_BRACE && t.kind != STRING && t.kind != NUMBER && t.kind != BOOLEAN && t.kind != NULL {
      ObjectRecognised(ts, i);
    } else if t.kind == LEFT_BRACKET && t.kind != STRING && t.kind != NUMBER && t.kind != BOOLEAN && t.kind != NULL {
      ArrayRecognised(ts, i);
    }
  }

  lemma {:induction false} ObjectRecognised(ts: seq<Token>, i: nat)
    requires i <= |ts| && ParseObject(ts, i).Ok?
    ensures Recognised(ParseObject(ts, i).value.0)
    decreases |ts| - i, 1
  {
    var j := i + 1;
    if ts[j].kind != RIGHT_BRACE {
      var (m, k) := ParsePair(ts, j).value;
      PairRecognised(ts, j);
      MembersRestRecognised(ts, k, {m.key}, [m]);
    }
  }

  lemma {:induction false} MembersRestRecognised(ts: seq<Token>, k: nat, keys: set<string>, ms: seq<Member>)
    requires k <= |ts| && MembersRest(ts, k, keys, ms).Ok?
    requires MembersSoFar(ts, k, keys, ms)
    ensures Recognised(MembersRest(ts, k, keys, ms).value.0)
    decreases |ts| - k, 0
  {
    if ts[k].kind == COMMA {
      var (m, p) := ParsePair(ts, k + 1).value;
      PairRecognised(ts, k + 1);
      assert m.key !in keys;
      var ms' := ms + [m];
      assert ms'[|ms'| - 1] == m;
      assert MembersSoFar(ts, p, keys + {m.key}, ms');
      MembersRestRecognised(ts, p, keys + {m.key}, ms');
    } else {
      assert ts[k].kind == RIGHT_BRACE;
    }
  }

  lemma {:induction false} PairRecognised(ts: seq<Token>, i: nat)
    requires i <= |ts| && ParsePair(ts, i).Ok?
    ensures var (m, k) := ParsePair(ts, i).value;
      && !IsBlank(m.key) && !IsReserved(m.key) && Recognised(m.value)
      && (m.value.Literal? ==> k < |ts| && m.value.tag == ts[k].kind)
    decreases |ts| - i, 0
  {
    ValueRecognised(ts, i + 2);
  }

  lemma {:induction false} ArrayRecognised(ts: seq<Token>, i: nat)
    requires i <= |ts| && ParseArray(ts, i).Ok?
    ensures Recognised(ParseArray(ts, i).value.0)
    decreases |ts| - i, 1
  {
    var j := i + 1;
    if ts[j].kind != RIGHT_BRACKET {
      var (v, k) := ParseValue(ts, j).value;
      ValueRecognised(ts, j);
      ElementsRestRecognised(ts, k, Tag(v), [v]);
    }
  }

  lemma {:induction false} ElementsRestRecognised(ts: seq<Token>, k: nat, tag: string, es: seq<Json>)
    requires k <= |ts| && ElementsRest(ts, k, tag, es).Ok?
    requires ElementsSoFar(ts, k, tag, es)
    ensures Recognised(ElementsRest(ts, k, tag, es).value.0)
    decreases |ts| - k, 0
  {
    if ts[k].kind == COMMA {
      var (v, p) := ParseValue(ts, k + 1).value;
      ValueRecognised(ts, k + 1);
      var es' := es + [v];
      assert es'[|es'| - 1] == v;
      assert ElementsSoFar(ts, p, tag, es');
      ElementsRestRecognised(ts, p, tag, es');
    } else {
      assert ts[k].kind == RIGHT_BRACKET;
      assert es[0] in es;
    }
  }

  /** Every tree `parse` accepts satisfies the semantic invariants: within
      each object the keys are pairwise distinct, non-blank and not
      reserved; no string value is reserved; every number passed checks 1
      and 3; all elements of an array carry the first element's kind tag;
      and each BOOLEAN/NULL literal is tagged with the token after it. */
  lemma ParseRecognised(ts: seq<Token>)
    requires Parse(ts).Ok?
    ensures WellFormed(Parse(ts).value)
    ensures LiteralTagsPositional(Parse(ts).value)
  {
    if ts[0].kind == LEFT_BRACE {
      ObjectRecognised(ts, 0);
    } else {
      ArrayRecognised(ts, 0);
    }
  }

  /** No array of two or more elements holds a BOOLEAN or NULL literal. */
  predicate NoLiteralInLongArray(v: Json)
    decreases v
  {
    match v
    case Object(ms) => forall i :: 0 <= i < |ms| ==> NoLiteralInLongArray(ms[i].value)
    case Array(es) =>
      && (|es| >= 2 ==> forall i :: 0 <= i < |es| ==> !es[i].Literal?)
      && forall i :: 0 <= i < |es| ==> NoLiteralInLongArray(es[i])
    case _ => true
  }

  lemma {:induction false} LongArraysHoldNoLiterals(v: Json)
    requires Recognised(v)
    ensures NoLiteralInLongArray(v)
    decreases v
  {
    match v
    case Object(ms) =>
      forall i | 0 <= i < |ms| ensures NoLiteralInLongArray(ms[i].value) {
        LongArraysHoldNoLiterals(ms[i].value);
      }
    case Array(es) =>
      forall i | 0 <= i < |es| ensures NoLiteralInLongArray(es[i]) {
        LongArraysHoldNoLiterals(es[i]);
      }
      if |es| >= 2 {
        var last := |es| - 1;
        forall i | 0 <= i < |es| ensures !es[i].Literal? {
          // all tags agree, yet a literal before the last is tagged COMMA,
          // the last literal RIGHT_BRACKET, and no other value has either tag
          assert Tag(es[i]) == Tag(es[0]) && Tag(es[last]) == Tag(es[0]);
          assert Tag(es[0]) != RIGHT_BRACKET && Tag(es[last]) != COMMA;
        }
      }
    case _ =>
  }

  /** The source's tagging of BOOLEAN/NULL literals by the token after them
      means an array of two or more elements that holds one is never
      accepted: `[true, false]` fails with error 6 (tags COMMA and
      RIGHT_BRACKET), and so does `[1, true]`. */
  lemma ParseRejectsLiteralsInLongArrays(ts: seq<Token>)
    requires Parse(ts).Ok?
    ensures NoLiteralInLongArray(Parse(ts).value)
  {
    ParseRecognised(ts);
    LongArraysHoldNoLiterals(Parse(ts).value);
  }

  /** Both values are built by the same constructor. */
  predicate SameConstructor(a: Json, b: Json) {
    || (a.Object? && b.Object?) || (a.Array? && b.Array?)
    || (a.Str? && b.Str?) || (a.Num? && b.Num?) || (a.Literal? && b.Literal?)
  }

  /** Every array holds values of one sort only. */
  predicate Homogeneous(v: Json)
    decreases v
  {
    match v
    case Object(ms) => forall i :: 0 <= i < |ms| ==> Homogeneous(ms[i].value)
    case Array(es) =>
      forall i :: 0 <= i < |es| ==> SameConstructor(es[i], es[0]) && Homogeneous(es[i])
    case _ => true
  }

  lemma {:induction false} RecognisedIsHomogeneous(v: Json)
    requires Recognised(v)
    ensures Homogeneous(v)
    decreases v
  {
    match v
    case Object(ms) =>
      forall i | 0 <= i < |ms| ensures Homogeneous(ms[i].value) {
        RecognisedIsHomogeneous(ms[i].value);
      }
    case Array(es) =>
      LongArraysHoldNoLiterals(v);
      forall i | 0 <= i < |es| ensures SameConstructor(es[i], es[0]) && Homogeneous(es[i]) {
        RecognisedIsHomogeneous(es[i]);
        if |es| >= 2 {
          assert !es[i].Literal? && !es[0].Literal? && Tag(es[i]) == Tag(es[0]);
        }
      }
    case _ =>
  }

  /** Check 6 in its intended sense: in every accepted tree, the elements
      of each array are all objects, all arrays, all strings, all numbers,
      or a single BOOLEAN/NULL. */
  lemma ParseIsHomogeneous(ts: seq<Token>)
    requires Parse(ts).Ok?
    ensures Homogeneous(Parse(ts).value)
  {
    ParseRecognised(ts);
    RecognisedIsHomogeneous(Parse(ts).value);
  }

  /** `us` holds the same tokens as `ts` at the first `k` positions. */
  predicate Agree(ts: seq<Token>, us: seq<Token>, k: nat) {
    k <= |ts| && k <= |us| && forall j :: 0 <= j < k ==> ts[j] == us[j]
  }

  lemma {:induction false} ValueAgree(ts: seq<Token>, us: seq<Token>, i: nat)
    requires i <= |ts| && ParseValue(ts, i).Ok?
    requires var (v, k) := ParseValue(ts, i).value;
      Agree(ts, us, k) && (v.Literal? ==> k < |ts| && k < |us| && us[k] == ts[k])
    ensures i <= |us| && ParseValue(us, i) == ParseValue(ts, i)
    decreases |ts| - i, 2
  {
    var t := ts[i];
    assert us[i] == t;
    if t.kind == LEFT_BRACE && t.kind != STRING && t.kind != NUMBER && t.kind != BOOLEAN && t.kind != NULL {
      ObjectAgree(ts, us, i);
    } else if t.kind == LEFT_BRACKET && t.kind != STRING && t.kind != NUMBER && t.kind != BOOLEAN && t.kind != NULL {
      ArrayAgree(ts, us, i);
    }
  }

  lemma {:induction false} ObjectAgree(ts: seq<Token>, us: seq<Token>, i: nat)
    requires i <= |ts| && ParseObject(ts, i).Ok?
    requires Agree(ts, us, ParseObject(ts, i).value.1)
    ensures i <= |us| && ParseObject(us, i) == ParseObject(ts, i)
    decreases |ts| - i, 1
  {
    var e := ParseObject(ts, i).value.1;
    var j := i + 1;
    assert us[i] == ts[i] && us[j] == ts[j];
    if ts[j].kind != RIGHT_BRACE {
      var (m, k) := ParsePair(ts, j).value;
      assert k < e;
      PairAgree(ts, us, j);
      MembersRestAgree(ts, us, k, {m.key}, [m]);
    }
  }

  lemma {:induction false} MembersRestAgree(ts: seq<Token>, us: seq<Token>, k: nat, keys: set<string>, ms: seq<Member>)
    requires k <= |ts| && MembersRest(ts, k, keys, ms).Ok?
    requires Agree(ts, us, MembersRest(ts, k, keys, ms).value.1)
    ensures k <= |us| && MembersRest(us, k, keys, ms) == MembersRest(ts, k, keys, ms)
    decreases |ts| - k, 0
  {
    assert us[k] == ts[k];
    if ts[k].kind == COMMA {
      var (m, p) := ParsePair(ts, k + 1).value;
      assert p < MembersRest(ts, k, keys, ms).value.1;
      PairAgree(ts, us, k + 1);
      MembersRestAgree(ts, us, p, keys + {m.key}, ms + [m]);
    }
  }

  lemma {:induction false} PairAgree(ts: seq<Token>, us: seq<Token>, i: nat)
    requires i <= |ts| && ParsePair(ts, i).Ok?
    requires var (m, k) := ParsePair(ts, i).value;
      Agree(ts, us, k) && (m.value.Literal? ==> k < |ts| && k < |us| && us[k] == ts[k])
    ensures i <= |us| && ParsePair(us, i) == ParsePair(ts, i)
    decreases |ts| - i, 0
  {
    assert us[i] == ts[i] && us[i + 1] == ts[i + 1];
    ValueAgree(ts, us, i + 2);
  }

  lemma {:induction false} ArrayAgree(ts: seq<Token>, us: seq<Token>, i: nat)
    requires i <= |ts| && ParseArray(ts, i).Ok?
    requires Agree(ts, us, ParseArray(ts, i).value.1)
    ensures i <= |us| && ParseArray(us, i) == ParseArray(ts, i)
    decreases |ts| - i, 1
  {
    var e := ParseArray(ts, i).value.1;
    var j := i + 1;
    assert us[i] == ts[i] && us[j] == ts[j];
    if ts[j].kind != RIGHT_BRACKET {
      var (v, k) := ParseValue(ts, j).value;
      assert k < e;
      ValueAgree(ts, us, j);
      ElementsRestAgree(ts, us, k, Tag(v), [v]);
    }
  }

  lemma {:induction false} ElementsRestAgree(ts: seq<Token>, us: seq<Token>, k: nat, tag: string, es: seq<Json>)
    requires k <= |ts| && ElementsRest(ts, k, tag, es).Ok?
    requires Agree(ts, us, ElementsRest(ts, k, tag, es).value.1)
    ensures k <= |us| && ElementsRest(us, k, tag, es) == ElementsRest(ts, k, tag, es)
    decreases |ts| - k, 0
  {
    assert us[k] == ts[k];
    if ts[k].kind == COMMA {
      var (v, p) := ParseValue(ts, k + 1).value;
      assert p < ElementsRest(ts, k, tag, es).value.1;
      ValueAgree(ts, us, k + 1);
      ElementsRestAgree(ts, us, p, tag, es + [v]);
    }
  }

  /** The index just past the root's closing token. */
  function RootEnd(ts: seq<Token>): (e: nat)
    requires Parse(ts).Ok?
    ensures 0 < e <= |ts|
  {
    if ts[0].kind == LEFT_BRACE then ParseObject(ts, 0).value.1 else ParseArray(ts, 0).value.1
  }

  lemma RootEndCloses(ts: seq<Token>)
    requires Parse(ts).Ok?
    ensures ts[RootEnd(ts) - 1].kind == (if ts[0].kind == LEFT_BRACE then RIGHT_BRACE else RIGHT_BRACKET)
  {
    if ts[0].kind == LEFT_BRACE {
      ObjectClosesAt(ts, 0);
    } else {
      ArrayClosesAt(ts, 0);
    }
  }

  lemma {:induction false} ObjectClosesAt(ts: seq<Token>, i: nat)
    requires i <= |ts| && ParseObject(ts, i).Ok?
    ensures ts[ParseObject(ts, i).value.1 - 1].kind == RIGHT_BRACE
  {
    var j := i + 1;
    if ts[j].kind != RIGHT_BRACE {
      var (m, k) := ParsePair(ts, j).value;
      MembersRestClosesAt(ts, k, {m.key}, [m]);
    }
  }

  lemma {:induction false} MembersRestClosesAt(ts: seq<Token>, k: nat, keys: set<string>, ms: seq<Member>)
    requires k <= |ts| && MembersRest(ts, k, keys, ms).Ok?
    ensures ts[MembersRest(ts, k, keys, ms).value.1 - 1].kind == RIGHT_BRACE
    decreases |ts| - k
  {
    if ts[k].kind == COMMA {
      var (m, p) := ParsePair(ts, k + 1).value;
      MembersRestClosesAt(ts, p, keys + {m.key}, ms + [m]);
    }
  }

  lemma {:induction false} ArrayClosesAt(ts: seq<Token>, i: nat)
    requires i <= |ts| && ParseArray(ts, i).Ok?
    ensures ts[ParseArray(ts, i).value.1 - 1].kind == RIGHT_BRACKET
  {
    var j := i + 1;
    if ts[j].kind != RIGHT_BRACKET {
      var (v, k) := ParseValue(ts, j).value;
      ElementsRestClosesAt(ts, k, Tag(v), [v]);
    }
  }

  lemma {:induction false} ElementsRestClosesAt(ts: seq<Token>, k: nat, tag: string, es: seq<Json>)
    requires k <= |ts| && ElementsRest(ts, k, tag, es).Ok?
    ensures ts[ElementsRest(ts, k, tag, es).value.1 - 1].kind == RIGHT_BRACKET
    decreases |ts| - k
  {
    if ts[k].kind == COMMA {
      var (v, p) := ParseValue(ts, k + 1).value;
      ElementsRestClosesAt(ts, p, tag, es + [v]);
    }
  }

  /** Tokens after the root's closing token are never inspected: any token
      list that agrees with `ts` up to that token parses to the same tree,
      in particular `ts` cut just after it, and `ts` with anything appended. */
  lemma ParseIgnoresTrailingTokens(ts: seq<Token>, us: seq<Token>)
    requires Parse(ts).Ok?
    requires Agree(ts, us, RootEnd(ts))
    ensures Parse(us) == Parse(ts)
  {
    assert us[0] == ts[0];
    if ts[0].kind == LEFT_BRACE {
      ObjectAgree(ts, us, 0);
    } else {
      ArrayAgree(ts, us, 0);
    }
  }

  lemma ParseOfPrefixAndExtension(ts: seq<Token>, extra: seq<Token>)
    requires Parse(ts).Ok?
    ensures Parse(ts[..RootEnd(ts)]) == Parse(ts)
    ensures Parse(ts + extra) == Parse(ts)
  {
    ParseIgnoresTrailingTokens(ts, ts[..RootEnd(ts)]);
    ParseIgnoresTrailingTokens(ts, ts + extra);
  }
}
