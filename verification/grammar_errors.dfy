/** What a failed parse means, for every token list: each of the seven
    semantic errors names a text that some token of the list carries and
    on which that check fails, and the checks are tried in the source's
    order (blank key before reserved key, invalid decimal before leading
    zero, a pair's own errors before the duplicate test, an element's own
    errors before the tag comparison). */
module GrammarErrors {
  import opened Text
  import opened Trees
  import opened Grammar

  /** Token `j` has kind `kind` and carries the text `x`. */
  predicate ValueAt(ts: seq<Token>, j: nat, kind: string, x: string) {
    j < |ts| && ts[j].kind == kind && ts[j].value == Some(x)
  }

  /** Token `j` is the STRING key `x` of a pair, followed by its COLON. */
  predicate KeyAt(ts: seq<Token>, j: nat, x: string) {
    j + 1 < |ts| && ValueAt(ts, j, STRING, x) && ts[j + 1].kind == COLON
  }

  /** The evidence in `ts` for a semantic error: the token it was raised
      on, and the failing check. Syntax errors need no evidence. */
  ghost predicate Explains(ts: seq<Token>, e: ParseError) {
    e.SemanticError? ==>
      var x := e.text;
      if e.id == 1 then (exists j: nat :: ValueAt(ts, j, NUMBER, x)) && IsInvalidDecimal(x)
      else if e.id == 2 then (exists j: nat :: ValueAt(ts, j, STRING, x)) && IsBlank(x)
      else if e.id == 3 then
        (exists j: nat :: ValueAt(ts, j, NUMBER, x)) && HasLeadingZero(x) && !IsInvalidDecimal(x)
      else if e.id == 4 then (exists j: nat :: ValueAt(ts, j, STRING, x)) && IsReserved(x) && !IsBlank(x)
      else if e.id == 5 then
        && (exists j1: nat, j2: nat :: j1 < j2 && KeyAt(ts, j1, x) && KeyAt(ts, j2, x))
        && !IsBlank(x) && !IsReserved(x)
      else if e.id == 6 then x == "" && exists j: nat :: j < |ts| && ts[j].kind == COMMA
      else (exists j: nat :: ValueAt(ts, j, STRING, x)) && IsReserved(x)
  }

  /** Every key recorded by an object's comma loop stands as a valid key
      before index `k`. */
  ghost predicate KeysBefore(ts: seq<Token>, k: nat, keys: set<string>) {
    forall x :: x in keys ==>
      (exists j: nat :: j < k && KeyAt(ts, j, x)) && !IsBlank(x) && !IsReserved(x)
  }

  /** The checks of `parse_value` on a STRING or NUMBER token, in order. */
  lemma ValueChecks(ts: seq<Token>, i: nat, x: string)
    requires i < |ts| && ts[i].value == Some(x)
    ensures ts[i].kind == STRING ==>
      ParseValue(ts, i) == (if IsReserved(x) then Err(SemanticError(7, x)) else Ok((Str(x), i + 1)))
    ensures ts[i].kind == NUMBER ==>
      ParseValue(ts, i) ==
        if IsInvalidDecimal(x) then Err(SemanticError(1, x))
        else if HasLeadingZero(x) then Err(SemanticError(3, x))
        else Ok((Num(x), i + 1))
  { }

  /** The checks of `parse_pair` on its key, in order: a non-STRING token is
      a syntax error, then a blank key is error 2, then a reserved key is
      error 4; only a valid key goes on to the colon. */
  lemma KeyChecks(ts: seq<Token>, i: nat)
    requires i < |ts|
    ensures ts[i].kind != STRING ==> ParsePair(ts, i) == Err(SyntaxError(KeyNotString))
    ensures ts[i].kind == STRING && ts[i].value.Some? && IsBlank(ts[i].value.value) ==>
      ParsePair(ts, i) == Err(SemanticError(2, ts[i].value.value))
    ensures (ts[i].kind == STRING && ts[i].value.Some? && !IsBlank(ts[i].value.value)
             && IsReserved(ts[i].value.value)) ==>
      ParsePair(ts, i) == Err(SemanticError(4, ts[i].value.value))
    ensures ParsePair(ts, i).Ok? ==>
      && ts[i].kind == STRING && ts[i].value.Some?
      && !IsBlank(ts[i].value.value) && !IsReserved(ts[i].value.value)
  { }

  /** One round of an object's comma loop: the pair's own error comes
      first; a pair that parses with a key already seen is error 5; a fresh
      key continues the loop. */
  lemma MembersRestOrder(ts: seq<Token>, k: nat, keys: set<string>, ms: seq<Member>)
    requires k < |ts| && ts[k].kind == COMMA
    ensures ParsePair(ts, k + 1).Err? ==> MembersRest(ts, k, keys, ms) == Err(ParsePair(ts, k + 1).error)
    ensures ParsePair(ts, k + 1).Ok? && ParsePair(ts, k + 1).value.0.key in keys ==>
      MembersRest(ts, k, keys, ms) == Err(SemanticError(5, ParsePair(ts, k + 1).value.0.key))
    ensures ParsePair(ts, k + 1).Ok? && ParsePair(ts, k + 1).value.0.key !in keys ==>
      var (m, p) := ParsePair(ts, k + 1).value;
      MembersRest(ts, k, keys, ms) == MembersRest(ts, p, keys + {m.key}, ms + [m])
  { }

  /** One round of an array's comma loop: the element's own error comes
      first; an element whose tag differs from the first is error 6; a
      matching one continues the loop. */
  lemma ElementsRestOrder(ts: seq<Token>, k: nat, tag: string, es: seq<Json>)
    requires k < |ts| && ts[k].kind == COMMA
    ensures ParseValue(ts, k + 1).Err? ==> ElementsRest(ts, k, tag, es) == Err(ParseValue(ts, k + 1).error)
    ensures ParseValue(ts, k + 1).Ok? && Tag(ParseValue(ts, k + 1).value.0) != tag ==>
      ElementsRest(ts, k, tag, es) == Err(SemanticError(6, ""))
    ensures ParseValue(ts, k + 1).Ok? && Tag(ParseValue(ts, k + 1).value.0) == tag ==>
      var (v, p) := ParseValue(ts, k + 1).value;
      ElementsRest(ts, k, tag, es) == ElementsRest(ts, p, tag, es + [v])
  { }

  /** A parsed pair's key stands at its own index, with its colon. */
  lemma PairKeyAt(ts: seq<Token>, i: nat)
    requires i <= |ts| && ParsePair(ts, i).Ok?
    ensures var (m, k) := ParsePair(ts, i).value;
      KeyAt(ts, i, m.key) && i + 1 < k && !IsBlank(m.key) && !IsReserved(m.key)
  { }

  lemma {:induction false} ValueExplains(ts: seq<Token>, i: nat)
    requires i <= |ts| && ParseValue(ts, i).Err?
    ensures Explains(ts, ParseValue(ts, i).error)
    decreases |ts| - i, 2
  {
    if i < |ts| {
      var t := ts[i];
      if t.kind == STRING || t.kind == NUMBER {
        if t.value.Some? {
          assert ValueAt(ts, i, t.kind, t.value.value);
        }
      } else if t.kind == LEFT_BRACE && t.kind != BOOLEAN && t.kind != NULL {
        ObjectExplains(ts, i);
      } else if t.kind == LEFT_BRACKET && t.kind != BOOLEAN && t.kind != NULL {
        ArrayExplains(ts, i);
      }
    }
  }

  lemma {:induction false} PairExplains(ts: seq<Token>, i: nat)
    requires i <= |ts| && ParsePair(ts, i).Err?
    ensures Explains(ts, ParsePair(ts, i).error)
    decreases |ts| - i, 0
  {
    if i < |ts| && ts[i].kind == STRING && ts[i].value.Some? {
      var key := ts[i].value.value;
      assert ValueAt(ts, i, STRING, key);
      if !IsBlank(key) && !IsReserved(key) && i + 1 < |ts| && ts[i + 1].kind == COLON {
        ValueExplains(ts, i + 2);
      }
    }
  }

  lemma {:induction false} ObjectExplains(ts: seq<Token>, i: nat)
    requires i <= |ts| && ParseObject(ts, i).Err?
    ensures Explains(ts, ParseObject(ts, i).error)
    decreases |ts| - i, 1
  {
    if i < |ts| && ts[i].kind == LEFT_BRACE && i + 1 < |ts| && ts[i + 1].kind != RIGHT_BRACE {
      var j := i + 1;
      if ParsePair(ts, j).Err? {
        PairExplains(ts, j);
      } else {
        var (m, k) := ParsePair(ts, j).value;
        PairKeyAt(ts, j);
        assert KeysBefore(ts, k, {m.key});
        MembersRestExplains(ts, k, {m.key}, [m]);
      }
    }
  }

  lemma {:induction false} MembersRestExplains(ts: seq<Token>, k: nat, keys: set<string>, ms: seq<Member>)
    requires k <= |ts| && MembersRest(ts, k, keys, ms).Err?
    requires KeysBefore(ts, k, keys)
    ensures Explains(ts, MembersRest(ts, k, keys, ms).error)
    decreases |ts| - k, 0
  {
    if k < |ts| && ts[k].kind == COMMA {
      if ParsePair(ts, k + 1).Err? {
        PairExplains(ts, k + 1);
      } else {
        var (m, p) := ParsePair(ts, k + 1).value;
        PairKeyAt(ts, k + 1);
        if m.key in keys {
          var j1: nat :| j1 < k && KeyAt(ts, j1, m.key);
          assert j1 < k + 1 && KeyAt(ts, j1, m.key) && KeyAt(ts, k + 1, m.key);
        } else {
          assert KeysBefore(ts, p, keys + {m.key});
          MembersRestExplains(ts, p, keys + {m.key}, ms + [m]);
        }
      }
    }
  }

  lemma {:induction false} ArrayExplains(ts: seq<Token>, i: nat)
    requires i <= |ts| && ParseArray(ts, i).Err?
    ensures Explains(ts, ParseArray(ts, i).error)
    decreases |ts| - i, 1
  {
    if i < |ts| && ts[i].kind == LEFT_BRACKET && i + 1 < |ts| && ts[i + 1].kind != RIGHT_BRACKET {
      var j := i + 1;
      if ParseValue(ts, j).Err? {
        ValueExplains(ts, j);
      } else {
        var (v, k) := ParseValue(ts, j).value;
        ElementsRestExplains(ts, k, Tag(v), [v]);
      }
    }
  }

  lemma {:induction false} ElementsRestExplains(ts: seq<Token>, k: nat, tag: string, es: seq<Json>)
    requires k <= |ts| && ElementsRest(ts, k, tag, es).Err?
    ensures Explains(ts, ElementsRest(ts, k, tag, es).error)
    decreases |ts| - k, 0
  {
    if k < |ts| && ts[k].kind == COMMA {
      if ParseValue(ts, k + 1).Err? {
        ValueExplains(ts, k + 1);
      } else {
        var (v, p) := ParseValue(ts, k + 1).value;
        if Tag(v) == tag {
          ElementsRestExplains(ts, p, tag, es + [v]);
        }
      }
    }
  }

  /** Every semantic error `parse` reports is raised on a token of the
      list on which its check fails: error 1 on a NUMBER that is not a
      valid decimal; 2 on a blank STRING; 3 on a NUMBER with a leading zero
      that passed check 1; 4 on a reserved, non-blank STRING; 5 on a valid
      key that stands as a key twice; 6 (with no text) only where a comma
      occurs; 7 on a reserved STRING. */
  lemma ParseErrorExplained(ts: seq<Token>)
    requires Parse(ts).Err?
    ensures Explains(ts, Parse(ts).error)
  {
    if |ts| > 0 && ts[0].kind == LEFT_BRACE {
      ObjectExplains(ts, 0);
    } else if |ts| > 0 && ts[0].kind == LEFT_BRACKET {
      ArrayExplains(ts, 0);
    }
  }
}
