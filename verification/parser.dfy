/** The parser as the source runs it: the token list and the index of the
    current token are the state of one parse (module globals in the source,
    fields of a `ParserState` object here), `Match` moves the index on, and
    the `Parse...` methods recurse and loop over commas. Each method is
    proved to return what the matching function of module Grammar returns
    and to leave the index where that function says. */
module Parser {
  import opened Text
  import opened Trees
  import G = Grammar

  /** A method's result and final index agree with a specification result:
      the same value and next index on success, the same error on failure. */
  predicate Mirrors<T(==)>(r: G.Result<T>, index: nat, spec: G.Result<(T, nat)>) {
    && (r.Ok? <==> spec.Ok?)
    && (r.Ok? ==> spec.value == (r.value, index))
    && (r.Err? ==> spec.error == r.error)
  }

  class ParserState {
    const tokens: seq<G.Token>
    var tokenIndex: nat

    ghost predicate Valid()
      reads this
    {
      tokenIndex <= |tokens|
    }

    /** `current_token`: `None` once the index is past the last token. */
    function CurrentToken(): Option<G.Token>
      reads this
    {
      if tokenIndex < |tokens| then Some(tokens[tokenIndex]) else None
    }

    /** The set-up `parse` does: the tokens, and the index at the first. */
    constructor (tokensInput: seq<G.Token>)
      ensures tokens == tokensInput && tokenIndex == 0 && Valid()
    {
      tokens := tokensInput;
      tokenIndex := 0;
    }

    /** `match`: on the expected kind, return the value and move on by one;
        otherwise fail and leave the index where it is. */
    method Match(expected: string) returns (r: G.Result<Option<string>>)
      requires Valid()
      modifies this
      ensures Valid()
      ensures Mirrors(r, tokenIndex, G.Match(tokens, old(tokenIndex), expected))
      ensures r.Err? ==> tokenIndex == old(tokenIndex)
    {
      var current := CurrentToken();
      if current.None? {
        return G.Err(G.SyntaxError(G.EndOfTokens));
      }
      if current.value.kind == expected {
        var value := current.value.value;
        tokenIndex := tokenIndex + 1;
        return G.Ok(value);
      }
      r := G.Err(G.SyntaxError(G.Expected(expected, current.value.kind)));
    }

    /** `parse_object`. */
    method ParseObject() returns (r: G.Result<Json>)
      requires Valid()
      modifies this
      ensures Valid()
      ensures Mirrors(r, tokenIndex, G.ParseObject(tokens, old(tokenIndex)))
      decreases |tokens| - tokenIndex, 1
    {
      ghost var start := tokenIndex;
      var open := Match(G.LEFT_BRACE);
      if open.Err? {
        return G.Err(open.error);
      }
      if tokenIndex >= |tokens| {
        return G.Err(G.SyntaxError(G.EndOfTokens));
      }
      ghost var first := tokenIndex;
      assert G.Match(tokens, start, G.LEFT_BRACE) == G.Ok((tokens[start].value, first));
      if tokens[tokenIndex].kind != G.RIGHT_BRACE {
        var pair := ParsePair();
        if pair.Err? {
          return G.Err(pair.error);
        }
        assert G.ParsePair(tokens, first) == G.Ok((pair.value, tokenIndex));
        // the first key cannot be a duplicate: no key has been seen yet
        r := ParseMembers({pair.value.key}, [pair.value]);
      } else {
        // the current token is the closing one, so this match succeeds
        var _ := Match(G.RIGHT_BRACE);
        r := G.Ok(Object([]));
      }
    }

    /** The comma loop of `parse_object` and its closing brace, after the
        first pair: each further key must not have been seen. */
    method ParseMembers(keys: set<string>, firstMembers: seq<Member>) returns (r: G.Result<Json>)
      requires Valid()
      modifies this
      ensures Valid()
      ensures Mirrors(r, tokenIndex, G.MembersRest(tokens, old(tokenIndex), keys, firstMembers))
      decreases |tokens| - tokenIndex, 0
    {
      ghost var spec := G.MembersRest(tokens, tokenIndex, keys, firstMembers);
      ghost var start := tokenIndex;
      var keysSeen := keys;
      var members := firstMembers;
      while true
        invariant Valid() && start <= tokenIndex
        invariant G.MembersRest(tokens, tokenIndex, keysSeen, members) == spec
        decreases |tokens| - tokenIndex
      {
        if tokenIndex >= |tokens| {
          return G.Err(G.SyntaxError(G.EndOfTokens));
        }
        if tokens[tokenIndex].kind != G.COMMA {
          break;
        }
        ghost var k := tokenIndex;
        var _ := Match(G.COMMA);
        var pair := ParsePair();
        if pair.Err? {
          return G.Err(pair.error);
        }
        assert G.ParsePair(tokens, k + 1) == G.Ok((pair.value, tokenIndex));
        var key := pair.value.key;
        if key in keysSeen {
          return G.Err(G.SemanticError(5, key));
        }
        keysSeen := keysSeen + {key};
        members := members + [pair.value];
      }
      var close := Match(G.RIGHT_BRACE);
      if close.Err? {
        return G.Err(close.error);
      }
      r := G.Ok(Object(members));
    }

    /** `parse_pair`. */
    method ParsePair() returns (r: G.Result<Member>)
      requires Valid()
      modifies this
      ensures Valid()
      ensures Mirrors(r, tokenIndex, G.ParsePair(tokens, old(tokenIndex)))
      decreases |tokens| - tokenIndex, 0
    {
      if tokenIndex >= |tokens| {
        return G.Err(G.SyntaxError(G.EndOfTokens));
      }
      if tokens[tokenIndex].kind == G.STRING {
        var keyValue := Match(G.STRING);
        var key := keyValue.value;
        if key.None? {
          return G.Err(G.SyntaxError(G.NoKeyValue));
        }
        if IsBlank(key.value) {
          return G.Err(G.SemanticError(2, key.value));
        }
        if IsReserved(key.value) {
          return G.Err(G.SemanticError(4, key.value));
        }
        var colon := Match(G.COLON);
        if colon.Err? {
          return G.Err(colon.error);
        }
        var value := ParseValue();
        if value.Err? {
          return G.Err(value.error);
        }
        r := G.Ok(Member(key.value, value.value));
      } else {
        r := G.Err(G.SyntaxError(G.KeyNotString));
      }
    }

    /** `parse_value`; the kind tag it returns beside the node is
        `Tag` of the result. */
    method ParseValue() returns (r: G.Result<Json>)
      requires Valid()
      modifies this
      ensures Valid()
      ensures Mirrors(r, tokenIndex, G.ParseValue(tokens, old(tokenIndex)))
      decreases |tokens| - tokenIndex, 2
    {
      if tokenIndex >= |tokens| {
        return G.Err(G.SyntaxError(G.EndOfTokens));
      }
      var kind := tokens[tokenIndex].kind;
      if kind == G.STRING {
        var m := Match(G.STRING);
        var value := m.value;
        if value.None? {
          return G.Err(G.SyntaxError(G.NoValue(G.STRING)));
        }
        if IsReserved(value.value) {
          return G.Err(G.SemanticError(7, value.value));
        }
        r := G.Ok(Str(value.value));
      } else if kind == G.NUMBER {
        var m := Match(G.NUMBER);
        var value := m.value;
        if value.None? {
          return G.Err(G.SyntaxError(G.NoValue(G.NUMBER)));
        }
        if G.IsInvalidDecimal(value.value) {
          return G.Err(G.SemanticError(1, value.value));
        }
        if G.HasLeadingZero(value.value) {
          return G.Err(G.SemanticError(3, value.value));
        }
        r := G.Ok(Num(value.value));
      } else if kind == G.BOOLEAN || kind == G.NULL {
        var m := Match(kind);
        // the tag is the kind of the token that is current after `match`
        if tokenIndex >= |tokens| {
          return G.Err(G.SyntaxError(G.EndOfTokens));
        }
        r := G.Ok(Literal(kind, G.Display(m.value), tokens[tokenIndex].kind));
      } else if kind == G.LEFT_BRACE {
        r := ParseObject();
      } else if kind == G.LEFT_BRACKET {
        r := ParseArray();
      } else {
        r := G.Err(G.SyntaxError(G.InvalidValue));
      }
    }

    /** `parse_array`. */
    method ParseArray() returns (r: G.Result<Json>)
      requires Valid()
      modifies this
      ensures Valid()
      ensures Mirrors(r, tokenIndex, G.ParseArray(tokens, old(tokenIndex)))
      decreases |tokens| - tokenIndex, 1
    {
      ghost var start := tokenIndex;
      var open := Match(G.LEFT_BRACKET);
      if open.Err? {
        return G.Err(open.error);
      }
      if tokenIndex >= |tokens| {
        return G.Err(G.SyntaxError(G.EndOfTokens));
      }
      ghost var first := tokenIndex;
      assert G.Match(tokens, start, G.LEFT_BRACKET) == G.Ok((tokens[start].value, first));
      if tokens[tokenIndex].kind != G.RIGHT_BRACKET {
        var value := ParseValue();
        if value.Err? {
          return G.Err(value.error);
        }
        assert G.ParseValue(tokens, first) == G.Ok((value.value, tokenIndex));
        var elementType := Tag(value.value);
        r := ParseElements(elementType, [value.value]);
      } else {
        // the current token is the closing one, so this match succeeds
        var _ := Match(G.RIGHT_BRACKET);
        r := G.Ok(Array([]));
      }
    }

    /** The comma loop of `parse_array` and its closing bracket, after the
        first element: each further element must have the first one's tag. */
    method ParseElements(elementType: string, firstElements: seq<Json>) returns (r: G.Result<Json>)
      requires Valid()
      modifies this
      ensures Valid()
      ensures Mirrors(r, tokenIndex, G.ElementsRest(tokens, old(tokenIndex), elementType, firstElements))
      decreases |tokens| - tokenIndex, 0
    {
      ghost var spec := G.ElementsRest(tokens, tokenIndex, elementType, firstElements);
      ghost var start := tokenIndex;
      var elements := firstElements;
      while true
        invariant Valid() && start <= tokenIndex
        invariant G.ElementsRest(tokens, tokenIndex, elementType, elements) == spec
        decreases |tokens| - tokenIndex
      {
        if tokenIndex >= |tokens| {
          return G.Err(G.SyntaxError(G.EndOfTokens));
        }
        if tokens[tokenIndex].kind != G.COMMA {
          break;
        }
        ghost var k := tokenIndex;
        var _ := Match(G.COMMA);
        var value := ParseValue();
        if value.Err? {
          return G.Err(value.error);
        }
        assert G.ParseValue(tokens, k + 1) == G.Ok((value.value, tokenIndex));
        if Tag(value.value) != elementType {
          return G.Err(G.SemanticError(6, ""));
        }
        elements := elements + [value.value];
      }
      var close := Match(G.RIGHT_BRACKET);
      if close.Err? {
        return G.Err(close.error);
      }
      r := G.Ok(Array(elements));
    }
  }

  /** `parse`: set up the state for this token list, then parse an object
      or an array at the first token, and return its `ParseTreeNode`. */
  method Parse(tokensInput: seq<G.Token>) returns (r: G.Result<Node>)
    ensures r == G.ParseTree(tokensInput)
  {
    var state := new ParserState(tokensInput);
    if |tokensInput| == 0 {
      return G.Err(G.SyntaxError(G.EndOfTokens));
    }
    var root: G.Result<Json>;
    if tokensInput[0].kind == G.LEFT_BRACE {
      root := state.ParseObject();
    } else if tokensInput[0].kind == G.LEFT_BRACKET {
      root := state.ParseArray();
    } else {
      return G.Err(G.SyntaxError(G.InvalidRoot));
    }
    if root.Err? {
      return G.Err(root.error);
    }
    r := G.Ok(ToNode(root.value));
  }
}
