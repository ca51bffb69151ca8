/** Token lists and the outcome `parse` gives them: each of the seven
    semantic errors, the BOOLEAN/NULL tagging quirk, and inputs the checks
    let through. Each proof walks the descent bottom-up. */
module GrammarExamples {
  import opened Text
  import opened Trees
  import opened Grammar

  function Tok(kind: string, v: string): Token {
    Token(kind, Some(v))
  }

  const LB: Token := Tok(LEFT_BRACE, "{")
  const RB: Token := Tok(RIGHT_BRACE, "}")
  const LK: Token := Tok(LEFT_BRACKET, "[")
  const RK: Token := Tok(RIGHT_BRACKET, "]")
  const CO: Token := Tok(COLON, ":")
  const CM: Token := Tok(COMMA, ",")

  /** `{"a": x}` for a value token `x`. */
  function OneMember(x: Token): seq<Token> {
    [LB, Tok(STRING, "a"), CO, x, RB]
  }

  /** `{"a": x}` fails with `e` when the value token alone fails with `e`. */
  lemma OneMemberFails(x: Token, e: ParseError)
    requires ParseValue(OneMember(x), 3) == Err(e)
    ensures Parse(OneMember(x)) == Err(e)
  {
    var ts := OneMember(x);
    assert !IsBlank("a") && !IsReserved("a") by {
      assert !IsSpace("a"[0]);
      assert Lower("a") == "a";
    }
    assert ParsePair(ts, 1) == Err(e);
  }

  /** `{"a": x}` is the one-member object when the value token alone is `v`. */
  lemma OneMemberAccepted(x: Token, v: Json)
    requires ParseValue(OneMember(x), 3) == Ok((v, 4))
    ensures Parse(OneMember(x)) == Ok(Object([Member("a", v)]))
  {
    var ts := OneMember(x);
    assert !IsBlank("a") && !IsReserved("a") by {
      assert !IsSpace("a"[0]);
      assert Lower("a") == "a";
    }
    assert ParsePair(ts, 1) == Ok((Member("a", v), 4));
    assert MembersRest(ts, 4, {"a"}, [Member("a", v)]) == Ok((Object([Member("a", v)]), 5));
  }

  /** Check 1: a number that starts or ends with '.', or holds two. */
  lemma InvalidDecimals()
    ensures Parse(OneMember(Tok(NUMBER, ".5"))) == Err(SemanticError(1, ".5"))
    ensures Parse(OneMember(Tok(NUMBER, "0."))) == Err(SemanticError(1, "0."))
    ensures Parse(OneMember(Tok(NUMBER, "1.2.3"))) == Err(SemanticError(1, "1.2.3"))
  {
    assert multiset("1.2.3")['.'] == 2 by {
      assert "1.2.3" == ['1'] + ['.'] + ['2'] + ['.'] + ['3'];
    }
    OneMemberFails(Tok(NUMBER, ".5"), SemanticError(1, ".5"));
    OneMemberFails(Tok(NUMBER, "0."), SemanticError(1, "0."));
    OneMemberFails(Tok(NUMBER, "1.2.3"), SemanticError(1, "1.2.3"));
  }

  /** Check 3: a leading zero not followed by '.'. */
  lemma LeadingZeros()
    ensures Parse(OneMember(Tok(NUMBER, "01"))) == Err(SemanticError(3, "01"))
    ensures Parse(OneMember(Tok(NUMBER, "00"))) == Err(SemanticError(3, "00"))
  {
    assert multiset("01")['.'] == 0 by {
      assert "01" == ['0'] + ['1'];
    }
    assert multiset("00")['.'] == 0 by {
      assert "00" == ['0'] + ['0'];
    }
    OneMemberFails(Tok(NUMBER, "01"), SemanticError(3, "01"));
    OneMemberFails(Tok(NUMBER, "00"), SemanticError(3, "00"));
  }

  /** "0." followed by digits passes check 3. */
  lemma ZeroPointAccepted()
    ensures Parse(OneMember(Tok(NUMBER, "0.5"))) == Ok(Object([Member("a", Num("0.5"))]))
  {
    assert multiset("0.5")['.'] == 1 by {
      assert "0.5" == ['0'] + ['.'] + ['5'];
    }
    OneMemberAccepted(Tok(NUMBER, "0.5"), Num("0.5"));
  }

  /** A sign in front hides a leading zero from check 3. */
  lemma SignedLeadingZeroAccepted()
    ensures Parse(OneMember(Tok(NUMBER, "-01"))) == Ok(Object([Member("a", Num("-01"))]))
  {
    assert multiset("-01")['.'] == 0 by {
      assert "-01" == ['-'] + ['0'] + ['1'];
    }
    OneMemberAccepted(Tok(NUMBER, "-01"), Num("-01"));
  }

  /** A '-' inside a number is let through. */
  lemma InnerMinusAccepted()
    ensures Parse(OneMember(Tok(NUMBER, "1-2"))) == Ok(Object([Member("a", Num("1-2"))]))
  {
    assert multiset("1-2")['.'] == 0 by {
      assert "1-2" == ['1'] + ['-'] + ['2'];
    }
    OneMemberAccepted(Tok(NUMBER, "1-2"), Num("1-2"));
  }

  /** Checks 2 and 4, and a key that is not a STRING. */
  lemma BadKeys()
    ensures Parse([LB, Tok(STRING, ""), CO, Tok(NUMBER, "1"), RB]) == Err(SemanticError(2, ""))
    ensures Parse([LB, Tok(STRING, " \t"), CO, Tok(NUMBER, "1"), RB]) == Err(SemanticError(2, " \t"))
    ensures Parse([LB, Tok(STRING, "True"), CO, Tok(NUMBER, "1"), RB]) == Err(SemanticError(4, "True"))
    ensures Parse([LB, Tok(NUMBER, "1"), CO, Tok(NUMBER, "1"), RB]) == Err(SyntaxError(KeyNotString))
  {
    assert IsBlank(" \t") by {
      assert IsSpace(" \t"[0]) && IsSpace(" \t"[1]);
    }
    assert Lower("True") == "true";
    assert !IsBlank("True") by {
      assert !IsSpace("True"[0]);
    }
    var t1 := [LB, Tok(STRING, ""), CO, Tok(NUMBER, "1"), RB];
    assert ParsePair(t1, 1) == Err(SemanticError(2, ""));
    var t2 := [LB, Tok(STRING, " \t"), CO, Tok(NUMBER, "1"), RB];
    assert ParsePair(t2, 1) == Err(SemanticError(2, " \t"));
    var t3 := [LB, Tok(STRING, "True"), CO, Tok(NUMBER, "1"), RB];
    assert ParsePair(t3, 1) == Err(SemanticError(4, "True"));
    var t4 := [LB, Tok(NUMBER, "1"), CO, Tok(NUMBER, "1"), RB];
    assert ParsePair(t4, 1) == Err(SyntaxError(KeyNotString));
  }

  /** Check 5: `{"a": 1, "a": 2}` repeats a key. */
  lemma DuplicateKey()
    ensures Parse([LB, Tok(STRING, "a"), CO, Tok(NUMBER, "1"), CM, Tok(STRING, "a"), CO, Tok(NUMBER, "2"), RB])
      == Err(SemanticError(5, "a"))
  {
    var ts := [LB, Tok(STRING, "a"), CO, Tok(NUMBER, "1"), CM, Tok(STRING, "a"), CO, Tok(NUMBER, "2"), RB];
    assert !IsBlank("a") && !IsReserved("a") by {
      assert !IsSpace("a"[0]);
      assert Lower("a") == "a";
    }
    assert ParsePair(ts, 1) == Ok((Member("a", Num("1")), 4));
    assert ParsePair(ts, 5) == Ok((Member("a", Num("2")), 8));
    assert MembersRest(ts, 4, {"a"}, [Member("a", Num("1"))]) == Err(SemanticError(5, "a"));
  }

  /** A repeated key is reported only once its value has parsed: in
      `{"a": 1, "a": 01}` the value's error 3 comes first. */
  lemma ValueErrorBeforeDuplicate()
    ensures Parse([LB, Tok(STRING, "a"), CO, Tok(NUMBER, "1"), CM, Tok(STRING, "a"), CO, Tok(NUMBER, "01"), RB])
      == Err(SemanticError(3, "01"))
  {
    var ts := [LB, Tok(STRING, "a"), CO, Tok(NUMBER, "1"), CM, Tok(STRING, "a"), CO, Tok(NUMBER, "01"), RB];
    assert !IsBlank("a") && !IsReserved("a") by {
      assert !IsSpace("a"[0]);
      assert Lower("a") == "a";
    }
    assert multiset("01")['.'] == 0 by {
      assert "01" == ['0'] + ['1'];
    }
    assert ParsePair(ts, 1) == Ok((Member("a", Num("1")), 4));
    assert ParseValue(ts, 7) == Err(SemanticError(3, "01"));
    assert ParsePair(ts, 5) == Err(SemanticError(3, "01"));
    assert MembersRest(ts, 4, {"a"}, [Member("a", Num("1"))]) == Err(SemanticError(3, "01"));
  }

  /** A key token without a value (a line with no ", ") stops the parse. */
  lemma KeyWithoutValue()
    ensures Parse([LB, Token(STRING, None), CO, Tok(NUMBER, "1"), RB]) == Err(SyntaxError(NoKeyValue))
  {
    var ts := [LB, Token(STRING, None), CO, Tok(NUMBER, "1"), RB];
    assert ParsePair(ts, 1) == Err(SyntaxError(NoKeyValue));
  }

  /** Keys are compared within one object only: `{"a": {"a": 1}}`. */
  lemma NestedKeys()
    ensures Parse([LB, Tok(STRING, "a"), CO, LB, Tok(STRING, "a"), CO, Tok(NUMBER, "1"), RB, RB])
      == Ok(Object([Member("a", Object([Member("a", Num("1"))]))]))
  {
    var ts := [LB, Tok(STRING, "a"), CO, LB, Tok(STRING, "a"), CO, Tok(NUMBER, "1"), RB, RB];
    assert !IsBlank("a") && !IsReserved("a") by {
      assert !IsSpace("a"[0]);
      assert Lower("a") == "a";
    }
    var inner := Object([Member("a", Num("1"))]);
    assert ParsePair(ts, 4) == Ok((Member("a", Num("1")), 7));
    assert MembersRest(ts, 7, {"a"}, [Member("a", Num("1"))]) == Ok((inner, 8));
    assert ParseObject(ts, 3) == Ok((inner, 8));
    assert ParsePair(ts, 1) == Ok((Member("a", inner), 8));
    assert MembersRest(ts, 8, {"a"}, [Member("a", inner)]) == Ok((Object([Member("a", inner)]), 9));
  }

  /** Check 7: a reserved word as a string value, in any case. */
  lemma ReservedStrings()
    ensures Parse(OneMember(Tok(STRING, "NULL"))) == Err(SemanticError(7, "NULL"))
    ensures Parse(OneMember(Tok(STRING, "x"))) == Ok(Object([Member("a", Str("x"))]))
  {
    assert Lower("NULL") == "null";
    assert Lower("x") == "x";
    OneMemberFails(Tok(STRING, "NULL"), SemanticError(7, "NULL"));
    OneMemberAccepted(Tok(STRING, "x"), Str("x"));
  }

  /** Elements of one kind are accepted in order. */
  lemma SameKindArray()
    ensures Parse([LK, Tok(NUMBER, "1"), CM, Tok(NUMBER, "2"), CM, Tok(NUMBER, "3"), RK])
      == Ok(Array([Num("1"), Num("2"), Num("3")]))
  {
    var ts := [LK, Tok(NUMBER, "1"), CM, Tok(NUMBER, "2"), CM, Tok(NUMBER, "3"), RK];
    var all := [Num("1"), Num("2"), Num("3")];
    assert ParseValue(ts, 1) == Ok((Num("1"), 2));
    assert ParseValue(ts, 3) == Ok((Num("2"), 4));
    assert ParseValue(ts, 5) == Ok((Num("3"), 6));
    assert [Num("1"), Num("2")] + [Num("3")] == all;
    assert [Num("1")] + [Num("2")] == [Num("1"), Num("2")];
    assert ElementsRest(ts, 6, NUMBER, all) == Ok((Array(all), 7));
    assert ElementsRest(ts, 4, NUMBER, [Num("1"), Num("2")]) == Ok((Array(all), 7));
    assert ElementsRest(ts, 2, NUMBER, [Num("1")]) == Ok((Array(all), 7));
  }

  /** Check 6: a NUMBER then a STRING. */
  lemma MixedArray()
    ensures Parse([LK, Tok(NUMBER, "1"), CM, Tok(STRING, "x"), RK]) == Err(SemanticError(6, ""))
  {
    assert Lower("x") == "x";
    var ts := [LK, Tok(NUMBER, "1"), CM, Tok(STRING, "x"), RK];
    assert ParseValue(ts, 1) == Ok((Num("1"), 2));
    assert ParseValue(ts, 3) == Ok((Str("x"), 4));
    assert ElementsRest(ts, 2, NUMBER, [Num("1")]) == Err(SemanticError(6, ""));
  }

  lemma EmptyContainers()
    ensures Parse([LK, RK]) == Ok(Array([]))
    ensures Parse([LB, RB]) == Ok(Object([]))
  {
  }

  /** The tag of a literal is the kind of the token after it: in
      `[true, false]` the first is tagged COMMA and the second
      RIGHT_BRACKET, so the array is rejected. */
  lemma TrueFalseRejected()
    ensures Parse([LK, Tok(BOOLEAN, "true"), CM, Tok(BOOLEAN, "false"), RK]) == Err(SemanticError(6, ""))
  {
    var ts := [LK, Tok(BOOLEAN, "true"), CM, Tok(BOOLEAN, "false"), RK];
    assert ParseValue(ts, 1) == Ok((Literal(BOOLEAN, "true", COMMA), 2));
    assert ParseValue(ts, 3) == Ok((Literal(BOOLEAN, "false", RIGHT_BRACKET), 4));
    assert ElementsRest(ts, 2, COMMA, [Literal(BOOLEAN, "true", COMMA)]) == Err(SemanticError(6, ""));
  }

  /** `[null, null]` is rejected too, though both elements are alike. */
  lemma NullNullRejected()
    ensures Parse([LK, Tok(NULL, "null"), CM, Tok(NULL, "null"), RK]) == Err(SemanticError(6, ""))
  {
    var ts := [LK, Tok(NULL, "null"), CM, Tok(NULL, "null"), RK];
    assert ParseValue(ts, 1) == Ok((Literal(NULL, "null", COMMA), 2));
    assert ParseValue(ts, 3) == Ok((Literal(NULL, "null", RIGHT_BRACKET), 4));
    assert ElementsRest(ts, 2, COMMA, [Literal(NULL, "null", COMMA)]) == Err(SemanticError(6, ""));
  }

  /** A single literal is accepted, tagged with the closing bracket. */
  lemma SingleLiteralAccepted()
    ensures Parse([LK, Tok(BOOLEAN, "true"), RK]) == Ok(Array([Literal(BOOLEAN, "true", RIGHT_BRACKET)]))
  {
    var ts := [LK, Tok(BOOLEAN, "true"), RK];
    var v := Literal(BOOLEAN, "true", RIGHT_BRACKET);
    assert ParseValue(ts, 1) == Ok((v, 2));
    assert ElementsRest(ts, 2, RIGHT_BRACKET, [v]) == Ok((Array([v]), 3));
  }

  /** The token list ends inside an object. */
  lemma EndOfTokensInObject()
    ensures Parse([LB, Tok(STRING, "a"), CO, Tok(NUMBER, "1")]) == Err(SyntaxError(EndOfTokens))
  {
    assert !IsBlank("a") && !IsReserved("a") by {
      assert !IsSpace("a"[0]);
      assert Lower("a") == "a";
    }
    var ts := [LB, Tok(STRING, "a"), CO, Tok(NUMBER, "1")];
    assert ParseValue(ts, 3) == Ok((Num("1"), 4));
    assert ParsePair(ts, 1) == Ok((Member("a", Num("1")), 4));
    assert MembersRest(ts, 4, {"a"}, [Member("a", Num("1"))]) == Err(SyntaxError(EndOfTokens));
  }

  /** The root and the other syntax errors. */
  lemma SyntaxErrors()
    ensures Parse([Tok(NUMBER, "42")]) == Err(SyntaxError(InvalidRoot))
    ensures Parse([LB, Tok(STRING, "a"), Tok(NUMBER, "1"), RB]) == Err(SyntaxError(Expected(COLON, NUMBER)))
    ensures Parse([LK, CO, RK]) == Err(SyntaxError(InvalidValue))
    ensures Parse([LK, RK, Tok(NUMBER, "7")]) == Ok(Array([]))
  {
    assert !IsBlank("a") && !IsReserved("a") by {
      assert !IsSpace("a"[0]);
      assert Lower("a") == "a";
    }
    var t2 := [LB, Tok(STRING, "a"), Tok(NUMBER, "1"), RB];
    assert ParsePair(t2, 1) == Err(SyntaxError(Expected(COLON, NUMBER)));
    var t3 := [LK, CO, RK];
    assert ParseValue(t3, 1) == Err(SyntaxError(InvalidValue));
  }
}
