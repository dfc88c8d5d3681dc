/**
  Concrete inputs and their tokens. The host whitespace test stays open: each
  example states only what it needs of it (a space is whitespace, digits and
  letters are not), as Rust's `char::is_whitespace` has it.
 */
module Examples {
  import opened Results
  import opened Values
  import opened Tokens
  import opened Literals
  import opened Errors
  import opened Tokenizer
  import opened ResolveFacts
  import opened TokenizeFacts

  lemma StrToTokensOne(c: char, isWhitespace: char -> bool)
    ensures StrToTokens([c], isWhitespace) == [CharToPartialToken(c, isWhitespace)]
  {
    StrToTokensSnoc([], c, isWhitespace);
  }

  lemma StrToTokensTwo(c: char, d: char, isWhitespace: char -> bool)
    requires !IsLiteralChar(c, isWhitespace)
    ensures StrToTokens([c, d], isWhitespace) ==
              [CharToPartialToken(c, isWhitespace), CharToPartialToken(d, isWhitespace)]
  {
    StrToTokensSplit([], c, [d], isWhitespace);
    StrToTokensOne(d, isWhitespace);
    assert [] + [c] + [d] == [c, d];
  }

  /** One character alone: a resolved token, or a one-character run. */
  lemma TokenizeOne(c: char, isWhitespace: char -> bool)
    requires !IsLookahead(CharToPartialToken(c, isWhitespace))
    ensures CharToPartialToken(c, isWhitespace).Token? ==>
              Tokenize([c], isWhitespace) == Ok([CharToPartialToken(c, isWhitespace).token])
    ensures CharToPartialToken(c, isWhitespace).Literal? ==>
              Tokenize([c], isWhitespace) == Ok([LiteralToken([c])])
  {
    var p := CharToPartialToken(c, isWhitespace);
    StrToTokensOne(c, isWhitespace);
    assert Tokenize([c], isWhitespace) == ResolveLiterals([p]);
    assert [p] + [] == [p];
    PassThrough(p, []);
    assert ResolveLiterals([]) == Ok([]);
    if p.Token? {
      assert ResolveLiterals([p]) == Prepend([p.token], Ok([]));
      assert [p.token] + [] == [p.token];
    } else if p.Literal? {
      assert ResolveLiterals([p]) == Prepend([LiteralToken(p.text)], Ok([]));
      assert [LiteralToken(p.text)] + [] == [LiteralToken(p.text)];
    }
  }

  lemma TokenizeDigit(c: char, isWhitespace: char -> bool)
    requires IsDigit(c) && !isWhitespace(c)
    ensures Tokenize([c], isWhitespace) == Ok([Token.Int(DigitValue(c))])
  {
    assert IsLiteralChar(c, isWhitespace);
    TokenizeOne(c, isWhitespace);
    assert LiteralToken([c]) == Token.Int(DigitValue(c)) by {
      DigitRunIsNumber([c]);
      assert DigitsValue([c]) == DigitValue(c) by {
        assert [c][..0] == [];
      }
    }
  }

  lemma TokenizePair(c: char, d: char, isWhitespace: char -> bool)
    requires !IsLiteralChar(c, isWhitespace)
    ensures Tokenize([c, d], isWhitespace) ==
              ResolveLiterals([CharToPartialToken(c, isWhitespace), CharToPartialToken(d, isWhitespace)])
  {
    StrToTokensTwo(c, d, isWhitespace);
  }

  lemma TokenizeSingle(c: char, isWhitespace: char -> bool)
    ensures Tokenize([c], isWhitespace) == ResolveLiterals([CharToPartialToken(c, isWhitespace)])
  {
    StrToTokensOne(c, isWhitespace);
  }

  // The texts below are pinned through a parameter rather than written into the
  // ensures: a literal text there makes the verifier unfold the tokenizer on it
  // at much greater cost.
  lemma EqualsEquals(s: string, isWhitespace: char -> bool)
    requires s == "=="
    ensures Tokenize(s, isWhitespace) == Ok([Token.Eq])
  {
    PairResolves(PartialToken.Eq, []);
    assert [PartialToken.Eq, PartialToken.Eq] + [] == [PartialToken.Eq, PartialToken.Eq];
    TokenizePair('=', '=', isWhitespace);
    assert [Token.Eq] + [] == [Token.Eq];
  }

  /** The documented quirk: `!=` yields `Eq`, not `Neq`. */
  lemma ExclamationEquals(s: string, isWhitespace: char -> bool)
    requires s == "!="
    ensures Tokenize(s, isWhitespace) == Ok([Token.Eq])
  {
    PairResolves(PartialToken.ExclamationMark, []);
    assert [PartialToken.ExclamationMark, PartialToken.Eq] + [] == [PartialToken.ExclamationMark, PartialToken.Eq];
    TokenizePair('!', '=', isWhitespace);
    assert [Token.Eq] + [] == [Token.Eq];
  }

  /** A lone `=` fails with no second entry. */
  lemma LoneEquals(s: string, isWhitespace: char -> bool)
    requires s == "="
    ensures Tokenize(s, isWhitespace) == Err(UnmatchedPartialToken(PartialToken.Eq, None))
  {
    TokenizeSingle('=', isWhitespace);
    FailsAlone(PartialToken.Eq, []);
    assert [PartialToken.Eq] + [] == [PartialToken.Eq];
  }

  /** A `=` followed by a run fails, naming the run as the second entry. */
  lemma EqualsThenLiteral(x: char, isWhitespace: char -> bool)
    requires IsLiteralChar(x, isWhitespace)
    ensures Tokenize(['=', x], isWhitespace) ==
              Err(UnmatchedPartialToken(PartialToken.Eq, Some(PartialToken.Literal([x]))))
  {
    TokenizePair('=', x, isWhitespace);
    FailsAlone(PartialToken.Eq, [PartialToken.Literal([x])]);
    assert [PartialToken.Eq] + [PartialToken.Literal([x])] == [PartialToken.Eq, PartialToken.Literal([x])];
  }

  /** A text of literal characters is one run and one token. */
  lemma TokenizeRun(s: string, isWhitespace: char -> bool)
    requires |s| > 0
    requires forall i :: 0 <= i < |s| ==> IsLiteralChar(s[i], isWhitespace)
    ensures Tokenize(s, isWhitespace) == Ok([LiteralToken(s)])
  {
    LiteralRunMerges(s, isWhitespace);
    PassThrough(PartialToken.Literal(s), []);
    assert [PartialToken.Literal(s)] + [] == [PartialToken.Literal(s)];
    assert [LiteralToken(s)] + [] == [LiteralToken(s)];
  }

  /** A run resolves in priority order: integer, then float, then boolean, then identifier. */
  lemma IntegerRun()
    ensures LiteralToken("123") == Token.Int(123)
  {
    DigitRunIsNumber("123");
    assert DigitsValue("123") == 123 by {
      assert "123"[..2] == "12";
      assert "12"[..1] == "1";
      assert "1"[..0] == "";
    }
  }

  lemma FloatRun()
    ensures LiteralToken("1.5") == Token.Float(FloatValue("1.5"))
  {
    assert StripSign("1.5") == "1.5";
    assert ParseInt("1.5") == None by {
      assert !IsDigit("1.5"[1]);
    }
    assert IsFloatLiteral("1.5") by {
      assert FindFirst("1.5", {'e', 'E'}) == 3;
      assert "1.5"[..3] == "1.5";
      assert FindFirst("1.5", {'.'}) == 1;
      assert "1.5"[..1] == "1";
      assert "1.5"[2..] == "5";
    }
  }

  lemma TrueRun()
    ensures LiteralToken("true") == Token.Boolean(true)
  {
    WordRunIsBooleanOrIdentifier("true");
  }

  lemma FalseRun()
    ensures LiteralToken("false") == Token.Boolean(false)
  {
    WordRunIsBooleanOrIdentifier("false");
  }

  /** Digits followed by letters form one run that is neither a number nor a boolean. */
  lemma DigitsThenLettersRun()
    ensures LiteralToken("12x") == Token.Identifier("12x")
  {
    assert StripSign("12x") == "12x";
    assert ParseInt("12x") == None by {
      assert !IsDigit("12x"[2]);
    }
    assert ParseFloat("12x") == None by {
      assert FindFirst("12x", {'e', 'E'}) == 3;
      assert "12x"[..3] == "12x";
      assert FindFirst("12x", {'.'}) == 3;
      assert !IsDigit("12x"[2]);
    }
  }
}
