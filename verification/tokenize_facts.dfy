/** Properties of `tokenize` and of literal resolution, stated on the input text (`src/token/mod.rs`). */
module TokenizeFacts {
  import opened Results
  import opened Values
  import opened Tokens
  import opened Literals
  import opened Errors
  import opened Tokenizer
  import opened ResolveFacts

  // ---------------------------------------------------------------------
  // Literal runs
  // ---------------------------------------------------------------------

  /** A run of digits is a number: an integer when it fits 64 bits, a float otherwise, never an identifier. */
  lemma DigitRunIsNumber(text: string)
    requires |text| > 0 && AllDigits(text)
    ensures DigitsValue(text) <= IntMax ==> LiteralToken(text) == Token.Int(DigitsValue(text))
    ensures DigitsValue(text) > IntMax ==> LiteralToken(text) == Token.Float(FloatValue(text))
  {
    ParseIntDigits(text);
    DigitsParseAsFloat(text);
  }

  /** A run that starts like a word is a boolean for `true` and `false` and otherwise an identifier carrying the run unchanged. */
  lemma WordRunIsBooleanOrIdentifier(text: string)
    requires |text| > 0 && !IsDigit(text[0]) && text[0] !in {'+', '-', '.'}
    ensures text == "true" ==> LiteralToken(text) == Token.Boolean(true)
    ensures text == "false" ==> LiteralToken(text) == Token.Boolean(false)
    ensures text != "true" && text != "false" ==> LiteralToken(text) == Token.Identifier(text)
  {
    NonNumericStart(text);
  }

  /** An unsigned float literal that is not all digits is no integer, so it becomes a `Float` carrying its spelling. */
  lemma FloatRunIsFloat(text: string)
    requires IsFloatLiteral(text) && !AllDigits(text)
    requires forall i :: 0 <= i < |text| ==> text[i] !in {'+', '-'}
    ensures LiteralToken(text) == Token.Float(FloatValue(text))
  {
    assert StripSign(text) == text;
  }

  /** The fallback: a run is an identifier exactly when it is no float literal (hence no integer) and no boolean. */
  lemma IdentifierFallback(text: string)
    ensures LiteralToken(text).Identifier? <==> !IsFloatLiteral(text) && text != "true" && text != "false"
    ensures LiteralToken(text).Identifier? ==> LiteralToken(text) == Token.Identifier(text)
  {
    if ParseInt(text).Some? {
      IntLiteralIsFloatLiteral(text);
    }
  }

  // ---------------------------------------------------------------------
  // Where the entries of `str_to_tokens` come from
  // ---------------------------------------------------------------------

  /** Every entry other than a run is the classification of one input character. */
  lemma {:induction false} EntryFromChar(s: string, isWhitespace: char -> bool, i: nat)
    requires i < |StrToTokens(s, isWhitespace)|
    requires !StrToTokens(s, isWhitespace)[i].Literal?
    ensures exists j :: 0 <= j < |s| && StrToTokens(s, isWhitespace)[i] == CharToPartialToken(s[j], isWhitespace)
    decreases |s|
  {
    var prefix := StrToTokens(s[..|s| - 1], isWhitespace);
    var p := CharToPartialToken(s[|s| - 1], isWhitespace);
    var ps := StrToTokens(s, isWhitespace);
    assert ps == Push(prefix, p);
    if i < |prefix| && ps[i] == prefix[i] {
      EntryFromChar(s[..|s| - 1], isWhitespace, i);
      var j :| 0 <= j < |s| - 1 && prefix[i] == CharToPartialToken(s[..|s| - 1][j], isWhitespace);
      assert s[..|s| - 1][j] == s[j];
    } else {
      assert ps[i] == p;
    }
  }

  /** `tokenize` fails only on `=`, `&` or `|`: a text without them always tokenizes. */
  lemma TokenizeSucceedsWithoutUnmatchable(s: string, isWhitespace: char -> bool)
    requires forall i :: 0 <= i < |s| ==> s[i] !in {'=', '&', '|'}
    ensures Tokenize(s, isWhitespace).Ok?
  {
    var ps := StrToTokens(s, isWhitespace);
    forall i | 0 <= i < |ps|
      ensures !NeedsPartner(ps[i])
    {
      if !ps[i].Literal? {
        EntryFromChar(s, isWhitespace, i);
        var j :| 0 <= j < |s| && ps[i] == CharToPartialToken(s[j], isWhitespace);
        NeedsPartnerFrom(s[j], isWhitespace);
      }
    }
    SucceedsWithoutUnmatchable(ps);
    assert Tokenize(s, isWhitespace) == ResolveLiterals(ps);
  }

  /** A failure names a `=`, `&` or `|` of the text and the entry that followed it, if any. */
  lemma ErrorFromChar(s: string, isWhitespace: char -> bool)
    requires Tokenize(s, isWhitespace).Err?
    ensures exists j :: 0 <= j < |s| && s[j] in {'=', '&', '|'} &&
              Tokenize(s, isWhitespace).error.UnmatchedPartialToken? &&
              Tokenize(s, isWhitespace).error.first == CharToPartialToken(s[j], isWhitespace)
  {
    var ps := StrToTokens(s, isWhitespace);
    assert Tokenize(s, isWhitespace) == ResolveLiterals(ps);
    ErrorLocated(ps);
    var i :| 0 <= i < |ps| && NeedsPartner(ps[i]) && Lookahead(ps[i..]) != Partner(ps[i]) &&
              ResolveLiterals(ps).error == UnmatchedPartialToken(ps[i], Lookahead(ps[i..]));
    EntryFromChar(s, isWhitespace, i);
    var j :| 0 <= j < |s| && ps[i] == CharToPartialToken(s[j], isWhitespace);
    NeedsPartnerFrom(s[j], isWhitespace);
  }

  /** Only `=`, `&` and `|` classify as entries that need a partner. */
  lemma NeedsPartnerFrom(c: char, isWhitespace: char -> bool)
    ensures NeedsPartner(CharToPartialToken(c, isWhitespace)) <==> c in {'=', '&', '|'}
  {
    SymbolRoundTrip(c, isWhitespace);
  }

  /** `Neq` never comes out of `tokenize`: `!=` is read as `Eq`. */
  lemma TokenizeNeverNeq(s: string, isWhitespace: char -> bool)
    requires Tokenize(s, isWhitespace).Ok?
    ensures Token.Neq !in Tokenize(s, isWhitespace).value
  {
    var ps := StrToTokens(s, isWhitespace);
    forall i | 0 <= i < |ps|
      ensures ps[i] != PartialToken.Token(Token.Neq)
    {
      if !ps[i].Literal? {
        EntryFromChar(s, isWhitespace, i);
      }
    }
    NeverNeq(ps);
  }

  // ---------------------------------------------------------------------
  // Single-character tokens, whitespace included, are never dropped
  // ---------------------------------------------------------------------

  /** The classification of every character of `s`, before merging. */
  function ClassifyAll(s: string, isWhitespace: char -> bool): (r: seq<PartialToken>)
    ensures |r| == |s|
  {
    if s == [] then []
    else ClassifyAll(s[..|s| - 1], isWhitespace) + [CharToPartialToken(s[|s| - 1], isWhitespace)]
  }

  lemma {:induction false} NonLiteralsCount(ps: seq<PartialToken>, p: PartialToken)
    requires !p.Literal?
    ensures multiset(NonLiterals(ps))[p] == multiset(ps)[p]
    decreases |ps|
  {
    if ps != [] {
      NonLiteralsCount(ps[..|ps| - 1], p);
      assert ps == ps[..|ps| - 1] + [ps[|ps| - 1]];
    }
  }

  lemma {:induction false} NonLiteralEntriesCount(s: string, isWhitespace: char -> bool, p: PartialToken)
    requires !p.Literal?
    ensures multiset(NonLiteralEntries(s, isWhitespace))[p] == multiset(ClassifyAll(s, isWhitespace))[p]
    decreases |s|
  {
    if s != [] {
      NonLiteralEntriesCount(s[..|s| - 1], isWhitespace, p);
    }
  }

  /**
    `tokenize` emits each operator, brace and whitespace token once per
    input character classified as that token.
   */
  lemma KeepsSingleCharTokens(s: string, isWhitespace: char -> bool, t: Token)
    requires IsSingleCharToken(t)
    requires Tokenize(s, isWhitespace).Ok?
    ensures multiset(Tokenize(s, isWhitespace).value)[t] ==
              multiset(ClassifyAll(s, isWhitespace))[PartialToken.Token(t)]
  {
    var ps := StrToTokens(s, isWhitespace);
    StrToTokensFaithful(s, isWhitespace);
    SingleCharTokensKept(ps, t);
    NonLiteralsCount(ps, PartialToken.Token(t));
    NonLiteralEntriesCount(s, isWhitespace, PartialToken.Token(t));
  }

  /** In particular one `Whitespace` token per whitespace character: the tokenizer drops none. */
  lemma KeepsWhitespace(s: string, isWhitespace: char -> bool)
    requires Tokenize(s, isWhitespace).Ok?
    ensures multiset(Tokenize(s, isWhitespace).value)[Token.Whitespace] ==
              |set i | 0 <= i < |s| && ClassifyAll(s, isWhitespace)[i] == PartialToken.Token(Token.Whitespace)|
  {
    KeepsSingleCharTokens(s, isWhitespace, Token.Whitespace);
    CountAsSet(ClassifyAll(s, isWhitespace), PartialToken.Token(Token.Whitespace));
  }

  lemma {:induction false} CountAsSet(ps: seq<PartialToken>, p: PartialToken)
    ensures multiset(ps)[p] == |set i | 0 <= i < |ps| && ps[i] == p|
    decreases |ps|
  {
    if ps != [] {
      var init := ps[..|ps| - 1];
      CountAsSet(init, p);
      assert ps == init + [ps[|ps| - 1]];
      var before := set i | 0 <= i < |init| && init[i] == p;
      var all := set i | 0 <= i < |ps| && ps[i] == p;
      if ps[|ps| - 1] == p {
        assert all == before + {|ps| - 1};
      } else {
        assert all == before;
      }
    }
  }

  // ---------------------------------------------------------------------
  // Composition: tokenizing around a separator
  // ---------------------------------------------------------------------

  lemma PushAfterNonLiteral(p: seq<PartialToken>, q: seq<PartialToken>, x: PartialToken)
    requires |p| > 0 && !p[|p| - 1].Literal?
    ensures Push(p + q, x) == p + Push(q, x)
  {
    if q == [] {
      assert p + q == p;
    } else {
      assert (p + q)[..|p + q| - 1] == p + q[..|q| - 1];
    }
  }

  /** One more character: the merge loop's step. */
  lemma StrToTokensSnoc(x: string, d: char, isWhitespace: char -> bool)
    ensures StrToTokens(x + [d], isWhitespace) ==
              Push(StrToTokens(x, isWhitespace), CharToPartialToken(d, isWhitespace))
  {
    assert (x + [d])[..|x|] == x;
  }

  /** A text of literal characters only merges into one run: digits followed by letters are never split. */
  lemma {:induction false} LiteralRunMerges(s: string, isWhitespace: char -> bool)
    requires |s| > 0
    requires forall i :: 0 <= i < |s| ==> IsLiteralChar(s[i], isWhitespace)
    ensures StrToTokens(s, isWhitespace) == [PartialToken.Literal(s)]
    decreases |s|
  {
    var init := s[..|s| - 1];
    var last := s[|s| - 1];
    assert s == init + [last];
    StrToTokensSnoc(init, last, isWhitespace);
    if init != [] {
      LiteralRunMerges(init, isWhitespace);
    }
  }

  /** Merging never crosses a non-literal character: the text splits there. */
  lemma {:induction false} StrToTokensSplit(a: string, c: char, b: string, isWhitespace: char -> bool)
    requires !IsLiteralChar(c, isWhitespace)
    ensures StrToTokens(a + [c] + b, isWhitespace) ==
              StrToTokens(a, isWhitespace) + [CharToPartialToken(c, isWhitespace)] + StrToTokens(b, isWhitespace)
    decreases |b|
  {
    var P := StrToTokens(a, isWhitespace);
    var C := CharToPartialToken(c, isWhitespace);
    if b == [] {
      assert a + [c] + b == a + [c];
      StrToTokensSnoc(a, c, isWhitespace);
    } else {
      var b' := b[..|b| - 1];
      var d := b[|b| - 1];
      var D := CharToPartialToken(d, isWhitespace);
      assert b == b' + [d];
      assert a + [c] + b == (a + [c] + b') + [d];
      StrToTokensSnoc(a + [c] + b', d, isWhitespace);
      StrToTokensSplit(a, c, b', isWhitespace);
      var T := StrToTokens(b', isWhitespace);
      PushAfterNonLiteral(P + [C], T, D);
      StrToTokensSnoc(b', d, isWhitespace);
    }
  }

  /** A resolved entry isolates what comes before it: the resolver needs no lookahead across it. */
  lemma {:induction false} ResolveSplit(p: seq<PartialToken>, t: Token, q: seq<PartialToken>)
    requires ResolveLiterals(p).Ok?
    ensures ResolveLiterals(p + [PartialToken.Token(t)] + q) ==
              Prepend(ResolveLiterals(p).value + [t], ResolveLiterals(q))
    decreases |p|
  {
    var s := p + [PartialToken.Token(t)] + q;
    if p == [] {
      assert s == [PartialToken.Token(t)] + q;
      PassThrough(PartialToken.Token(t), q);
      assert ResolveLiterals(p).value + [t] == [t];
    } else {
      var step := ResolveStep(p).value;
      assert ResolveStep(s) == ResolveStep(p);
      var c := step.consumed;
      assert s[c..] == p[c..] + [PartialToken.Token(t)] + q;
      ResolveSplit(p[c..], t, q);
      PrependPrepend([step.token], ResolveLiterals(p[c..]).value + [t], ResolveLiterals(q));
      assert [step.token] + (ResolveLiterals(p[c..]).value + [t]) == ResolveLiterals(p).value + [t];
    }
  }

  /**
    Two texts that tokenize on their own, joined by any character that is a
    token by itself, tokenize to their tokens joined by that token.
   */
  lemma TokenizeAroundSeparator(a: string, c: char, b: string, isWhitespace: char -> bool)
    requires CharToPartialToken(c, isWhitespace).Token?
    requires Tokenize(a, isWhitespace).Ok? && Tokenize(b, isWhitespace).Ok?
    ensures Tokenize(a + [c] + b, isWhitespace) ==
              Ok(Tokenize(a, isWhitespace).value + [CharToPartialToken(c, isWhitespace).token] +
                 Tokenize(b, isWhitespace).value)
  {
    StrToTokensSplit(a, c, b, isWhitespace);
    ResolveSplit(StrToTokens(a, isWhitespace), CharToPartialToken(c, isWhitespace).token, StrToTokens(b, isWhitespace));
  }

  /** Tokenizing two valid texts joined by a space gives their tokens joined by one `Whitespace`. */
  lemma TokenizeConcat(a: string, b: string, isWhitespace: char -> bool)
    requires isWhitespace(' ')
    requires Tokenize(a, isWhitespace).Ok? && Tokenize(b, isWhitespace).Ok?
    ensures Tokenize(a + [' '] + b, isWhitespace) ==
              Ok(Tokenize(a, isWhitespace).value + [Token.Whitespace] + Tokenize(b, isWhitespace).value)
  {
    TokenizeAroundSeparator(a, ' ', b, isWhitespace);
  }
}
