/**
  The two-phase tokenizer of `src/token/mod.rs`: characters are classified and
  adjacent literal characters merged into runs (`str_to_tokens`), then the
  runs and the lookahead characters are resolved into final tokens with one
  entry of lookahead (`resolve_literals`). `tokenize` is their composition.
 */
module Tokenizer {
  import opened Results
  import opened Values
  import opened Tokens
  import opened Literals
  import opened Errors

  // ---------------------------------------------------------------------
  // Literal runs
  // ---------------------------------------------------------------------

  /** The token a literal run resolves to: an integer, else a float, else a boolean, else an identifier. */
  function LiteralToken(text: string): (t: Token)
    ensures IsValue(t) && !t.RBrace?
    ensures t.Int? ==> ParseInt(text) == Some(t.i)
    ensures t.Float? ==> ParseInt(text) == None && IsFloatLiteral(text) && t.f == FloatValue(text)
    ensures t.Boolean? ==> !IsFloatLiteral(text) && BoolString(t.b) == text
    ensures t.Identifier? ==> !IsFloatLiteral(text) && ParseBool(text) == None && t.name == text
  {
    match ParseInt(text)
    case Some(n) => Token.Int(n)
    case None =>
      match ParseFloat(text)
      case Some(f) => Token.Float(f)
      case None =>
        match ParseBool(text)
        case Some(b) => Token.Boolean(b)
        case None => Token.Identifier(text)
  }

  // ---------------------------------------------------------------------
  // Phase 1: classification and literal merging (`str_to_tokens`)
  // ---------------------------------------------------------------------

  /** A run the merger can produce: non-empty, literal characters only. */
  predicate IsLiteralRun(text: string, isWhitespace: char -> bool)
  {
    |text| > 0 && forall i :: 0 <= i < |text| ==> IsLiteralChar(text[i], isWhitespace)
  }

  /** Every literal entry is a literal run, and no two literal entries are adjacent. */
  predicate WellMerged(ps: seq<PartialToken>, isWhitespace: char -> bool)
  {
    && (forall i :: 0 <= i < |ps| && ps[i].Literal? ==> IsLiteralRun(ps[i].text, isWhitespace))
    && (forall i :: 0 < i < |ps| && ps[i].Literal? ==> !ps[i - 1].Literal?)
  }

  /** The payloads of the literal entries, concatenated in order. */
  function LiteralText(ps: seq<PartialToken>): (text: string)
  {
    if ps == [] then []
    else LiteralText(ps[..|ps| - 1]) + (if ps[|ps| - 1].Literal? then ps[|ps| - 1].text else [])
  }

  /** The entries that are not literal runs, in order. */
  function NonLiterals(ps: seq<PartialToken>): (r: seq<PartialToken>)
  {
    if ps == [] then []
    else NonLiterals(ps[..|ps| - 1]) + (if ps[|ps| - 1].Literal? then [] else [ps[|ps| - 1]])
  }

  /** The literal-class characters of `s`, in order. */
  function LiteralChars(s: string, isWhitespace: char -> bool): (r: string)
  {
    if s == [] then []
    else LiteralChars(s[..|s| - 1], isWhitespace) +
         (if IsLiteralChar(s[|s| - 1], isWhitespace) then [s[|s| - 1]] else [])
  }

  /** The classifications of the other characters of `s`, in order. */
  function NonLiteralEntries(s: string, isWhitespace: char -> bool): (r: seq<PartialToken>)
  {
    if s == [] then []
    else NonLiteralEntries(s[..|s| - 1], isWhitespace) +
         (if IsLiteralChar(s[|s| - 1], isWhitespace) then []
          else [CharToPartialToken(s[|s| - 1], isWhitespace)])
  }

  /** One iteration of the merge loop: extend a trailing literal run, or append. */
  function Push(acc: seq<PartialToken>, p: PartialToken): (r: seq<PartialToken>)
    ensures |r| <= |acc| + 1
    ensures LiteralText(r) == LiteralText(acc) + (if p.Literal? then p.text else [])
    ensures NonLiterals(r) == NonLiterals(acc) + (if p.Literal? then [] else [p])
  {
    if |acc| > 0 && acc[|acc| - 1].Literal? && p.Literal? then
      var r := acc[..|acc| - 1] + [PartialToken.Literal(acc[|acc| - 1].text + p.text)];
      assert r[..|r| - 1] == acc[..|acc| - 1];
      r
    else
      var r := acc + [p];
      assert r[..|r| - 1] == acc;
      r
  }

  lemma PushKeepsWellMerged(acc: seq<PartialToken>, p: PartialToken, isWhitespace: char -> bool)
    requires WellMerged(acc, isWhitespace)
    requires p.Literal? ==> IsLiteralRun(p.text, isWhitespace)
    ensures WellMerged(Push(acc, p), isWhitespace)
  {
    var r := Push(acc, p);
    if |acc| > 0 && acc[|acc| - 1].Literal? && p.Literal? {
      var t := acc[|acc| - 1].text + p.text;
      assert r[|r| - 1] == PartialToken.Literal(t);
      assert IsLiteralRun(acc[|acc| - 1].text, isWhitespace);
      forall i | 0 <= i < |t|
        ensures IsLiteralChar(t[i], isWhitespace)
      {
        if i >= |acc[|acc| - 1].text| {
          assert t[i] == p.text[i - |acc[|acc| - 1].text|];
        }
      }
    }
  }

  /**
    `str_to_tokens`: classify every character and merge adjacent literal
    entries. Defined on the prefix, as the source's loop builds it.
   */
  function StrToTokens(s: string, isWhitespace: char -> bool): (r: seq<PartialToken>)
    ensures |r| <= |s|
    decreases |s|
  {
    if s == [] then []
    else Push(StrToTokens(s[..|s| - 1], isWhitespace), CharToPartialToken(s[|s| - 1], isWhitespace))
  }

  /**
    What `str_to_tokens` keeps: runs are merged and clean, the runs spell out
    the input's literal characters in order, and every other character gives
    exactly one entry, in order.
   */
  lemma {:induction false} StrToTokensFaithful(s: string, isWhitespace: char -> bool)
    ensures WellMerged(StrToTokens(s, isWhitespace), isWhitespace)
    ensures LiteralText(StrToTokens(s, isWhitespace)) == LiteralChars(s, isWhitespace)
    ensures NonLiterals(StrToTokens(s, isWhitespace)) == NonLiteralEntries(s, isWhitespace)
    decreases |s|
  {
    if s != [] {
      var prefix := StrToTokens(s[..|s| - 1], isWhitespace);
      var p := CharToPartialToken(s[|s| - 1], isWhitespace);
      StrToTokensFaithful(s[..|s| - 1], isWhitespace);
      PushKeepsWellMerged(prefix, p, isWhitespace);
    }
  }

  /** `str_to_tokens` as the source writes it: a loop that grows the last literal in place. */
  method StrToTokensLoop(s: string, isWhitespace: char -> bool) returns (result: seq<PartialToken>)
    ensures result == StrToTokens(s, isWhitespace)
  {
    result := [];
    for i := 0 to |s|
      invariant result == StrToTokens(s[..i], isWhitespace)
    {
      var partial := CharToPartialToken(s[i], isWhitespace);
      assert s[..i + 1][..i] == s[..i];
      if |result| > 0 && result[|result| - 1].Literal? && partial.Literal? {
        result := result[..|result| - 1] + [PartialToken.Literal(result[|result| - 1].text + partial.text)];
      } else {
        result := result + [partial];
      }
    }
    assert s[..|s|] == s;
  }

  // ---------------------------------------------------------------------
  // Phase 2: resolution with one entry of lookahead (`resolve_literals`)
  // ---------------------------------------------------------------------

  /** The entry that completes `p` into a two-character operator, if `p` takes one. */
  function Partner(p: PartialToken): (q: Option<PartialToken>)
  {
    match p
    case Eq => Some(PartialToken.Eq)
    case ExclamationMark => Some(PartialToken.Eq)
    case Gt => Some(PartialToken.Eq)
    case Lt => Some(PartialToken.Eq)
    case Ampersand => Some(PartialToken.Ampersand)
    case VerticalBar => Some(PartialToken.VerticalBar)
    case _ => None
  }

  /** The lookahead entries with no one-character reading: `=`, `&` and `|`. */
  predicate NeedsPartner(p: PartialToken)
  {
    p.Eq? || p.Ampersand? || p.VerticalBar?
  }

  /** The entry after the first one, `tokens.get(1)`. */
  function Lookahead(ps: seq<PartialToken>): (next: Option<PartialToken>)
  {
    if |ps| > 1 then Some(ps[1]) else None
  }

  /** The tokens only the lookahead rules produce. */
  predicate FromLookahead(t: Token)
  {
    t in {Token.Eq, Token.Not, Token.Gt, Token.Geq, Token.Lt, Token.Leq, Token.And, Token.Or}
  }

  /** The token emitted by one iteration of the resolver and the number of entries it consumed. */
  datatype Step = Step(token: Token, consumed: nat)

  /** One iteration of `resolve_literals` on a non-empty remainder. */
  function ResolveStep(ps: seq<PartialToken>): (r: EvalexprResult<Step>)
    requires |ps| > 0
    ensures r.Err? <==> NeedsPartner(ps[0]) && Lookahead(ps) != Partner(ps[0])
    ensures r.Err? ==> r.error == UnmatchedPartialToken(ps[0], Lookahead(ps))
    ensures r.Ok? ==> 1 <= r.value.consumed <= 2 && r.value.consumed <= |ps|
    ensures r.Ok? ==> (r.value.consumed == 2 <==> Partner(ps[0]).Some? && Lookahead(ps) == Partner(ps[0]))
    ensures r.Ok? && ps[0].Token? ==> r.value.token == ps[0].token
    ensures r.Ok? && ps[0].Literal? ==> r.value.token == LiteralToken(ps[0].text)
    ensures r.Ok? && IsLookahead(ps[0]) ==> FromLookahead(r.value.token)
  {
    var first := ps[0];
    var second := Lookahead(ps);
    match first
    case Token(token) => Ok(Step(token, 1))
    case Literal(text) => Ok(Step(LiteralToken(text), 1))
    case Eq =>
      (match second
       case Some(Eq) => Ok(Step(Token.Eq, 2))
       case _ => Err(UnmatchedPartialToken(first, second)))
    case ExclamationMark =>
      (match second
       case Some(Eq) => Ok(Step(Token.Eq, 2))
       case _ => Ok(Step(Token.Not, 1)))
    case Gt =>
      (match second
       case Some(Eq) => Ok(Step(Token.Geq, 2))
       case _ => Ok(Step(Token.Gt, 1)))
    case Lt =>
      (match second
       case Some(Eq) => Ok(Step(Token.Leq, 2))
       case _ => Ok(Step(Token.Lt, 1)))
    case Ampersand =>
      (match second
       case Some(Ampersand) => Ok(Step(Token.And, 2))
       case _ => Err(UnmatchedPartialToken(first, second)))
    case VerticalBar =>
      (match second
       case Some(VerticalBar) => Ok(Step(Token.Or, 2))
       case _ => Err(UnmatchedPartialToken(first, second)))
  }

  /** `xs` in front of a successful result; errors pass through. */
  function Prepend(xs: seq<Token>, r: EvalexprResult<seq<Token>>): (result: EvalexprResult<seq<Token>>)
  {
    match r
    case Ok(ts) => Ok(xs + ts)
    case Err(e) => Err(e)
  }

  lemma PrependPrepend(xs: seq<Token>, ys: seq<Token>, r: EvalexprResult<seq<Token>>)
    ensures Prepend(xs, Prepend(ys, r)) == Prepend(xs + ys, r)
  {
    if r.Ok? {
      assert xs + (ys + r.value) == (xs + ys) + r.value;
    }
  }

  /** `resolve_literals`: resolve every entry, stopping at the first unmatched one. */
  function ResolveLiterals(ps: seq<PartialToken>): (r: EvalexprResult<seq<Token>>)
    ensures r.Ok? ==> |r.value| <= |ps| <= 2 * |r.value|
    ensures r.Err? ==> r.error.UnmatchedPartialToken? && NeedsPartner(r.error.first)
    decreases |ps|
  {
    if |ps| == 0 then Ok([])
    else
      match ResolveStep(ps)
      case Err(e) => Err(e)
      case Ok(step) => Prepend([step.token], ResolveLiterals(ps[step.consumed..]))
  }

  /** `resolve_literals` as the source writes it: a loop over a shrinking slice. */
  method ResolveLiteralsLoop(tokens: seq<PartialToken>) returns (r: EvalexprResult<seq<Token>>)
    ensures r == ResolveLiterals(tokens)
  {
    var rest := tokens;
    var result: seq<Token> := [];
    assert ResolveLiterals(tokens).Ok? ==> [] + ResolveLiterals(tokens).value == ResolveLiterals(tokens).value;
    while |rest| > 0
      invariant ResolveLiterals(tokens) == Prepend(result, ResolveLiterals(rest))
      decreases |rest|
    {
      var step := ResolveStep(rest);
      if step.Err? {
        return Err(step.error);
      }
      PrependPrepend(result, [step.value.token], ResolveLiterals(rest[step.value.consumed..]));
      result := result + [step.value.token];
      rest := rest[step.value.consumed..];
    }
    assert result + [] == result;
    return Ok(result);
  }

  /** `tokenize`: the single entry point. */
  function Tokenize(s: string, isWhitespace: char -> bool): (r: EvalexprResult<seq<Token>>)
    ensures r.Ok? ==> |r.value| <= |s|
  {
    ResolveLiterals(StrToTokens(s, isWhitespace))
  }
}
