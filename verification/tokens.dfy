/**
  Tokens of the expression language and the per-character classifier
  (`src/token/mod.rs`). The classifier takes the host's whitespace test as a
  parameter, `isWhitespace`, so that nothing here depends on the Unicode
  `White_Space` table.
 */
module Tokens {
  import opened Results
  import opened Values

  /** A finished lexical unit. */
  datatype Token =
    // arithmetic
    | Plus | Minus | Star | Slash | Percent
    // logic
    | Eq | Neq | Gt | Lt | Geq | Leq | And | Or | Not
    // precedence
    | LBrace | RBrace | Whitespace
    // complex tokens
    | Identifier(name: string)
    | Float(f: FloatValue)
    | Int(i: int)
    | Boolean(b: bool)

  /** A provisional token: resolved already, a literal run, or one of the six characters that need lookahead. */
  datatype PartialToken =
    | Token(token: Token)
    | Literal(text: string)
    | Eq
    | ExclamationMark
    | Gt
    | Lt
    | Ampersand
    | VerticalBar

  /** `Token::is_value`: the tokens that can end a value expression. */
  predicate IsValue(t: Token)
    ensures IsValue(t) <==> t.RBrace? || t.Identifier? || t.Float? || t.Int? || t.Boolean?
  {
    match t
    case Plus => false
    case Minus => false
    case Star => false
    case Slash => false
    case Percent => false
    case Eq => false
    case Neq => false
    case Gt => false
    case Lt => false
    case Geq => false
    case Leq => false
    case And => false
    case Or => false
    case Not => false
    case LBrace => false
    case RBrace => true
    case Whitespace => false
    case Identifier(_) => true
    case Float(_) => true
    case Int(_) => true
    case Boolean(_) => true
  }

  /** Characters that are tokens by themselves. */
  const SingleCharTokens: set<char> := {'+', '-', '*', '/', '%', '(', ')'}

  /** Characters that need one entry of lookahead to become a token. */
  const LookaheadChars: set<char> := {'=', '!', '>', '<', '&', '|'}

  /** A character that is kept in a literal run: no operator, no brace, no whitespace. */
  predicate IsLiteralChar(c: char, isWhitespace: char -> bool)
  {
    c !in SingleCharTokens && c !in LookaheadChars && !isWhitespace(c)
  }

  /** The tokens a single character can stand for directly. */
  predicate IsSingleCharToken(t: Token)
  {
    t in {Token.Plus, Token.Minus, Token.Star, Token.Slash, Token.Percent,
          Token.LBrace, Token.RBrace, Token.Whitespace}
  }

  /** An entry that the resolver can only complete with a second entry. */
  predicate IsLookahead(p: PartialToken)
  {
    p.Eq? || p.ExclamationMark? || p.Gt? || p.Lt? || p.Ampersand? || p.VerticalBar?
  }

  /** `char_to_partial_token`: classify one character, without looking at its neighbours. */
  function CharToPartialToken(c: char, isWhitespace: char -> bool): (p: PartialToken)
    ensures p.Literal? <==> IsLiteralChar(c, isWhitespace)
    ensures p.Literal? ==> p.text == [c]
    ensures p.Token? ==> IsSingleCharToken(p.token)
    ensures IsLookahead(p) <==> c in LookaheadChars
    ensures c !in SingleCharTokens && c !in LookaheadChars && isWhitespace(c) ==>
              p == PartialToken.Token(Token.Whitespace)
  {
    match c
    case '+' => PartialToken.Token(Token.Plus)
    case '-' => PartialToken.Token(Token.Minus)
    case '*' => PartialToken.Token(Token.Star)
    case '/' => PartialToken.Token(Token.Slash)
    case '%' => PartialToken.Token(Token.Percent)
    case '=' => PartialToken.Eq
    case '!' => PartialToken.ExclamationMark
    case '>' => PartialToken.Gt
    case '<' => PartialToken.Lt
    case '&' => PartialToken.Ampersand
    case '|' => PartialToken.VerticalBar
    case '(' => PartialToken.Token(Token.LBrace)
    case ')' => PartialToken.Token(Token.RBrace)
    case _ =>
      if isWhitespace(c) then PartialToken.Token(Token.Whitespace)
      else PartialToken.Literal([c])
  }

  /** The character an operator or brace entry was classified from; whitespace and literals have none. */
  function Symbol(p: PartialToken): (c: Option<char>)
  {
    match p
    case Token(Plus) => Some('+')
    case Token(Minus) => Some('-')
    case Token(Star) => Some('*')
    case Token(Slash) => Some('/')
    case Token(Percent) => Some('%')
    case Token(LBrace) => Some('(')
    case Token(RBrace) => Some(')')
    case Token(_) => None
    case Literal(_) => None
    case Eq => Some('=')
    case ExclamationMark => Some('!')
    case Gt => Some('>')
    case Lt => Some('<')
    case Ampersand => Some('&')
    case VerticalBar => Some('|')
  }

  /** Operator and brace characters are classified without loss: their symbol is recovered exactly. */
  lemma SymbolRoundTrip(c: char, isWhitespace: char -> bool)
    ensures c in SingleCharTokens || c in LookaheadChars <==>
              Symbol(CharToPartialToken(c, isWhitespace)) == Some(c)
  {
  }

  /** Different operator or brace characters never share a partial token. */
  lemma ClassifierInjectiveOnOperators(c: char, d: char, isWhitespace: char -> bool)
    requires c in SingleCharTokens + LookaheadChars
    requires d in SingleCharTokens + LookaheadChars
    requires CharToPartialToken(c, isWhitespace) == CharToPartialToken(d, isWhitespace)
    ensures c == d
  {
    SymbolRoundTrip(c, isWhitespace);
    SymbolRoundTrip(d, isWhitespace);
  }
}
