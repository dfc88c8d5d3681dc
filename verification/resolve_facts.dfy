/** Properties of the resolver, `resolve_literals` (`src/token/mod.rs`). */
module ResolveFacts {
  import opened Results
  import opened Tokens
  import opened Errors
  import opened Tokenizer

  /** The token a lookahead entry and its partner stand for together. */
  function PairToken(p: PartialToken): (t: Token)
    requires Partner(p).Some?
    ensures FromLookahead(t) && t != Token.Neq
  {
    match p
    case Eq => Token.Eq
    case ExclamationMark => Token.Eq
    case Gt => Token.Geq
    case Lt => Token.Leq
    case Ampersand => Token.And
    case VerticalBar => Token.Or
  }

  /**
    A lookahead entry followed by its partner becomes one token and consumes
    both entries: `==` and `!=` give `Eq`, `>=` gives `Geq`, `<=` gives `Leq`,
    `&&` gives `And`, `||` gives `Or`.
   */
  lemma PairResolves(p: PartialToken, rest: seq<PartialToken>)
    requires Partner(p).Some?
    ensures ResolveLiterals([p, Partner(p).value] + rest) == Prepend([PairToken(p)], ResolveLiterals(rest))
  {
    assert ([p, Partner(p).value] + rest)[2..] == rest;
  }

  /** The token `!`, `>` or `<` stands for when no `=` follows it. */
  function AloneToken(p: PartialToken): (t: Token)
    requires p.ExclamationMark? || p.Gt? || p.Lt?
  {
    match p
    case ExclamationMark => Token.Not
    case Gt => Token.Gt
    case Lt => Token.Lt
  }

  /** Without a `=` next, `!`, `>` and `<` never fail: they stand alone and consume one entry. */
  lemma StandsAlone(p: PartialToken, rest: seq<PartialToken>)
    requires p.ExclamationMark? || p.Gt? || p.Lt?
    requires Lookahead([p] + rest) != Some(PartialToken.Eq)
    ensures ResolveLiterals([p] + rest) == Prepend([AloneToken(p)], ResolveLiterals(rest))
  {
    assert ([p] + rest)[1..] == rest;
  }

  /** Without its partner next, `=`, `&` or `|` fails, naming itself and the entry that followed, if any. */
  lemma FailsAlone(p: PartialToken, rest: seq<PartialToken>)
    requires NeedsPartner(p)
    requires Lookahead([p] + rest) != Partner(p)
    ensures ResolveLiterals([p] + rest) ==
              Err(UnmatchedPartialToken(p, if rest == [] then None else Some(rest[0])))
  {
  }

  /** Resolved entries pass through unchanged and literal runs resolve alone, each consuming one entry. */
  lemma PassThrough(p: PartialToken, rest: seq<PartialToken>)
    ensures p.Token? ==> ResolveLiterals([p] + rest) == Prepend([p.token], ResolveLiterals(rest))
    ensures p.Literal? ==> ResolveLiterals([p] + rest) == Prepend([LiteralToken(p.text)], ResolveLiterals(rest))
  {
    assert ([p] + rest)[1..] == rest;
  }

  /**
    A failure names the entry that stopped the resolver and the entry after
    it, or `None` exactly when the failing entry was the last one.
   */
  lemma {:induction false} ErrorLocated(ps: seq<PartialToken>)
    requires ResolveLiterals(ps).Err?
    ensures exists i :: 0 <= i < |ps| && NeedsPartner(ps[i]) && Lookahead(ps[i..]) != Partner(ps[i]) &&
              ResolveLiterals(ps).error == UnmatchedPartialToken(ps[i], Lookahead(ps[i..]))
    ensures ResolveLiterals(ps).error.second == None ==> ResolveLiterals(ps).error.first == ps[|ps| - 1]
    decreases |ps|
  {
    var step := ResolveStep(ps);
    if step.Err? {
      assert ps[0..] == ps;
      if step.error.second == None {
        assert |ps| == 1;
      }
    } else {
      var c := step.value.consumed;
      var tail := ps[c..];
      ErrorLocated(tail);
      var i :| 0 <= i < |tail| && NeedsPartner(tail[i]) && Lookahead(tail[i..]) != Partner(tail[i]) &&
                ResolveLiterals(tail).error == UnmatchedPartialToken(tail[i], Lookahead(tail[i..]));
      assert ps[c + i] == tail[i];
      assert ps[c + i..] == tail[i..];
      assert ps[|ps| - 1] == tail[|tail| - 1];
    }
  }

  /** The resolver fails only on `=`, `&` or `|`: a sequence without them always resolves. */
  lemma {:induction false} SucceedsWithoutUnmatchable(ps: seq<PartialToken>)
    requires forall i :: 0 <= i < |ps| ==> !NeedsPartner(ps[i])
    ensures ResolveLiterals(ps).Ok?
    decreases |ps|
  {
    if |ps| > 0 {
      var step := ResolveStep(ps);
      assert !NeedsPartner(ps[0]);
      var tail := ps[step.value.consumed..];
      assert forall i :: 0 <= i < |tail| ==> tail[i] == ps[step.value.consumed + i];
      SucceedsWithoutUnmatchable(tail);
    }
  }

  /** `Neq` is never produced: it comes out only if a resolved `Neq` went in. */
  lemma {:induction false} NeverNeq(ps: seq<PartialToken>)
    requires forall i :: 0 <= i < |ps| ==> ps[i] != PartialToken.Token(Token.Neq)
    requires ResolveLiterals(ps).Ok?
    ensures Token.Neq !in ResolveLiterals(ps).value
    decreases |ps|
  {
    if |ps| > 0 {
      var step := ResolveStep(ps);
      var tail := ps[step.value.consumed..];
      assert forall i :: 0 <= i < |tail| ==> tail[i] == ps[step.value.consumed + i];
      NeverNeq(tail);
    }
  }

  /** The tokens that `keep` selects, in order. */
  function Filter(ts: seq<Token>, keep: Token -> bool): (r: seq<Token>)
    ensures |r| <= |ts|
  {
    if ts == [] then [] else (if keep(ts[0]) then [ts[0]] else []) + Filter(ts[1..], keep)
  }

  /** What one entry contributes outside the lookahead rules: a resolved token as it is, a run as its literal token. */
  function EntryImage(p: PartialToken): (ts: seq<Token>)
  {
    match p
    case Token(t) => [t]
    case Literal(text) => [LiteralToken(text)]
    case _ => []
  }

  /** The entries' contributions, in order. */
  function Image(ps: seq<PartialToken>): (ts: seq<Token>)
  {
    if ps == [] then [] else EntryImage(ps[0]) + Image(ps[1..])
  }

  /**
    Apart from the operators the lookahead rules produce, the output is the
    input entry by entry: resolved tokens unchanged, runs as their literal
    token, in order.
   */
  lemma {:induction false} KeepsUnambiguous(ps: seq<PartialToken>, keep: Token -> bool)
    requires forall t :: keep(t) ==> !FromLookahead(t)
    requires ResolveLiterals(ps).Ok?
    ensures Filter(ResolveLiterals(ps).value, keep) == Filter(Image(ps), keep)
    decreases |ps|
  {
    if |ps| > 0 {
      var step := ResolveStep(ps).value;
      var tail := ps[step.consumed..];
      KeepsUnambiguous(tail, keep);
      var ts := ResolveLiterals(ps).value;
      assert ts == [step.token] + ResolveLiterals(tail).value;
      assert Filter(ts, keep) == (if keep(step.token) then [step.token] else []) + Filter(ResolveLiterals(tail).value, keep) by {
        assert ts[0] == step.token;
        assert ts[1..] == ResolveLiterals(tail).value;
      }
      assert Image(ps) == EntryImage(ps[0]) + Image(ps[1..]);
      if step.consumed == 2 {
        assert EntryImage(ps[0]) == [] && EntryImage(ps[1]) == [];
        assert ps[1..][1..] == tail;
        assert Image(ps[1..]) == Image(tail);
        assert Image(ps) == Image(tail);
        assert !keep(step.token);
        assert Filter(ts, keep) == Filter(ResolveLiterals(tail).value, keep);
      } else {
        assert ps[1..] == tail;
        if IsLookahead(ps[0]) {
          assert EntryImage(ps[0]) == [];
          assert Image(ps) == Image(tail);
          assert !keep(step.token);
          assert Filter(ts, keep) == Filter(ResolveLiterals(tail).value, keep);
        } else {
          assert EntryImage(ps[0]) == [step.token];
          FilterConcat([step.token], Image(tail), keep);
        }
      }
    }
  }

  lemma FilterConcat(xs: seq<Token>, ys: seq<Token>, keep: Token -> bool)
    requires |xs| == 1
    ensures Filter(xs + ys, keep) == (if keep(xs[0]) then xs else []) + Filter(ys, keep)
  {
    assert (xs + ys)[1..] == ys;
  }

  /** The value tokens of the output are the runs' literal tokens and the resolved value tokens, in input order. */
  lemma ValuesFromLiterals(ps: seq<PartialToken>)
    requires ResolveLiterals(ps).Ok?
    ensures Filter(ResolveLiterals(ps).value, IsValue) == Filter(Image(ps), IsValue)
  {
    KeepsUnambiguous(ps, IsValue);
  }

  lemma {:induction false} FilterCount(ts: seq<Token>, keep: Token -> bool, t: Token)
    requires keep(t)
    ensures multiset(Filter(ts, keep))[t] == multiset(ts)[t]
    decreases |ts|
  {
    if ts != [] {
      FilterCount(ts[1..], keep, t);
      assert ts == [ts[0]] + ts[1..];
    }
  }

  lemma EntryImageCount(p: PartialToken, t: Token)
    requires IsSingleCharToken(t)
    ensures multiset(EntryImage(p))[t] == multiset([p])[PartialToken.Token(t)]
  {
    if p.Literal? {
      assert !LiteralToken(p.text).RBrace?;
    }
  }

  lemma {:induction false} ImageCount(ps: seq<PartialToken>, t: Token)
    requires IsSingleCharToken(t)
    ensures multiset(Image(ps))[t] == multiset(ps)[PartialToken.Token(t)]
    decreases |ps|
  {
    if ps != [] {
      ImageCount(ps[1..], t);
      EntryImageCount(ps[0], t);
      assert multiset(Image(ps)) == multiset(EntryImage(ps[0])) + multiset(Image(ps[1..]));
      assert ps == [ps[0]] + ps[1..];
      assert multiset(ps) == multiset([ps[0]]) + multiset(ps[1..]);
    }
  }

  /**
    Every single-character token (operators, braces, whitespace) is emitted
    once for each resolved entry that carried it: none is dropped or added.
   */
  lemma SingleCharTokensKept(ps: seq<PartialToken>, t: Token)
    requires IsSingleCharToken(t)
    requires ResolveLiterals(ps).Ok?
    ensures multiset(ResolveLiterals(ps).value)[t] == multiset(ps)[PartialToken.Token(t)]
  {
    var keep := (u: Token) => u == t;
    KeepsUnambiguous(ps, keep);
    FilterCount(ResolveLiterals(ps).value, keep, t);
    FilterCount(Image(ps), keep, t);
    ImageCount(ps, t);
  }
}
