# evalexpr tokenizer and error model in Dafny

This project models the front end of the `evalexpr` expression crate. It has
two parts.

The first part is the tokenizer of `src/token/mod.rs`, which works in two phases:

- **Classification and merging.** `char_to_partial_token` maps each character
  to a `PartialToken`. `str_to_tokens` merges adjacent literal characters into
  runs.
- **Resolution.** `resolve_literals` reads the partial tokens with one entry of
  lookahead. It turns each run into an integer, a float, a boolean or an
  identifier. It completes `==`, `!=`, `>=`, `<=`, `&&` and `||`. It fails with
  `UnmatchedPartialToken` when a `=`, `&` or `|` has no partner.

`tokenize` is the composition of the two phases.

The second part is the error model of `src/error/mod.rs`:

- the `EvalexprError` enumeration;
- `expected_type`;
- the two argument-count checks;
- the `expect_*` value classifiers.

Rust's `char::is_whitespace` is not modelled. Every tokenizer function takes
the whitespace test as a parameter `isWhitespace: char -> bool`, and every
property holds for any such test. The examples and
`TokenizeFacts.TokenizeConcat` state only what they need of it, such as that a
space is whitespace or that a digit is not.

Modules:

| file | module | contents |
|---|---|---|
| `results.dfy` | `Results` | `Option`, `Result` |
| `values.dfy` | `Values` | `Value`, `ValueType`, `TupleType`, the 64-bit `IntType` bounds, opaque floats |
| `tokens.dfy` | `Tokens` | `Token`, `PartialToken`, `is_value`, `char_to_partial_token` |
| `literals.dfy` | `Literals` | the integer, float and boolean literal grammars a run is tried against |
| `errors.dfy` | `Errors` | `EvalexprError` and the `expect_*` checks |
| `tokenizer.dfy` | `Tokenizer` | `str_to_tokens`, `resolve_literals`, `tokenize` (functions, plus loop methods shaped like the source) |
| `resolve_facts.dfy` | `ResolveFacts` | properties of the resolver |
| `tokenize_facts.dfy` | `TokenizeFacts` | properties of `tokenize` on texts |
| `examples.dfy` | `Examples` | concrete inputs and their tokens |

`!=` resolves to `Eq`, not `Neq` (`src/token/mod.rs:162-163`). The model keeps
this as written. `ExclamationEquals` shows it, and `TokenizeNeverNeq` proves that `Neq`
is never produced.

## Model

| member | source | states |
|---|---|---|
| Tokens.IsValue | src/token/mod.rs:80-107 | true exactly for `RBrace`, `Identifier`, `Float`, `Int` and `Boolean`; false for every operator, `LBrace` and `Whitespace` |
| Tokens.CharToPartialToken | src/token/mod.rs:50-76 | total; a character becomes a run exactly when it is no operator, brace or whitespace, and that run is the character itself; the six characters `= ! > < & \|` and only they become lookahead entries; operators and braces become resolved single-character tokens; whitespace becomes `Whitespace` |
| Tokens.SymbolRoundTrip | src/token/mod.rs:50-76 | an operator or brace character can be read back from its entry, and only those characters can |
| Tokens.ClassifierInjectiveOnOperators | src/token/mod.rs:50-76 | two different operator or brace characters never give the same entry |
| Literals.ParseInt | src/token/mod.rs:148 | an accepted run is an optional sign and digits, and its value lies in the 64-bit range |
| Literals.DecimalStringValue | src/token/mod.rs:148 | the digits of a decimal spelling evaluate back to the number |
| Literals.ParseIntRoundTrip | src/token/mod.rs:148 | every non-negative integer in range is read back from its decimal spelling |
| Literals.ParseIntNegativeRoundTrip | src/token/mod.rs:148 | every negative integer in range is read back from `-` and its magnitude |
| Literals.ParseIntDigits | src/token/mod.rs:148 | a digit string parses as an integer exactly when its value fits 64 bits |
| Literals.ParseIntShape | src/token/mod.rs:148 | whatever parses as an integer is an optional sign followed by one or more digits |
| Literals.DigitsParseAsFloat | src/token/mod.rs:148-151 | every non-empty digit string is a float literal, so an integer too wide for 64 bits still becomes a `Float` |
| Literals.NonNumericStart | src/token/mod.rs:148-151 | a run that starts with a letter-like character is neither an integer nor a float |
| Literals.IntLiteralIsFloatLiteral | src/token/mod.rs:148-151 | every integer literal is also a float literal, so the integer attempt only takes precedence and never widens what becomes a number |
| Literals.ParseFloat | src/token/mod.rs:150 | an accepted run is kept as its own spelling and holds at least one digit |
| Literals.PointFloatLiteral | src/token/mod.rs:150 | digits, a decimal point and digits, with a digit on at least one side, always parse as a float |
| Literals.ParseBool | src/token/mod.rs:152 | accepts exactly `true` and `false`, and the value read prints back as the run |
| Literals.ParseBoolRoundTrip | src/token/mod.rs:152 | each boolean is read back from its spelling |
| Tokenizer.LiteralToken | src/token/mod.rs:146-157 | a run always resolves to a value token other than `RBrace`, in priority order: `Int` only with the integer the run parses to; `Float` only when the run is no integer but a float literal, carrying its spelling; `Boolean` only for the spelling of that boolean and when the run is no float literal; `Identifier` only when the run is neither a float literal nor a boolean, carrying its text |
| Tokenizer.Push | src/token/mod.rs:113-128 | one merge step grows the output by at most one entry; the runs' text grows by the new run's text and the other entries by the new entry |
| Tokenizer.PushKeepsWellMerged | src/token/mod.rs:113-128 | a merge step keeps runs non-empty and clean and never leaves two runs side by side |
| Tokenizer.StrToTokens | src/token/mod.rs:111-131 | the output is no longer than the input |
| Tokenizer.StrToTokensFaithful | src/token/mod.rs:111-131 | no two adjacent runs; every run is non-empty and holds only literal characters; the runs spell the input's literal characters in order; the other entries are exactly the classifications of the other characters, in order |
| Tokenizer.StrToTokensLoop | src/token/mod.rs:111-131 | the in-place merge loop computes the same sequence as the recursive definition |
| Tokenizer.ResolveStep | src/token/mod.rs:137-193 | one step fails exactly when a `=`, `&` or `\|` lacks its partner next, and the error names that entry and the next one (`None` at the end); otherwise it consumes one or two entries, two exactly when the partner follows; resolved tokens pass through, runs become their literal token, lookahead entries yield only operator tokens |
| Tokenizer.ResolveLiterals | src/token/mod.rs:134-196 | on success the output has at least half and at most all of the entries' count; a failure is always an `UnmatchedPartialToken` whose first entry is a `=`, `&` or `\|` |
| Tokenizer.ResolveLiteralsLoop | src/token/mod.rs:134-196 | the slice-consuming loop computes the same result as the recursive definition, including its early return on error |
| Tokenizer.Tokenize | src/token/mod.rs:198-200 | on success there are no more tokens than characters |
| ResolveFacts.PairToken | src/token/mod.rs:158-190 | every pair yields an operator token, and never `Neq` |
| ResolveFacts.PairResolves | src/token/mod.rs:158-190 | a lookahead entry followed by its partner becomes one token and consumes both: `==` and `!=` give `Eq`, `>=` `Geq`, `<=` `Leq`, `&&` `And`, `\|\|` `Or` |
| ResolveFacts.StandsAlone | src/token/mod.rs:162-182 | `!`, `>` and `<` without a following `=` yield `Not`, `Gt` and `Lt` and consume one entry |
| ResolveFacts.FailsAlone | src/token/mod.rs:158-190 | `=`, `&` or `\|` without its partner fails, naming itself and the next entry, or `None` when it is last |
| ResolveFacts.PassThrough | src/token/mod.rs:141-157 | a resolved entry passes through unchanged and a run becomes its literal token, each consuming one entry |
| ResolveFacts.ErrorLocated | src/token/mod.rs:134-196 | a failure names some entry `=`, `&` or `\|` whose partner is missing, together with the entry after it; `None` is reported only for the last entry |
| ResolveFacts.SucceedsWithoutUnmatchable | src/token/mod.rs:134-196 | entries without `=`, `&` or `\|` always resolve |
| ResolveFacts.NeverNeq | src/token/mod.rs:134-196 | `Neq` comes out only if a resolved `Neq` went in |
| ResolveFacts.KeepsUnambiguous | src/token/mod.rs:134-196 | apart from the operators the lookahead rules produce, the output is the input entry by entry: resolved tokens unchanged, runs as their literal token, in order |
| ResolveFacts.ValuesFromLiterals | src/token/mod.rs:141-157 | the value tokens of the output are those of the input, in order, with runs resolved |
| ResolveFacts.ImageCount | src/token/mod.rs:141-157 | entry by entry, each single-character token occurs as often as its resolved entry |
| ResolveFacts.SingleCharTokensKept | src/token/mod.rs:141-145 | every operator, brace and whitespace token is emitted exactly as many times as it was in the input entries |
| TokenizeFacts.DigitRunIsNumber | src/token/mod.rs:148-151 | a digit run becomes `Int` with its decimal value when that fits 64 bits, and `Float` otherwise |
| TokenizeFacts.WordRunIsBooleanOrIdentifier | src/token/mod.rs:148-156 | a run starting like a word is `Boolean` for `true` and `false` and otherwise an identifier with the run's text |
| TokenizeFacts.FloatRunIsFloat | src/token/mod.rs:148-151 | an unsigned float literal that is not all digits, such as `1.5`, `1e5`, `.5`, becomes `Float` of its spelling |
| TokenizeFacts.IdentifierFallback | src/token/mod.rs:148-156 | a run becomes an identifier exactly when it is no float literal and neither `true` nor `false`, and the identifier is the run's text |
| TokenizeFacts.EntryFromChar | src/token/mod.rs:111-131 | every entry other than a run is the classification of some input character |
| TokenizeFacts.TokenizeSucceedsWithoutUnmatchable | src/token/mod.rs:198-200 | a text without `=`, `&` or `\|` always tokenizes |
| TokenizeFacts.ErrorFromChar | src/token/mod.rs:198-200 | a failure names the entry of some `=`, `&` or `\|` of the text |
| TokenizeFacts.NeedsPartnerFrom | src/token/mod.rs:58-63 | exactly `=`, `&` and `\|` classify as entries that need a partner |
| TokenizeFacts.TokenizeNeverNeq | src/token/mod.rs:198-200 | `tokenize` never produces `Neq` |
| TokenizeFacts.ClassifyAll | src/token/mod.rs:113-114 | one classification per character |
| TokenizeFacts.KeepsSingleCharTokens | src/token/mod.rs:198-200 | every operator, brace and whitespace token is emitted once per character classified as that token |
| TokenizeFacts.KeepsWhitespace | src/token/mod.rs:198-200 | the number of `Whitespace` tokens equals the number of whitespace characters: none is dropped |
| TokenizeFacts.StrToTokensSnoc | src/token/mod.rs:113-129 | one more character is one more merge step |
| TokenizeFacts.LiteralRunMerges | src/token/mod.rs:116-128 | a text of literal characters becomes one run, so digits followed by letters are never split |
| TokenizeFacts.StrToTokensSplit | src/token/mod.rs:111-131 | a non-literal character splits the merge: the entries of `a`, its entry, then the entries of `b` |
| TokenizeFacts.ResolveSplit | src/token/mod.rs:134-196 | a resolved token between two resolvable sequences splits the resolution the same way |
| TokenizeFacts.TokenizeAroundSeparator | src/token/mod.rs:198-200 | tokenizing `a`, an operator, brace or whitespace character, then `b` gives the tokens of `a`, that token, then the tokens of `b` |
| TokenizeFacts.TokenizeConcat | src/token/mod.rs:198-200 | if `a` and `b` tokenize, then `a + " " + b` tokenizes to the tokens of `a`, one `Whitespace`, then the tokens of `b` |
| Errors.ExpectedType | src/error/mod.rs:243-252 | the variant names the type of `expected`, it is one of the six single-type variants, and it carries `actual` unchanged |
| Errors.OperatorArgumentAmountError | src/error/mod.rs:189-191 | builds `WrongOperatorArgumentAmount` with `actual` and `expected` each in its own field, though the arguments come in the opposite order to the fields |
| Errors.FunctionArgumentAmountError | src/error/mod.rs:193-195 | builds `WrongFunctionArgumentAmount` with `actual` and `expected` each in its own field |
| Errors.TypeErrorOf | src/error/mod.rs:197-200 | builds `TypeError` with `actual` and the expected types each in its own field, though the arguments come in the opposite order to the fields |
| Errors.ArgumentAmountErrorsInjective | src/error/mod.rs:189-195 | an arity error determines both counts, so the constructors cannot swap them, and the operator and function variants never coincide |
| Errors.ExpectOperatorArgumentAmount | src/error/mod.rs:298-309 | `Ok` exactly when the counts are equal; otherwise `WrongOperatorArgumentAmount` with `actual` and `expected` in their own fields |
| Errors.ExpectFunctionArgumentAmount | src/error/mod.rs:312-320 | `Ok` exactly when the counts are equal; otherwise `WrongFunctionArgumentAmount` with `actual` and `expected` in their own fields |
| Errors.ExpectString | src/error/mod.rs:323-328 | `Ok(s)` exactly when the value is the string `s`; otherwise `ExpectedString` carrying the value |
| Errors.ExpectNumber | src/error/mod.rs:333-338 | succeeds exactly for integers and floats; otherwise `ExpectedNumber` carrying the value |
| Errors.ExpectNumberOrString | src/error/mod.rs:341-346 | succeeds exactly for strings, integers and floats; otherwise `ExpectedNumberOrString` carrying the value |
| Errors.ExpectBoolean | src/error/mod.rs:349-354 | `Ok(b)` exactly when the value is the boolean `b`; otherwise `ExpectedBoolean` carrying the value |
| Errors.ExpectTuple | src/error/mod.rs:357-362 | `Ok(t)` exactly when the value is the tuple `t`; otherwise `ExpectedTuple` carrying the value |
| Errors.ArityChecksAgree | src/error/mod.rs:298-320 | the two arity checks succeed on the same counts, report them in the same fields, and swapping the counts changes the error |
| Errors.NumberOrStringExtendsNumber | src/error/mod.rs:323-346 | whatever `expect_number` accepts, `expect_number_or_string` accepts; the latter accepts exactly the numbers and the strings |
| Errors.ClassifiersDisjoint | src/error/mod.rs:323-362 | no value is accepted by two of the string, number, boolean and tuple checks; `Empty` is accepted by none |
| Errors.ExpectedTypeByTypeOnly | src/error/mod.rs:243-252 | two expected values give the same error exactly when they have the same type |
| Errors.ExpectedTypeNeverGeneric | src/error/mod.rs:243-252 | never `ExpectedNumber`, `ExpectedNumberOrString` or `TypeError` |
| Errors.ExpectedTypeAgreesWithClassifiers | src/error/mod.rs:243-252 | for strings, booleans and tuples, the error `expected_type` builds is exactly the one the matching `expect_*` check reports |
| Examples.StrToTokensOne | src/token/mod.rs:111-131 | one character gives its own classification |
| Examples.StrToTokensTwo | src/token/mod.rs:111-131 | two characters, the first not literal, give two entries |
| Examples.TokenizeOne | src/token/mod.rs:198-200 | one operator, brace or whitespace character gives its token; one literal character gives its literal token |
| Examples.TokenizeDigit | src/token/mod.rs:148-149 | a single digit tokenizes to `Int` of its value |
| Examples.TokenizePair | src/token/mod.rs:198-200 | two characters, the first not literal, tokenize as their two entries resolve |
| Examples.TokenizeSingle | src/token/mod.rs:198-200 | one character tokenizes as its entry resolves |
| Examples.EqualsEquals | src/token/mod.rs:158-159 | `==` gives `[Eq]` |
| Examples.ExclamationEquals | src/token/mod.rs:162-163 | `!=` gives `[Eq]`, not `[Neq]` |
| Examples.LoneEquals | src/token/mod.rs:158-160 | `=` alone fails with `UnmatchedPartialToken(Eq, None)` |
| Examples.EqualsThenLiteral | src/token/mod.rs:158-160 | `=` followed by a literal character fails, naming that run as the second entry |
| Examples.TokenizeRun | src/token/mod.rs:111-157 | a text of literal characters gives exactly one token, its literal token |
| Examples.IntegerRun | src/token/mod.rs:148-149 | the run `123` is `Int(123)` |
| Examples.FloatRun | src/token/mod.rs:150-151 | the run `1.5` is not an integer and is a `Float` |
| Examples.TrueRun | src/token/mod.rs:152-153 | the run `true` is `Boolean(true)` |
| Examples.FalseRun | src/token/mod.rs:152-153 | the run `false` is `Boolean(false)` |
| Examples.DigitsThenLettersRun | src/token/mod.rs:154-155 | the run `12x` is no number and no boolean, so it is `Identifier("12x")` |

## Left out

- Unicode whitespace: `char::is_whitespace` is a parameter of every tokenizer function, not the Unicode `White_Space` table.
- Rust's number grammars: `IntType` is taken to be `i64`, and `str::parse::<i64>` is modelled as an optional sign and ASCII digits in range. `str::parse::<f64>` is a decimal mantissa with an optional exponent. The words `inf`, `infinity` and `NaN` and their signed and case variants are not modelled, so such runs become identifiers.
- Floating-point values: a float is kept as the text it was read from. `1.5` and `1.50` are therefore different values here, and no float arithmetic exists.
- `usize` counts are natural numbers; the width bound of `usize` is not modelled.
- Field names: the arity variants' fields are `expectedAmount` and `actualAmount`, and `TypeError`'s expected types are `expectedTypes`. A Dafny field name shared by several variants must have one type.
- Error constructors: `expected_string` to `expected_empty`, `unmatched_partial_token`, the arithmetic-error constructors and `invalid_regex` are plain datatype constructors. They carry their fields verbatim by construction.
- Error text: the `display` submodule and the `std::error::Error` implementation are formatting only.
- `Value` arithmetic and conversions: values travel as payloads only.
- The parser, the evaluator and the context: they consume tokens and errors, and their source is not part of this model.
- Tokenizer.Tokenize: the contract states only the length bound. The composition with `resolve_literals` and `str_to_tokens` is proved in the `TokenizeFacts` lemmas rather than restated here.
- Examples: concrete whole-expression texts such as `1 + 2` are not stated as examples. Their proofs by unfolding are costly. Retention of whitespace is proved in general instead, by `TokenizeFacts.KeepsWhitespace` and `TokenizeFacts.TokenizeConcat`.
