# EisenScript front end, modelled in Dafny

EisenScript is a small language for describing recursive 3D structures.
A program mixes top-level statements (`set maxdepth 100`, rule
invocations such as `r1` or `3 * { x 1 s 0.5 } r2`) and rule definitions
(`rule r1 { ... }`) in any order. The Rust crate reads programs in two steps.

- A tokenizer (`src/lexer.rs`) turns the source text into tokens.
- A recursive-descent parser (`src/parser.rs`) turns the tokens into a rule set (`src/lib.rs`).
- Separately, a transform algebra (`src/transform.rs`) composes placements and colours.

This project models those four files.

- `numbers.dfy` (`Options`, `Numbers`): how numeral text is read. `parse::<i32>()`
  and `from_str` for `usize` are read exactly. The float reading of a literal is
  its exact decimal value, without the `f32` rounding.
- `lexer.dfy` (`Lexer`): the token table as a longest-match tokenizer.
  - Keywords beat the identifier pattern on a tie.
  - The integer pattern beats the float pattern on a tie.
  - Whitespace and `//` comments produce nothing.
  - A character that no pattern accepts becomes one `Error` token.
- `rules.dfy` (`Rules`): the rule set, in the shape the parser uses it.
  - A top-level custom rule named "Top Level" collects the statements outside definitions.
  - A list holds the defined rules.
  - The transform record a block fills in has nine fields, defaulting to no translation, no rotation and unit scale.
- `parser.dfy` (`Parser`): `Parser::rules`, `parse_action_list`, `parse_transform`,
  `get_number` and `next_number`.
  - These work over a sequence of lexemes plus the position of the next token.
  - Each parsing step ends in a value and the position after it, a returned error, or a panic.
  - A panic stands for a failed `unwrap`, `assert_eq!` or `unimplemented!`.
- `render.dfy` (`Render`): writes a rule set out as tokens, and proves the parser reads it back. This is the partner of the parser.
- `transforms.dfy` (`Transforms`): the placement algebra over the reals.
  - A 4x4 matrix plus hue, saturation, brightness and alpha.
  - Composition (`*=`, `*`) with the default transform as its identity.
  - The translation, scale, rotation and hsv constructors.
- `examples.dfy` (`Examples`): the crate's single-rule test, read through the model.

## Model

| member | source | states |
|---|---|---|
| Numbers.ParseSigned | src/parser.rs:127 | A text has an integer reading exactly when it is one or more digits, optionally after a single `+` or `-`. Every other text is rejected, including the empty text and a lone sign. |
| Numbers.ParseI32 | src/parser.rs:127 | `parse::<i32>()` succeeds exactly on the signed numerals whose value lies in [-2^31, 2^31-1], and the value is the numeral's. |
| Numbers.NonCanonicalNumerals | src/parser.rs:127 | A `+` sign and leading zeros are accepted by both integer readers, and `-0` only by the signed one. |
| Numbers.ParseUsize | src/parser.rs:193 | Reading a `usize` rejects any leading minus and any value above 2^64-1. Every other text with a signed reading is accepted, with that value. |
| Numbers.ParseI32RoundTrip | src/parser.rs:127 | Every integer in the 32-bit range, written in decimal, reads back as itself. |
| Numbers.ParseUsizeRoundTrip | src/parser.rs:193 | Every count up to 2^64-1, written in decimal, reads back as itself. |
| Numbers.ParseFloatPointed | src/parser.rs:128 | A float literal `[sign] digits . digits` reads as its integer part plus its fraction, negated after `-`. |
| Numbers.ParseFloatWhole | src/parser.rs:127-128 | On a whole numeral, the float reading agrees with the integer reading. |
| Lexer.Scan | src/lexer.rs:3-93 | Every token recognised at a non-blank position consumes at least one character, so tokenizing always makes progress. |
| Lexer.Lex | src/lexer.rs:90-92 | Every lexeme's text is non-empty and no longer than the input. After leading whitespace or a `//` comment, every lexeme is strictly shorter than the input. |
| Lexer.SpacesSkipped | src/lexer.rs:91 | A run of spaces, tabs, newlines and form feeds in front of a text produces no token. |
| Lexer.LineCommentSkipped | src/lexer.rs:9-10 | `//` and everything up to the next newline produces no token. |
| Lexer.IntegerToken | src/lexer.rs:30-33 | An optionally signed digit run that is not followed by more digits or by a fraction is one `LiteralInteger` with that text. It is never a `LiteralFloat`: priority 2 wins the tie. |
| Lexer.FloatToken | src/lexer.rs:32-33 | An optionally signed digit run with a point and at least one fraction digit is one `LiteralFloat` with that text. |
| Lexer.IntegerLongest | src/lexer.rs:30-31 | The integer length is that of the longest prefix matching `[+-]?[0-9]+`, and 0 when no prefix does. |
| Lexer.FloatLongest | src/lexer.rs:32-33 | The float length is that of the longest prefix matching `[+-]?[0-9]*[.]?[0-9]+`, and 0 when no prefix does. |
| Lexer.ScanNumber | src/lexer.rs:30-33 | At a sign, digit or point, the token is the longest float-shaped prefix. It is an integer exactly when that prefix also matches the integer pattern. When no prefix is float-shaped, the one character is an `Error` token. |
| Lexer.ShapedTextReads | src/parser.rs:127-128 | Every float-shaped text has a float reading, and every integer-shaped text has a signed reading. |
| Lexer.WordToken | src/lexer.rs:14-15 | A letter followed by letters and digits is one token: its keyword when the word is one, and a `RuleInvocation` otherwise. |
| Lexer.KeywordToken | src/lexer.rs:17-88 | An exact keyword such as `x`, `s`, `rz` or `set` is classified as that keyword, never as a rule invocation. |
| Lexer.KeywordAliases | src/lexer.rs:35-57 | Each short alias gives the same token as its long form: `md`/`maxdepth`, `w`/`weight`, `h`/`hue`, `b`/`brightness`, `a`/`alpha`, `c`/`color`. |
| Lexer.RuleDefinitionToken | src/lexer.rs:12-13 | `rule`, one space and a word form a single `RuleDefinition` token whose text covers all three. |
| Lexer.UnmatchedCharacter | src/lexer.rs:90-92 | A character that no pattern starts with becomes an `Error` token of its own, and lexing goes on after it. |
| Lexer.StraySignOrPoint | src/lexer.rs:30-33 | A sign or point that starts no number becomes an `Error` token. |
| Lexer.BracketToken | src/lexer.rs:20-26 | `{`, `}` and `>` are each a token of their own, whatever follows. |
| Lexer.CommentMarkerTokens | src/lexer.rs:5-8 | `/*` and `*/` are each one marker token, whatever follows. |
| Lexer.MultiplyToken | src/lexer.rs:27-28 | A `*` that is not followed by `/` is the multiplication token. |
| Lexer.LexJoin | src/lexer.rs:3-93 | Tokenizing inverts writing out. Lexemes that each lex to themselves, joined by single spaces, lex back to the same sequence. The one exception is a word `rule` followed by a word. |
| Rules.RuleSet.Push | src/lib.rs:56-58 | Pushing adds one rule at the end. The top-level rule and every earlier rule are unchanged. |
| Rules.RuleSet.AddAction | src/parser.rs:96-109 | Adding an action appends it to the top-level rule's actions. The rule's name, its earlier actions and all rules are unchanged. |
| Rules.NewRuleSet | src/lib.rs:46-54 | A new rule set has no rules, and a top-level rule named "Top Level" with no actions. |
| Rules.CustomRules | src/parser.rs:231-238 | The non-primitive filter keeps exactly the custom rules of the list. |
| Rules.CustomRulesPush | src/parser.rs:231-238 | The filter distributes over pushing: a pushed custom rule is counted once, a primitive not at all. |
| Parser.GetNumber | src/parser.rs:125-131 | Only an integer or float literal yields a number. An integer literal yields its signed value exactly when that lies in the `i32` range, and a float literal yields its float reading. Every other case gives `ExpectedNumber`. |
| Parser.NextNumber | src/parser.rs:133-141 | The number at a position is that token's number. A missing token gives `UnexpectedEOF`, a non-number `ExpectedNumber`. |
| Parser.ParseTransform | src/parser.rs:143-177 | A block read ends just after its `}`, or at the end of the stream. Its only returned errors are `UnexpectedEOF` and `ExpectedNumber`. |
| Parser.ReadSetting | src/parser.rs:144-175 | One setting inside a block consumes its keyword and at least one number. It returns an error only for a missing or non-numeric argument. |
| Parser.FieldSet | src/parser.rs:146-151 | A field keyword's number lands in that field, and the scale factors are untouched. |
| Parser.OtherFieldsKept | src/parser.rs:146-151 | Setting one of `x y z rx ry rz` leaves the other five as they were. |
| Parser.FieldOverwrite | src/parser.rs:146-151 | Of two settings of the same field, the later one wins. |
| Parser.FieldsIndependent | src/parser.rs:146-151 | Settings of two different fields commute. |
| Parser.FieldStep | src/parser.rs:146-151 | Inside a block, a field keyword and a number set that field, and reading continues after the number. |
| Parser.LastFieldWins | src/parser.rs:146-151 | A block that sets a field twice in a row reads as if only the second setting were there. |
| Parser.ScaleStep | src/parser.rs:152-160 | `s a b c` sets the three scale factors to `a`, `b` and `c`, consuming all three numbers. |
| Parser.UniformScaleStep | src/parser.rs:161-165 | `s a` followed by no number sets all three scale factors to `a` and consumes only `a`. The token after it is looked at but not consumed. |
| Parser.TwoScaleFactorsRejected | src/parser.rs:155-156 | `s a b` without a third number is an error: `ExpectedNumber`, or `UnexpectedEOF` at the end of the stream. |
| Parser.ColourStep | src/parser.rs:167-170 | A colour keyword consumes one number and leaves the transform unchanged. |
| Parser.UnknownKeywordPanics | src/parser.rs:171-174 | Inside a block, any token other than a field, `s`, a colour keyword or `}` panics. |
| Parser.LoopHeader | src/parser.rs:190-199 | A loop header ends at a `{`, and a bare `{` has count 1. |
| Parser.CountedHeader | src/parser.rs:192-196 | A counted header is exactly a `usize` numeral, `*` and `{`, and has that count. Anything else is no header. |
| Parser.ParseActionList | src/parser.rs:187-211 | An action list that succeeds ends with a `RuleInvocation` whose text names the invoked rule. Its only returned error is `ExpectedIdentifier`. |
| Parser.ReadLoop | src/parser.rs:190-202 | Reading a loop consumes its header and block, which is at least one token. |
| Parser.LoopFailurePanics | src/parser.rs:190-200 | A malformed loop header, or a block that ends in an error, panics rather than returning the error. |
| Parser.ActionListKeepsLoops | src/parser.rs:187-204 | Loops keep their source order: the loops gathered so far are a prefix of the action's loop list. |
| Parser.ParseBody | src/parser.rs:69-76 | A body that succeeds ends with its `}`. Its only returned errors are `ExpectedIdentifier` and `UnexpectedEOF`. |
| Parser.BodyKeepsActions | src/parser.rs:69-75 | Body actions keep their source order. The actions gathered so far are a prefix of the result, and everything after them is an invocation. |
| Parser.UnclosedBodyPanics | src/parser.rs:71-76 | A body that meets a token which starts no action, before its `}`, panics. |
| Parser.SkipPastOpen | src/parser.rs:53-58 | The tokens between a definition and its first `{` are discarded. The position is just after that `{`, or the end of the stream when there is none. |
| Parser.TrimRule | src/parser.rs:50 | Trimming removes a prefix, so the result is a suffix of the text, and no leading `rule ` is left. |
| Parser.TrimRemovesRepeats | src/parser.rs:50 | The removed prefix is `rule ` repeated zero or more times, as `trim_start_matches` strips whole copies only. |
| Parser.TrimRuleName | src/parser.rs:50 | A definition's text without its `rule ` prefix is the rule's name. |
| Parser.ParseSet | src/parser.rs:82-95 | A `set` succeeds exactly on `maxdepth` followed by a `usize` literal, and gives that depth. End of input gives `UnexpectedEOF`, another token `ExpectedIdentifier`, and a non-integer `ExpectedNumber`. It never panics. |
| Parser.SetStatement | src/parser.rs:82-97 | A `set` statement appends its setting to the top-level actions and adds no rule. A malformed one ends the parse with its error. |
| Parser.BareInvocation | src/parser.rs:98-104 | A bare name at top level appends one invocation of that rule with no loops. |
| Parser.ActionListStatement | src/parser.rs:105-110 | An action list at top level is appended to the top-level actions. Its error or panic ends the parse. |
| Parser.DefinitionStatement | src/parser.rs:49-81 | A definition pushes one custom rule of depth 0, named by its text without `rule ` and holding the body's actions. With nothing after its `{`, it panics. |
| Parser.StrayTokenRejected | src/parser.rs:111-114 | A token that starts no statement ends the parse with `UnexpectedToken` carrying its text. |
| Parser.CommentSkipped | src/parser.rs:37-40 | Inside a comment, every token up to the first `*/` is skipped, and parsing resumes after it outside the comment. |
| Parser.UnclosedComment | src/parser.rs:37-40 | A comment that is never closed hides the rest of the stream, and the parse succeeds. |
| Parser.CommentTransparent | src/parser.rs:42-48 | A block comment between statements changes nothing. Comments do not nest: the first `*/` ends it. |
| Parser.RulesFrom | src/parser.rs:32-119 | A successful parse consumes the whole token stream. |
| Parser.RulesFromGrows | src/parser.rs:32-119 | Parsing only appends. The top-level name, earlier actions and earlier rules survive, and every rule added is a custom rule of depth 0. |
| Parser.NumberErrorNeedsSet | src/parser.rs:82-97 | A whole parse can fail with `ExpectedNumber` only if the stream holds a `set`, because errors inside blocks panic instead. |
| Parser.Parse | src/parser.rs:32-119 | A successful parse consumes every token, and its top-level rule is named "Top Level". |
| Render.NumberRoundTrip | src/parser.rs:125-131 | A whole number in the `i32` range, written as an integer literal, reads back as that number. |
| Render.CountRoundTrip | src/parser.rs:193 | A count up to 2^64-1, written as an integer literal, reads back as itself. |
| Render.TransformRoundTrip | src/parser.rs:143-177 | A transform with whole-number fields, written as a block of settings, reads back as itself. |
| Render.HeaderRoundTrip | src/parser.rs:190-197 | A written `n * {` header reads back with count `n`. |
| Render.LoopRoundTrip | src/parser.rs:187-203 | A written loop, header and block, reads back as itself. |
| Render.ActionListRoundTrip | src/parser.rs:187-211 | A written invocation reads back with its loops in order, after the loops already gathered. |
| Render.InvocationRoundTrip | src/parser.rs:187-211 | A written invocation reads back as itself. |
| Render.BodyRoundTrip | src/parser.rs:69-76 | A written rule body reads back as its actions, after the actions already gathered. |
| Render.SetRoundTrip | src/parser.rs:82-97 | A written `set maxdepth n` is added to the top-level actions, and parsing goes on after it. |
| Render.InvokeRoundTrip | src/parser.rs:98-110 | A written top-level invocation, bare or with loops, is added to the top-level actions. |
| Render.StatementRoundTrip | src/parser.rs:82-110 | A written top-level statement is added to the top-level actions. |
| Render.StatementsRoundTrip | src/parser.rs:37-116 | Written top-level statements are appended to the top-level actions in order. |
| Render.RuleRoundTrip | src/parser.rs:49-81 | A written rule definition pushes that rule. |
| Render.RulesRoundTrip | src/parser.rs:49-81 | Written rule definitions are pushed in order. |
| Render.RenderRoundTrip | src/parser.rs:32-119 | Parsing inverts writing. Every well-formed rule set, written as tokens, parses back to itself and consumes every token. |
| Render.WrittenRoundTrip | src/parser.rs:32-119 | Any token stream that spells a well-formed rule set parses back to that rule set. |
| Render.RenderInjective | src/parser.rs:32-119 | Distinct well-formed rule sets are written as distinct token streams. |
| Transforms.MulAssign | src/transform.rs:69-78 | `*=` multiplies the matrices with the receiver on the left, adds the hues, and multiplies saturation, brightness and alpha. |
| Transforms.Mul | src/transform.rs:80-87 | `a * b` is `a` after `a *= b`, which is the composition of the algebra. |
| Transforms.ComposeIdentity | src/transform.rs:89-98 | The default transform is a left and a right identity of composition. |
| Transforms.ComposeAssociative | src/transform.rs:69-78 | Composition is associative. |
| Transforms.MatMulAssociative | src/transform.rs:71 | The matrix product is associative. |
| Transforms.MatMulIdentity | src/transform.rs:92 | The identity matrix is a left and a right unit of the product. |
| Transforms.ApplyMatMul | src/transform.rs:71 | Applying a product applies the right factor first, then the left one. |
| Transforms.Translation | src/transform.rs:12-17 | A translation keeps the default colour and moves the origin to its offset. |
| Transforms.TranslationCompose | src/transform.rs:12-17 | Two translations compose to the translation by the sum of their offsets. |
| Transforms.TranslationMovesPoints | src/transform.rs:12-17 | A translation moves every point by its offsets. |
| Transforms.Scale | src/transform.rs:49-57 | A scale keeps the default colour. |
| Transforms.PivotedScaling | src/transform.rs:50-52 | A scaling conjugated by a translation to a pivot has the factors on its diagonal and offsets `p - s*p`. |
| Transforms.ScaleMapsPoints | src/transform.rs:49-57 | A scale moves each coordinate away from 0.5 by its factor. |
| Transforms.ScaleFixesCentre | src/transform.rs:49-57 | The centre of the unit cube is a fixed point of every scale. |
| Transforms.UnitScaleIsIdentity | src/transform.rs:49-57 | `scale(1, 1, 1)` is the default transform. |
| Transforms.PivotedIdentity | src/transform.rs:50-52 | The identity conjugated by a translation to any pivot is the identity. |
| Transforms.RotateX | src/transform.rs:19-27 | A rotation about the x axis keeps the default colour. |
| Transforms.RotateY | src/transform.rs:29-37 | A rotation about the y axis keeps the default colour. |
| Transforms.RotateZ | src/transform.rs:39-47 | A rotation about the z axis keeps the default colour. |
| Transforms.ZeroRotationXIsIdentity | src/transform.rs:19-27 | The zero-angle x rotation (cosine 1, sine 0) is the default transform. |
| Transforms.ZeroRotationYIsIdentity | src/transform.rs:29-37 | The zero-angle y rotation is the default transform. |
| Transforms.ZeroRotationZIsIdentity | src/transform.rs:39-47 | The zero-angle z rotation is the default transform. |
| Transforms.PivotedRotationZ | src/transform.rs:40-42 | A z rotation conjugated by a translation to a pivot, written out entry by entry. |
| Transforms.RotateZFixesAxis | src/transform.rs:39-47 | Every point on the z rotation's axis, through (0.5, 0.5), is fixed. |
| Transforms.Hsv | src/transform.rs:59-66 | `hsv` sets hue, saturation and brightness, and keeps the identity matrix and an alpha of 1. |
| Transforms.GeometricKeepsColour | src/transform.rs:69-78 | Composing with a transform of default colour leaves the colour channels as they were. |
| Transforms.HsvKeepsPlacement | src/transform.rs:69-78 | Composing with an `hsv` transform keeps the matrix and alpha, and adds its hue. |
| Examples.OneRuleLexes | src/lexer.rs:12-23 | `rule NAME { CALLEE }` lexes to a definition, `{`, an invocation of CALLEE and `}`. |
| Examples.OneRuleParses | src/parser.rs:49-81 | Those four tokens parse to one custom rule named NAME whose body invokes CALLEE, with nothing at top level. |
| Examples.RuleDefinitionSingle | src/parser.rs:226-241 | `rule r1 { box }` parses, and its rule set holds exactly one non-primitive rule. |

## Left out

- The evaluator (rule expansion, depth budgets, weighted choice): none of the modelled files contains it.
- `examples/solstice.rs`: window and GL setup, file watching and drawing are I/O.
- The `approx` and `mint` trait implementations of `src/transform.rs` (lines 101-164): library glue with no logic of the crate's own.
- `f32` arithmetic: all numbers are exact reals. The rounding of `as f32`, of the float parser and of matrix products is not modelled.
- Parser.GetNumber: reads a float literal's exact decimal value. Rust's `f32` parser would round it, and also accepts forms the tokenizer never produces as a float literal (exponents, `inf`, `NaN`).
- Parser.ColourStep: the source's `!num.is_nan()` assertion cannot fail over the reals, so that panic is not modelled.
- Transforms.RotateX: takes the cosine and sine of the angle as parameters, because trigonometry and `to_radians` are outside Dafny's reals. It does not require `c*c + s*s == 1`. Only its colour and its zero-angle case are stated.
- Transforms.RotateY: as for `RotateX`.
- Transforms.RotateZ: as for `RotateX`, plus the fixed-axis lemma.
- Lexer.Scan: the lexer generator is replaced by a hand-written longest match that follows the table's priorities. The rules for unmatched input are an assumption about the generator: an unmatched character is taken to produce an `Error` token exactly one character long.
- Lexer.Lex: lexemes carry their text only. Spans (`lexer.span()`) are not modelled.
- Diagnostics written with `eprintln!` (src/parser.rs:112 and 172) are output only and are left out.
- A panic is a single outcome. Which `unwrap`, `assert_eq!` or `unimplemented!` fired, and its message, is not recorded.
- `src/lib.rs` and `src/parser.rs` disagree: the parser uses `RuleSet`, `add_action`, `TransformAction` and `rules.values()`. The model follows the parser. The rule set holds a list of rules, and the test's `values()` is read as that list.
- `set` understands only `maxdepth`, as in the source. The other settings are declared but nothing produces them.
- Colour keywords inside a block are read and their values dropped, as in the source. The parsed transform has no colour fields.
- The `complex` test and its torus program (src/parser.rs:219-224 and 243-263) are not replayed as one concrete program. The statement-by-statement lemmas cover each construct it uses.
- Render.RenderRoundTrip: covers rule sets in three ways only. Transform fields are whole numbers in the `i32` range. Rules are custom rules of depth 0. Top-level statements come before all definitions. Writing fractional values would need a float-literal writer.
- `usize` is taken to be 64 bits wide.
