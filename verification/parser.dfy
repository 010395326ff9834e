/**
  The recursive-descent parser of src/parser.rs, over the token stream the
  lexer produces.

  The Rust parser reads tokens from a lexer it advances; here the stream is a
  sequence of lexemes and each parsing function takes the position of the
  next token and returns the position after what it read.  A parsing step
  ends in one of three ways: a value, an error the Rust parser returns, or a
  panic (a failed `unwrap`, `assert_eq!` or `unimplemented!`).
 */
module Parser {
  import opened Options
  import opened Numbers
  import opened Lexer
  import opened Rules

  /** The errors the parser returns. */
  datatype Error = UnexpectedEOF | ExpectedIdentifier | ExpectedNumber | UnexpectedToken(slice: string)

  /** The outcome of a parsing step: a value and the position after it, a returned error, or a panic. */
  datatype Parsed<T> = Ok(value: T, pos: nat) | Err(error: Error) | Panic

  /** A number read from a token, or the error reading it gives. */
  datatype Numeric = Number(value: real) | NotNumber(error: Error)

  /**
    The value of a number token: an integer literal read as an `i32`, or a
    float literal.  Anything else, or an integer out of range, is not a number.
   */
  function GetNumber(l: Lexeme): (r: Numeric)
    ensures r.NotNumber? ==> r.error == ExpectedNumber
    ensures r.Number? ==> l.token == LiteralInteger || l.token == LiteralFloat
    ensures l.token == LiteralInteger ==>
              (r.Number? <==> ParseSigned(l.slice).Some? && I32_MIN <= ParseSigned(l.slice).value <= I32_MAX)
    ensures l.token == LiteralInteger && r.Number? ==> r.value == ParseSigned(l.slice).value as real
    ensures l.token == LiteralFloat ==> (r.Number? <==> ParseFloat(l.slice).Some?)
    ensures l.token == LiteralFloat && r.Number? ==> r.value == ParseFloat(l.slice).value
  {
    match l.token
    case LiteralInteger =>
      (match ParseI32(l.slice)
       case Some(v) => Number(v as real)
       case None => NotNumber(ExpectedNumber))
    case LiteralFloat =>
      (match ParseFloat(l.slice)
       case Some(v) => Number(v)
       case None => NotNumber(ExpectedNumber))
    case _ => NotNumber(ExpectedNumber)
  }

  /** The number in the token at `pos`; the end of the stream is reported as such. */
  function NextNumber(ts: seq<Lexeme>, pos: nat): (r: Numeric)
    ensures r.NotNumber? ==> r.error == (if pos < |ts| then ExpectedNumber else UnexpectedEOF)
    ensures r.Number? ==> pos < |ts| && GetNumber(ts[pos]) == r
  {
    if pos < |ts| then GetNumber(ts[pos]) else NotNumber(UnexpectedEOF)
  }

  /** The keywords that set one translation or rotation field. */
  predicate IsFieldToken(t: Token) {
    t == X || t == Y || t == Z || t == Rx || t == Ry || t == Rz
  }

  /** The keywords whose number is read and dropped (colour changes are not kept). */
  predicate IsColourToken(t: Token) {
    t == Brightness || t == Hue || t == Sat || t == Alpha
  }

  /** The field of `tx` a field keyword names. */
  function Field(tx: Transform, t: Token): real
    requires IsFieldToken(t)
  {
    match t
    case X => tx.x
    case Y => tx.y
    case Z => tx.z
    case Rx => tx.rx
    case Ry => tx.ry
    case _ => tx.rz
  }

  /** `tx` with the field named by `t` set to `v`. */
  function SetField(tx: Transform, t: Token, v: real): Transform
    requires IsFieldToken(t)
  {
    match t
    case X => tx.(x := v)
    case Y => tx.(y := v)
    case Z => tx.(z := v)
    case Rx => tx.(rx := v)
    case Ry => tx.(ry := v)
    case _ => tx.(rz := v)
  }

  /**
    The body of a transform block, after its opening bracket: settings up to
    the closing bracket, which is consumed, or up to the end of the stream.
   */
  function ParseTransform(ts: seq<Lexeme>, pos: nat, tx: Transform): (r: Parsed<Transform>)
    requires pos <= |ts|
    ensures r.Ok? ==> pos <= r.pos <= |ts|
    ensures r.Ok? ==> r.pos == |ts| || (pos < r.pos && ts[r.pos - 1].token == BracketClose)
    ensures r.Err? ==> r.error == UnexpectedEOF || r.error == ExpectedNumber
    decreases |ts| - pos
  {
    if pos == |ts| then Ok(tx, pos)
    else if ts[pos].token == BracketClose then Ok(tx, pos + 1)
    else
      match ReadSetting(ts, pos, tx)
      case Ok(next, q) => ParseTransform(ts, q, next)
      case Err(e) => Err(e)
      case Panic => Panic
  }

  /**
    One setting inside a block, from its keyword at `pos` to its last number.
    `s` takes three numbers when three follow and one otherwise; the second
    number is looked at without being consumed when it turns out not to be a
    number.  Any keyword but a field, `s` or a colour panics.
   */
  function ReadSetting(ts: seq<Lexeme>, pos: nat, tx: Transform): (r: Parsed<Transform>)
    requires pos < |ts|
    ensures r.Ok? ==> pos + 2 <= r.pos <= |ts|
    ensures r.Err? ==> r.error == UnexpectedEOF || r.error == ExpectedNumber
  {
    var t := ts[pos].token;
    if IsFieldToken(t) then
      match NextNumber(ts, pos + 1)
      case Number(v) => Ok(SetField(tx, t, v), pos + 2)
      case NotNumber(e) => Err(e)
    else if t == S then
      match NextNumber(ts, pos + 1)
      case NotNumber(e) => Err(e)
      case Number(s) =>
        match NextNumber(ts, pos + 2)
        case NotNumber(_) => Ok(tx.(sx := s, sy := s, sz := s), pos + 2)
        case Number(sy) =>
          match NextNumber(ts, pos + 3)
          case NotNumber(e) => Err(e)
          case Number(sz) => Ok(tx.(sx := s, sy := sy, sz := sz), pos + 4)
    else if IsColourToken(t) then
      match NextNumber(ts, pos + 1)
      case Number(_) => Ok(tx, pos + 2)
      case NotNumber(e) => Err(e)
    else Panic
  }

  /**
    The repetition count and the position of the block of a loop starting at
    `pos`: `{` alone is one repetition, `n * {` is `n` (read as a `usize`).
   */
  function LoopHeader(ts: seq<Lexeme>, pos: nat): (r: Option<(nat, nat)>)
    requires pos < |ts|
    ensures r.Some? ==> pos < r.value.1 <= |ts| && ts[r.value.1 - 1].token == BracketOpen
    ensures r.Some? && ts[pos].token == BracketOpen ==> r.value == (1, pos + 1)
  {
    var l := ts[pos];
    if l.token == BracketOpen then Some((1, pos + 1))
    else if l.token != LiteralInteger then None
    else match ParseUsize(l.slice)
      case None => None
      case Some(count) =>
        if pos + 2 < |ts| && ts[pos + 1].token == Multiply && ts[pos + 2].token == BracketOpen
        then Some((count, pos + 3))
        else None
  }

  /**
    An action list starting with the token at `pos`: transformation loops,
    gathered after `loops`, followed by the name of the rule they apply to.
   */
  function ParseActionList(ts: seq<Lexeme>, pos: nat, loops: seq<TransformationLoop>): (r: Parsed<Action>)
    requires pos < |ts|
    ensures r.Ok? ==> pos < r.pos <= |ts| && ts[r.pos - 1].token == RuleInvocation
    ensures r.Ok? ==> r.value.Invoke? && r.value.action.rule == ts[r.pos - 1].slice
    ensures r.Err? ==> r.error == ExpectedIdentifier
    decreases |ts| - pos
  {
    var l := ts[pos];
    if l.token == RuleInvocation then Ok(Invoke(TransformAction(loops, l.slice)), pos + 1)
    else if l.token != BracketOpen && l.token != LiteralInteger then Err(ExpectedIdentifier)
    else
      match ReadLoop(ts, pos)
      case None => Panic
      case Some((loop, q)) =>
        if q < |ts| then ParseActionList(ts, q, loops + [loop])
        else Panic
  }

  /**
    One transformation loop starting at `pos`: its header, then its transform
    block, and the position after the block's closing bracket; `None` where
    the Rust parser unwraps a failed read and panics.
   */
  function ReadLoop(ts: seq<Lexeme>, pos: nat): (r: Option<(TransformationLoop, nat)>)
    requires pos < |ts|
    ensures r.Some? ==> pos < r.value.1 <= |ts|
  {
    match LoopHeader(ts, pos)
    case None => None
    case Some((count, start)) =>
      match ParseTransform(ts, start, DefaultTransform)
      case Ok(t, q) => Some((TransformationLoop(count, t), q))
      case _ => None
  }

  /** The loops gathered before `pos` come first in the action read from there, in order. */
  lemma {:induction false} ActionListKeepsLoops(ts: seq<Lexeme>, pos: nat, loops: seq<TransformationLoop>)
    requires pos < |ts|
    ensures var r := ParseActionList(ts, pos, loops);
      r.Ok? ==> |loops| <= |r.value.action.loops| && r.value.action.loops[..|loops|] == loops
    decreases |ts| - pos
  {
    var l := ts[pos];
    if l.token == BracketOpen || l.token == LiteralInteger {
      match ReadLoop(ts, pos) {
        case Some((loop, q)) =>
          if q < |ts| {
            var more := loops + [loop];
            ActionListKeepsLoops(ts, q, more);
            var r := ParseActionList(ts, q, more);
            if r.Ok? {
              assert r.value.action.loops[..|loops|] == r.value.action.loops[..|more|][..|loops|];
            }
          }
        case None =>
      }
    }
  }

  /** The tokens that start an action inside a rule body. */
  predicate StartsAction(t: Token) {
    t == BracketOpen || t == LiteralInteger || t == RuleInvocation
  }

  /**
    The actions of a rule body, gathered after `actions`, starting at the
    token at `pos`, up to and including the closing bracket.
   */
  function ParseBody(ts: seq<Lexeme>, pos: nat, actions: seq<Action>): (r: Parsed<seq<Action>>)
    requires pos < |ts|
    ensures r.Ok? ==> pos < r.pos <= |ts| && ts[r.pos - 1].token == BracketClose
    ensures r.Err? ==> r.error == ExpectedIdentifier || r.error == UnexpectedEOF
    decreases |ts| - pos
  {
    var t := ts[pos].token;
    if StartsAction(t) then
      match ParseActionList(ts, pos, [])
      case Ok(a, q) =>
        if q < |ts| then ParseBody(ts, q, actions + [a])
        else Err(UnexpectedEOF)
      case Err(e) => Err(e)
      case Panic => Panic
    else if t == BracketClose then Ok(actions, pos + 1)
    else Panic
  }

  /** A body keeps the actions gathered before `pos`, in order, and adds only invocations. */
  lemma {:induction false} BodyKeepsActions(ts: seq<Lexeme>, pos: nat, actions: seq<Action>)
    requires pos < |ts|
    ensures var r := ParseBody(ts, pos, actions);
      r.Ok? ==> |actions| <= |r.value| && r.value[..|actions|] == actions && forall a <- r.value[|actions|..] :: a.Invoke?
    decreases |ts| - pos
  {
    if StartsAction(ts[pos].token) {
      match ParseActionList(ts, pos, []) {
        case Ok(a, q) =>
          if q < |ts| {
            BodyKeepsActions(ts, q, actions + [a]);
            var r := ParseBody(ts, q, actions + [a]);
            if r.Ok? {
              PrefixExtend(r.value, actions, a);
            }
          }
        case _ =>
      }
    }
  }

  /** A sequence that starts with `actions + [a]` and continues with invocations starts with `actions`. */
  lemma PrefixExtend(v: seq<Action>, actions: seq<Action>, a: Action)
    requires |actions| + 1 <= |v| && v[..|actions| + 1] == actions + [a] && a.Invoke?
    requires forall x <- v[|actions| + 1..] :: x.Invoke?
    ensures |actions| <= |v| && v[..|actions|] == actions && forall x <- v[|actions|..] :: x.Invoke?
  {
    assert v[..|actions|] == v[..|actions| + 1][..|actions|];
    assert v[|actions|..] == [a] + v[|actions| + 1..];
  }

  /** The position just after the first `{` at or after `pos`, or the end of the stream. */
  function SkipPastOpen(ts: seq<Lexeme>, pos: nat): (q: nat)
    requires pos <= |ts|
    ensures pos <= q <= |ts|
    ensures forall k :: pos <= k < q - 1 ==> ts[k].token != BracketOpen
    ensures q < |ts| ==> pos < q && ts[q - 1].token == BracketOpen
    ensures q == |ts| && (|ts| == pos || ts[|ts| - 1].token != BracketOpen) ==>
              forall k :: pos <= k < |ts| ==> ts[k].token != BracketOpen
    decreases |ts| - pos
  {
    if pos == |ts| then pos
    else if ts[pos].token == BracketOpen then pos + 1
    else SkipPastOpen(ts, pos + 1)
  }

  /** Removes every leading repetition of "rule " (`trim_start_matches`). */
  function TrimRule(s: string): (r: string)
    ensures |r| <= |s| && r == s[|s| - |r|..]
    ensures !(5 <= |r| && r[..5] == "rule ")
    decreases |s|
  {
    if 5 <= |s| && s[..5] == "rule " then TrimRule(s[5..]) else s
  }

  /** What trimming removes is "rule " repeated: `trim_start_matches` strips whole copies only. */
  lemma {:induction false} TrimRemovesRepeats(s: string)
    ensures RuleRepeats(s[..|s| - |TrimRule(s)|])
    decreases |s|
  {
    if 5 <= |s| && s[..5] == "rule " {
      TrimRemovesRepeats(s[5..]);
      var r := TrimRule(s[5..]);
      var cut := s[..|s| - |r|];
      assert cut[..5] == s[..5] && cut[5..] == s[5..][..|s[5..]| - |r|];
    } else {
      assert s[..|s| - |TrimRule(s)|] == [];
    }
  }

  /** `p` is "rule " repeated zero or more times. */
  predicate RuleRepeats(p: string)
    decreases |p|
  {
    p == [] || (5 <= |p| && p[..5] == "rule " && RuleRepeats(p[5..]))
  }

  /** A `set` statement, from the token after `set`; only `maxdepth` is understood. */
  function ParseSet(ts: seq<Lexeme>, pos: nat): (r: Parsed<SetAction>)
    requires pos <= |ts|
    ensures r.Ok? <==> pos + 1 < |ts| && ts[pos].token == Token.MaxDepth && ts[pos + 1].token == LiteralInteger
                       && ParseUsize(ts[pos + 1].slice).Some?
    ensures r.Ok? ==> r.pos == pos + 2 && r.value == SetAction.MaxDepth(ParseUsize(ts[pos + 1].slice).value)
    ensures !r.Panic?
    ensures (pos == |ts| || (pos + 1 == |ts| && ts[pos].token == Token.MaxDepth)) ==> r == Err(UnexpectedEOF)
    ensures pos < |ts| && ts[pos].token != Token.MaxDepth ==> r == Err(ExpectedIdentifier)
    ensures pos + 1 < |ts| && ts[pos].token == Token.MaxDepth && !r.Ok? ==> r == Err(ExpectedNumber)
  {
    if pos == |ts| then Err(UnexpectedEOF)
    else if ts[pos].token != Token.MaxDepth then Err(ExpectedIdentifier)
    else if pos + 1 == |ts| then Err(UnexpectedEOF)
    else if ts[pos + 1].token != LiteralInteger then Err(ExpectedNumber)
    else match ParseUsize(ts[pos + 1].slice)
      case Some(d) => Ok(SetAction.MaxDepth(d), pos + 2)
      case None => Err(ExpectedNumber)
  }

  /**
    The statements from `pos` to the end of the stream, added to `rs`.
    Inside a block comment every token up to the closing marker is skipped.
   */
  function RulesFrom(ts: seq<Lexeme>, pos: nat, inComment: bool, rs: RuleSet): (r: Parsed<RuleSet>)
    requires pos <= |ts|
    ensures r.Ok? ==> r.pos == |ts|
    decreases |ts| - pos
  {
    if pos == |ts| then Ok(rs, pos)
    else
      var l := ts[pos];
      if inComment && l.token != MultilineCommentEnd then RulesFrom(ts, pos + 1, true, rs)
      else
        match l.token
        case MultilineCommentStart => RulesFrom(ts, pos + 1, true, rs)
        case MultilineCommentEnd => RulesFrom(ts, pos + 1, false, rs)
        case RuleDefinition =>
          var open := SkipPastOpen(ts, pos + 1);
          if open == |ts| then Panic
          else
            (match ParseBody(ts, open, [])
             case Ok(actions, q) => RulesFrom(ts, q, false, rs.Push(Rule(0, CustomRule(Custom(TrimRule(l.slice), actions)))))
             case Err(e) => Err(e)
             case Panic => Panic)
        case Set =>
          (match ParseSet(ts, pos + 1)
           case Ok(setting, q) => RulesFrom(ts, q, false, rs.AddAction(Action.Set(setting)))
           case Err(e) => Err(e)
           case Panic => Panic)
        case RuleInvocation => RulesFrom(ts, pos + 1, false, rs.AddAction(Invoke(TransformAction([], l.slice))))
        case LiteralInteger | BracketOpen =>
          (match ParseActionList(ts, pos, [])
           case Ok(a, q) => RulesFrom(ts, q, false, rs.AddAction(a))
           case Err(e) => Err(e)
           case Panic => Panic)
        case _ => Err(UnexpectedToken(l.slice))
  }

  /**
    `r` extends `rs` the way parsing does: the top-level rule keeps its name
    and its earlier actions, the earlier rules stay in place, and every rule
    added is a custom rule of depth 0.
   */
  predicate Extends(rs: RuleSet, r: RuleSet) {
    r.topLevel.name == rs.topLevel.name
    && rs.topLevel.actions <= r.topLevel.actions && rs.rules <= r.rules
    && forall i :: |rs.rules| <= i < |r.rules| ==> r.rules[i].maxDepth == 0 && r.rules[i].ty.CustomRule?
  }

  /** Extending is transitive, also through a parse that may fail. */
  lemma ExtendsThrough(rs: RuleSet, mid: RuleSet, r: Parsed<RuleSet>)
    requires Extends(rs, mid) && (r.Ok? ==> Extends(mid, r.value))
    ensures r.Ok? ==> Extends(rs, r.value)
  {
  }

  /** Adding a top-level action extends a rule set. */
  lemma AddActionExtends(rs: RuleSet, a: Action)
    ensures Extends(rs, rs.AddAction(a))
  {
  }

  /** Adding a custom rule of depth 0 extends a rule set. */
  lemma PushExtends(rs: RuleSet, name: string, actions: seq<Action>)
    ensures Extends(rs, rs.Push(Rule(0, CustomRule(Custom(name, actions)))))
  {
  }

  /** Parsing only ever extends the rule set it starts from. */
  lemma {:induction false} RulesFromGrows(ts: seq<Lexeme>, pos: nat, inComment: bool, rs: RuleSet)
    requires pos <= |ts|
    ensures var r := RulesFrom(ts, pos, inComment, rs); r.Ok? ==> Extends(rs, r.value)
    decreases |ts| - pos
  {
    if pos == |ts| {
      assert Extends(rs, rs);
    } else {
      var l := ts[pos];
      if inComment && l.token != MultilineCommentEnd {
        RulesFromGrows(ts, pos + 1, true, rs);
      } else {
        match l.token
        case MultilineCommentStart => RulesFromGrows(ts, pos + 1, true, rs);
        case MultilineCommentEnd => RulesFromGrows(ts, pos + 1, false, rs);
        case RuleDefinition =>
          var open := SkipPastOpen(ts, pos + 1);
          if open < |ts| {
            match ParseBody(ts, open, []) {
              case Ok(actions, q) =>
                var next := rs.Push(Rule(0, CustomRule(Custom(TrimRule(l.slice), actions))));
                PushExtends(rs, TrimRule(l.slice), actions);
                RulesFromGrows(ts, q, false, next);
                ExtendsThrough(rs, next, RulesFrom(ts, q, false, next));
              case _ =>
            }
          }
        case Set =>
          match ParseSet(ts, pos + 1) {
            case Ok(setting, q) =>
              var next := rs.AddAction(Action.Set(setting));
              AddActionExtends(rs, Action.Set(setting));
              RulesFromGrows(ts, q, false, next);
              ExtendsThrough(rs, next, RulesFrom(ts, q, false, next));
            case _ =>
          }
        case RuleInvocation =>
          var next := rs.AddAction(Invoke(TransformAction([], l.slice)));
          AddActionExtends(rs, Invoke(TransformAction([], l.slice)));
          RulesFromGrows(ts, pos + 1, false, next);
          ExtendsThrough(rs, next, RulesFrom(ts, pos + 1, false, next));
        case LiteralInteger | BracketOpen =>
          match ParseActionList(ts, pos, []) {
            case Ok(a, q) =>
              var next := rs.AddAction(a);
              AddActionExtends(rs, a);
              RulesFromGrows(ts, q, false, next);
              ExtendsThrough(rs, next, RulesFrom(ts, q, false, next));
            case _ =>
          }
        case _ =>
      }
    }
  }

  /** "expected a number" is reported only when a `set` statement lies ahead. */
  lemma {:induction false} NumberErrorNeedsSet(ts: seq<Lexeme>, pos: nat, inComment: bool, rs: RuleSet)
    requires pos <= |ts|
    ensures RulesFrom(ts, pos, inComment, rs) == Err(ExpectedNumber) ==> exists k :: pos <= k < |ts| && ts[k].token == Token.Set
    decreases |ts| - pos
  {
    if pos < |ts| {
      var l := ts[pos];
      if inComment && l.token != MultilineCommentEnd {
        NumberErrorNeedsSet(ts, pos + 1, true, rs);
      } else {
        match l.token
        case MultilineCommentStart => NumberErrorNeedsSet(ts, pos + 1, true, rs);
        case MultilineCommentEnd => NumberErrorNeedsSet(ts, pos + 1, false, rs);
        case RuleDefinition =>
          var open := SkipPastOpen(ts, pos + 1);
          if open < |ts| {
            match ParseBody(ts, open, []) {
              case Ok(actions, q) => NumberErrorNeedsSet(ts, q, false, rs.Push(Rule(0, CustomRule(Custom(TrimRule(l.slice), actions)))));
              case _ =>
            }
          }
        case Set =>
        case RuleInvocation => NumberErrorNeedsSet(ts, pos + 1, false, rs.AddAction(Invoke(TransformAction([], l.slice))));
        case LiteralInteger | BracketOpen =>
          match ParseActionList(ts, pos, []) {
            case Ok(a, q) => NumberErrorNeedsSet(ts, q, false, rs.AddAction(a));
            case _ =>
          }
        case _ =>
      }
    }
  }

  /** `Parser::rules`: the rule set of a whole token stream. */
  function Parse(ts: seq<Lexeme>): (r: Parsed<RuleSet>)
    ensures r.Ok? ==> r.pos == |ts| && r.value.topLevel.name == "Top Level"
  {
    RulesFromGrows(ts, 0, false, NewRuleSet());
    RulesFrom(ts, 0, false, NewRuleSet())
  }

  /** The rule set of a program text. */
  function ParseSource(src: string): Parsed<RuleSet> {
    Parse(Lex(src))
  }

  /** A field keyword followed by a number sets that field; the block goes on after the number. */
  lemma FieldStep(ts: seq<Lexeme>, pos: nat, tx: Transform, v: real)
    requires pos + 1 < |ts| && IsFieldToken(ts[pos].token) && GetNumber(ts[pos + 1]) == Number(v)
    ensures ParseTransform(ts, pos, tx) == ParseTransform(ts, pos + 2, SetField(tx, ts[pos].token, v))
  {
  }

  /** `s` followed by three numbers sets the three scale factors. */
  lemma ScaleStep(ts: seq<Lexeme>, pos: nat, tx: Transform, a: real, b: real, c: real)
    requires pos + 3 < |ts| && ts[pos].token == S
    requires GetNumber(ts[pos + 1]) == Number(a) && GetNumber(ts[pos + 2]) == Number(b) && GetNumber(ts[pos + 3]) == Number(c)
    ensures ParseTransform(ts, pos, tx) == ParseTransform(ts, pos + 4, tx.(sx := a, sy := b, sz := c))
  {
  }

  /** `s` followed by one number and then no number scales uniformly and consumes one number. */
  lemma UniformScaleStep(ts: seq<Lexeme>, pos: nat, tx: Transform, a: real)
    requires pos + 1 < |ts| && ts[pos].token == S && GetNumber(ts[pos + 1]) == Number(a)
    requires pos + 2 == |ts| || GetNumber(ts[pos + 2]).NotNumber?
    ensures ParseTransform(ts, pos, tx) == ParseTransform(ts, pos + 2, tx.(sx := a, sy := a, sz := a))
  {
  }

  /** `s` with exactly two numbers is an error: the second number commits to three. */
  lemma TwoScaleFactorsRejected(ts: seq<Lexeme>, pos: nat, tx: Transform)
    requires pos + 2 < |ts| && ts[pos].token == S
    requires GetNumber(ts[pos + 1]).Number? && GetNumber(ts[pos + 2]).Number?
    requires pos + 3 == |ts| || GetNumber(ts[pos + 3]).NotNumber?
    ensures ParseTransform(ts, pos, tx) == Err(if pos + 3 == |ts| then UnexpectedEOF else ExpectedNumber)
  {
  }

  /** A keyword that is neither a field, `s`, a colour nor `}` inside a block panics. */
  lemma UnknownKeywordPanics(ts: seq<Lexeme>, pos: nat, tx: Transform)
    requires pos < |ts|
    requires var t := ts[pos].token; !IsFieldToken(t) && t != S && !IsColourToken(t) && t != BracketClose
    ensures ParseTransform(ts, pos, tx).Panic?
  {
  }

  /** A colour keyword consumes one number and leaves the transform as it was. */
  lemma ColourStep(ts: seq<Lexeme>, pos: nat, tx: Transform)
    requires pos + 1 < |ts| && IsColourToken(ts[pos].token) && GetNumber(ts[pos + 1]).Number?
    ensures ParseTransform(ts, pos, tx) == ParseTransform(ts, pos + 2, tx)
  {
    assert ReadSetting(ts, pos, tx) == Ok(tx, pos + 2);
  }

  /** Setting a field makes it hold the value and leaves the scale untouched. */
  lemma FieldSet(tx: Transform, t: Token, v: real)
    requires IsFieldToken(t)
    ensures Field(SetField(tx, t, v), t) == v
    ensures var r := SetField(tx, t, v); r.sx == tx.sx && r.sy == tx.sy && r.sz == tx.sz
  {
  }

  /** Setting one field leaves every other field as it was. */
  lemma OtherFieldsKept(tx: Transform, t: Token, u: Token, v: real)
    requires IsFieldToken(t) && IsFieldToken(u) && t != u
    ensures Field(SetField(tx, t, v), u) == Field(tx, u)
  {
  }

  /** Of two settings of the same field, the later one wins. */
  lemma FieldOverwrite(tx: Transform, t: Token, a: real, b: real)
    requires IsFieldToken(t)
    ensures SetField(SetField(tx, t, a), t, b) == SetField(tx, t, b)
  {
  }

  /** Settings of different fields do not interfere: their order does not matter. */
  lemma FieldsIndependent(tx: Transform, t: Token, u: Token, a: real, b: real)
    requires IsFieldToken(t) && IsFieldToken(u) && t != u
    ensures SetField(SetField(tx, t, a), u, b) == SetField(SetField(tx, u, b), t, a)
  {
  }

  /** A block that sets the same field twice in a row reads as if only the second setting were there. */
  lemma LastFieldWins(ts: seq<Lexeme>, pos: nat, tx: Transform, a: real, b: real)
    requires pos + 3 < |ts| && IsFieldToken(ts[pos].token) && ts[pos + 2].token == ts[pos].token
    requires GetNumber(ts[pos + 1]) == Number(a) && GetNumber(ts[pos + 3]) == Number(b)
    ensures ParseTransform(ts, pos, tx) == ParseTransform(ts, pos + 4, SetField(tx, ts[pos].token, b))
  {
    var t := ts[pos].token;
    FieldStep(ts, pos, tx, a);
    FieldStep(ts, pos + 2, SetField(tx, t, a), b);
    FieldOverwrite(tx, t, a, b);
  }

  /**
    A counted loop header is a `usize` numeral, `*` and `{`; anything else is
    no header, where the Rust parser's `unwrap` or `assert_eq!` panics.
   */
  lemma CountedHeader(ts: seq<Lexeme>, pos: nat)
    requires pos < |ts| && ts[pos].token == LiteralInteger
    ensures LoopHeader(ts, pos).Some?
        <==> ParseUsize(ts[pos].slice).Some? && pos + 2 < |ts| && ts[pos + 1].token == Multiply && ts[pos + 2].token == BracketOpen
    ensures LoopHeader(ts, pos).Some? ==> LoopHeader(ts, pos).value == (ParseUsize(ts[pos].slice).value, pos + 3)
  {
  }

  /**
    A loop whose header is malformed, or whose block ends in an error, panics:
    the Rust parser asserts the header's `*` and `{` and unwraps the block.
   */
  lemma LoopFailurePanics(ts: seq<Lexeme>, pos: nat, loops: seq<TransformationLoop>)
    requires pos < |ts| && (ts[pos].token == BracketOpen || ts[pos].token == LiteralInteger)
    requires LoopHeader(ts, pos).None? || !ParseTransform(ts, LoopHeader(ts, pos).value.1, DefaultTransform).Ok?
    ensures ParseActionList(ts, pos, loops) == Panic
  {
  }

  /** A body that meets a token starting no action before its `}` panics (the Rust parser's `assert_eq!`). */
  lemma UnclosedBodyPanics(ts: seq<Lexeme>, pos: nat, actions: seq<Action>)
    requires pos < |ts| && !StartsAction(ts[pos].token) && ts[pos].token != BracketClose
    ensures ParseBody(ts, pos, actions) == Panic
  {
  }

  /** A bare invocation at top level appends one action: that rule, under no loops. */
  lemma BareInvocation(ts: seq<Lexeme>, pos: nat, rs: RuleSet)
    requires pos < |ts| && ts[pos].token == RuleInvocation
    ensures RulesFrom(ts, pos, false, rs)
         == RulesFrom(ts, pos + 1, false, rs.AddAction(Invoke(TransformAction([], ts[pos].slice))))
  {
  }

  /**
    An action list at top level, starting with a count or a `{`, is appended
    to the top-level actions; its error or panic ends the parse.
   */
  lemma ActionListStatement(ts: seq<Lexeme>, pos: nat, rs: RuleSet)
    requires pos < |ts| && (ts[pos].token == LiteralInteger || ts[pos].token == BracketOpen)
    ensures var p := ParseActionList(ts, pos, []);
      p.Ok? ==> RulesFrom(ts, pos, false, rs) == RulesFrom(ts, p.pos, false, rs.AddAction(p.value))
    ensures var p := ParseActionList(ts, pos, []);
      !p.Ok? ==> RulesFrom(ts, pos, false, rs) == (if p.Err? then Err(p.error) else Panic)
  {
  }

  /**
    A `set` statement appends its setting to the top-level actions and adds no
    rule; a malformed one ends the parse with its error.
   */
  lemma SetStatement(ts: seq<Lexeme>, pos: nat, rs: RuleSet)
    requires pos < |ts| && ts[pos].token == Token.Set
    ensures var s := ParseSet(ts, pos + 1);
      s.Ok? ==> RulesFrom(ts, pos, false, rs) == RulesFrom(ts, s.pos, false, rs.AddAction(Action.Set(s.value)))
    ensures var s := ParseSet(ts, pos + 1);
      s.Err? ==> RulesFrom(ts, pos, false, rs) == Err(s.error)
  {
  }

  /**
    A rule definition discards the tokens up to and including its `{`, reads
    the body and pushes one custom rule of depth 0 named by the definition's
    text without its `rule ` prefix; a definition with nothing after its `{`
    panics.
   */
  lemma DefinitionStatement(ts: seq<Lexeme>, pos: nat, rs: RuleSet)
    requires pos < |ts| && ts[pos].token == RuleDefinition
    ensures SkipPastOpen(ts, pos + 1) == |ts| ==> RulesFrom(ts, pos, false, rs) == Panic
    ensures var open := SkipPastOpen(ts, pos + 1);
      open < |ts| && ParseBody(ts, open, []).Ok? ==>
        RulesFrom(ts, pos, false, rs)
        == RulesFrom(ts, ParseBody(ts, open, []).pos, false,
                     rs.Push(Rule(0, CustomRule(Custom(TrimRule(ts[pos].slice), ParseBody(ts, open, []).value)))))
  {
  }

  /**
    Every token from `pos` up to the first closing comment marker, at `end`, is skipped, whatever
    it is; parsing resumes after the marker outside the comment.
   */
  lemma {:induction false} CommentSkipped(ts: seq<Lexeme>, pos: nat, end: nat, rs: RuleSet)
    requires pos <= end < |ts| && ts[end].token == MultilineCommentEnd
    requires forall k :: pos <= k < end ==> ts[k].token != MultilineCommentEnd
    ensures RulesFrom(ts, pos, true, rs) == RulesFrom(ts, end + 1, false, rs)
    decreases end - pos
  {
    if pos < end {
      CommentSkipped(ts, pos + 1, end, rs);
    }
  }

  /** A comment that is never closed hides the rest of the stream: parsing ends successfully. */
  lemma {:induction false} UnclosedComment(ts: seq<Lexeme>, pos: nat, rs: RuleSet)
    requires pos <= |ts|
    requires forall k :: pos <= k < |ts| ==> ts[k].token != MultilineCommentEnd
    ensures RulesFrom(ts, pos, true, rs) == Ok(rs, |ts|)
    decreases |ts| - pos
  {
    if pos < |ts| {
      UnclosedComment(ts, pos + 1, rs);
    }
  }

  /** A block comment between two statements changes nothing. */
  lemma CommentTransparent(ts: seq<Lexeme>, pos: nat, end: nat, rs: RuleSet)
    requires pos < end < |ts| && ts[pos].token == MultilineCommentStart && ts[end].token == MultilineCommentEnd
    requires forall k :: pos < k < end ==> ts[k].token != MultilineCommentEnd
    ensures RulesFrom(ts, pos, false, rs) == RulesFrom(ts, end + 1, false, rs)
  {
    CommentSkipped(ts, pos + 1, end, rs);
  }

  /** A token that starts no statement is reported with its text. */
  lemma StrayTokenRejected(ts: seq<Lexeme>, pos: nat, rs: RuleSet)
    requires pos < |ts|
    requires ts[pos].token !in {MultilineCommentStart, MultilineCommentEnd, RuleDefinition, Token.Set,
                                RuleInvocation, LiteralInteger, BracketOpen}
    ensures RulesFrom(ts, pos, false, rs) == Err(UnexpectedToken(ts[pos].slice))
  {
  }

  /** `rule` and a name, trimmed, is the name. */
  lemma TrimRuleName(name: string)
    requires !(5 <= |name| && name[..5] == "rule ")
    ensures TrimRule("rule " + name) == name
  {
    var s := "rule " + name;
    assert s[..5] == "rule " && s[5..] == name;
  }
}
