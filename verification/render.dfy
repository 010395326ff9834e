/**
  Writing a rule set out as a token stream, and the proof that the parser
  reads what is written back to the same rule set.

  Only rule sets the parser can produce are written: top-level statements
  that are `set maxdepth` or rule invocations, rules that are custom rules
  with depth 0 whose bodies hold only invocations, and transform fields that
  are whole numbers in the `i32` range (so they can be written as integer
  literals).  Top-level statements are written before all rule definitions.

  A rule set is first written as a sequence of words (a keyword with its
  text, or an integer); a word becomes a lexeme only where it is spelled.
 */
module Render {
  import opened Options
  import opened Numbers
  import opened Lexer
  import opened Rules
  import opened Parser

  /** A word of a written program: a token with its text, or an integer literal. */
  datatype Word = Text(token: Token, text: string) | Numeral(value: int)

  /** The lexeme a word is read as. */
  function Spell(w: Word): (l: Lexeme)
    ensures w.Text? ==> l == Lexeme(w.token, w.text)
    ensures w.Numeral? ==> l.token == LiteralInteger && ParseSigned(l.slice) == Some(w.value)
  {
    match w
    case Text(t, s) => Lexeme(t, s)
    case Numeral(i) =>
      SignedDecimalValue(i);
      Lexeme(LiteralInteger, SignedDecimal(i))
  }

  /** A numeral reads back as its value. */
  lemma SignedDecimalValue(i: int)
    ensures ParseSigned(SignedDecimal(i)) == Some(i)
  {
    if i < 0 {
      var s := SignedDecimal(i);
      assert s[1..] == Decimal(-i);
      DecimalValue(-i);
    } else {
      DecimalValue(i);
    }
  }

  /** The lexemes of a sequence of words. */
  function Spells(ws: seq<Word>): (ls: seq<Lexeme>)
    ensures |ls| == |ws|
    ensures forall i :: 0 <= i < |ws| ==> ls[i] == Spell(ws[i])
  {
    if ws == [] then [] else [Spell(ws[0])] + Spells(ws[1..])
  }

  /** `ws` is spelled in `ts` starting at `pos`, one lexeme per word. */
  predicate Written(ts: seq<Lexeme>, pos: nat, ws: seq<Word>)
    decreases |ws|
  {
    pos + |ws| <= |ts| && (ws == [] || (ts[pos] == Spell(ws[0]) && Written(ts, pos + 1, ws[1..])))
  }

  /** Each word of a written sequence is spelled at its offset. */
  lemma {:induction false} WrittenIndex(ts: seq<Lexeme>, pos: nat, ws: seq<Word>, i: nat)
    requires Written(ts, pos, ws) && i < |ws|
    ensures ts[pos + i] == Spell(ws[i])
    decreases i
  {
    if i > 0 {
      WrittenIndex(ts, pos + 1, ws[1..], i - 1);
    }
  }

  /** A written `a + b` is a written `a` followed by a written `b`, at `mid`. */
  lemma {:induction false} WrittenSplit(ts: seq<Lexeme>, pos: nat, a: seq<Word>, b: seq<Word>, mid: nat)
    requires Written(ts, pos, a + b) && mid == pos + |a|
    ensures Written(ts, pos, a) && Written(ts, mid, b)
    decreases |a|
  {
    if a == [] {
      assert a + b == b;
    } else {
      assert (a + b)[1..] == a[1..] + b;
      WrittenSplit(ts, pos + 1, a[1..], b, mid);
    }
  }

  /** A stream whose lexemes from `pos` on spell `ws` has `ws` written there. */
  lemma {:induction false} WrittenFrom(ts: seq<Lexeme>, pos: nat, ws: seq<Word>)
    requires pos + |ws| <= |ts|
    requires forall i :: 0 <= i < |ws| ==> ts[pos + i] == Spell(ws[i])
    ensures Written(ts, pos, ws)
    decreases |ws|
  {
    if ws != [] {
      assert ts[pos] == Spell(ws[0]);
      forall i | 0 <= i < |ws[1..]|
        ensures ts[pos + 1 + i] == Spell(ws[1..][i])
      {
        assert ts[pos + (1 + i)] == Spell(ws[1 + i]);
      }
      WrittenFrom(ts, pos + 1, ws[1..]);
    }
  }

  /** Appending is associative; stated once so that proofs need not rediscover it. */
  lemma AppendAssociative<T>(a: seq<T>, b: seq<T>, c: seq<T>)
    ensures (a + b) + c == a + (b + c)
  {
  }

  /** A non-empty sequence is its head followed by its tail, after any prefix. */
  lemma AppendHeadTail<T>(done: seq<T>, a: seq<T>)
    requires a != []
    ensures done + [a[0]] + a[1..] == done + a
  {
    assert [a[0]] + a[1..] == a;
    AppendAssociative(done, [a[0]], a[1..]);
  }

  lemma AppendEmpty<T>(a: seq<T>)
    ensures a + [] == a
  {
  }

  /** A value an integer literal can carry: a whole number in the `i32` range. */
  predicate IsI32Value(v: real) {
    v.Floor as real == v && I32_MIN <= v.Floor <= I32_MAX
  }

  /** The integer literal of a whole number reads back as that number. */
  lemma NumberRoundTrip(v: real)
    requires IsI32Value(v)
    ensures GetNumber(Spell(Numeral(v.Floor))) == Number(v)
  {
    ParseI32RoundTrip(v.Floor);
  }

  /** A count written as a numeral reads back as a `usize`. */
  lemma CountRoundTrip(n: nat)
    requires n <= USIZE_MAX
    ensures ParseUsize(Spell(Numeral(n)).slice) == Some(n)
  {
    ParseUsizeRoundTrip(n);
  }

  /** Every field of the transform can be written as an integer literal. */
  predicate RenderableTransform(t: Transform) {
    IsI32Value(t.x) && IsI32Value(t.y) && IsI32Value(t.z)
    && IsI32Value(t.rx) && IsI32Value(t.ry) && IsI32Value(t.rz)
    && IsI32Value(t.sx) && IsI32Value(t.sy) && IsI32Value(t.sz)
  }

  /** A field keyword and its value. */
  function FieldWords(k: Token, name: string, v: real): (ws: seq<Word>)
    ensures |ws| == 2
  {
    [Text(k, name), Numeral(v.Floor)]
  }

  function TranslationWords(t: Transform): (ws: seq<Word>)
    ensures |ws| == 6
  {
    FieldWords(X, "x", t.x) + FieldWords(Y, "y", t.y) + FieldWords(Z, "z", t.z)
  }

  function RotationWords(t: Transform): (ws: seq<Word>)
    ensures |ws| == 6
  {
    FieldWords(Rx, "rx", t.rx) + FieldWords(Ry, "ry", t.ry) + FieldWords(Rz, "rz", t.rz)
  }

  /** The three scale factors, and the bracket closing the block. */
  function ScaleWords(t: Transform): (ws: seq<Word>)
    ensures |ws| == 5
  {
    [Text(S, "s"), Numeral(t.sx.Floor), Numeral(t.sy.Floor), Numeral(t.sz.Floor), Text(BracketClose, "}")]
  }

  /** The body of a transform block, every field set once, with its closing bracket. */
  function RenderTransform(t: Transform): (ws: seq<Word>)
    ensures |ws| == 17
  {
    TranslationWords(t) + RotationWords(t) + ScaleWords(t)
  }

  /** A written transform block reads back as the transform, whatever the block started from. */
  lemma TransformRoundTrip(ts: seq<Lexeme>, pos: nat, tx: Transform, t: Transform)
    requires RenderableTransform(t)
    requires Written(ts, pos, RenderTransform(t))
    ensures ParseTransform(ts, pos, tx) == Ok(t, pos + 17)
  {
    WrittenSplit(ts, pos, TranslationWords(t) + RotationWords(t), ScaleWords(t), pos + 12);
    WrittenSplit(ts, pos, TranslationWords(t), RotationWords(t), pos + 6);
    TranslationRoundTrip(ts, pos, tx, t);
    RotationRoundTrip(ts, pos + 6, tx.(x := t.x, y := t.y, z := t.z), t);
    ScaleRoundTrip(ts, pos + 12, tx.(x := t.x, y := t.y, z := t.z).(rx := t.rx, ry := t.ry, rz := t.rz), t);
  }

  /** A written field reads back: its keyword, then its value. */
  lemma FieldAt(ts: seq<Lexeme>, pos: nat, k: Token, name: string, v: real)
    requires IsI32Value(v)
    requires Written(ts, pos, FieldWords(k, name, v))
    ensures pos + 2 <= |ts| && ts[pos].token == k && GetNumber(ts[pos + 1]) == Number(v)
  {
    WrittenIndex(ts, pos, FieldWords(k, name, v), 0);
    WrittenIndex(ts, pos, FieldWords(k, name, v), 1);
    NumberRoundTrip(v);
  }

  /** Three written fields are written one after another. */
  lemma FieldsAt(ts: seq<Lexeme>, pos: nat, a: seq<Word>, b: seq<Word>, c: seq<Word>)
    requires |a| == 2 && |b| == 2 && Written(ts, pos, a + b + c)
    ensures Written(ts, pos, a) && Written(ts, pos + 2, b) && Written(ts, pos + 4, c)
  {
    WrittenSplit(ts, pos, a + b, c, pos + 4);
    WrittenSplit(ts, pos, a, b, pos + 2);
  }

  lemma TranslationRoundTrip(ts: seq<Lexeme>, pos: nat, tx: Transform, t: Transform)
    requires RenderableTransform(t)
    requires Written(ts, pos, TranslationWords(t)) && pos + 6 < |ts|
    ensures ParseTransform(ts, pos, tx) == ParseTransform(ts, pos + 6, tx.(x := t.x, y := t.y, z := t.z))
  {
    FieldsAt(ts, pos, FieldWords(X, "x", t.x), FieldWords(Y, "y", t.y), FieldWords(Z, "z", t.z));
    FieldAt(ts, pos, X, "x", t.x);
    FieldAt(ts, pos + 2, Y, "y", t.y);
    FieldAt(ts, pos + 4, Z, "z", t.z);
    TranslationStep(ts, pos, tx, t.x, t.y, t.z);
  }

  lemma RotationRoundTrip(ts: seq<Lexeme>, pos: nat, tx: Transform, t: Transform)
    requires RenderableTransform(t)
    requires Written(ts, pos, RotationWords(t)) && pos + 6 < |ts|
    ensures ParseTransform(ts, pos, tx) == ParseTransform(ts, pos + 6, tx.(rx := t.rx, ry := t.ry, rz := t.rz))
  {
    FieldsAt(ts, pos, FieldWords(Rx, "rx", t.rx), FieldWords(Ry, "ry", t.ry), FieldWords(Rz, "rz", t.rz));
    FieldAt(ts, pos, Rx, "rx", t.rx);
    FieldAt(ts, pos + 2, Ry, "ry", t.ry);
    FieldAt(ts, pos + 4, Rz, "rz", t.rz);
    RotationStep(ts, pos, tx, t.rx, t.ry, t.rz);
  }

  lemma ScaleRoundTrip(ts: seq<Lexeme>, pos: nat, tx: Transform, t: Transform)
    requires RenderableTransform(t)
    requires Written(ts, pos, ScaleWords(t))
    requires tx.(sx := t.sx, sy := t.sy, sz := t.sz) == t
    ensures ParseTransform(ts, pos, tx) == Ok(t, pos + 5)
  {
    WrittenIndex(ts, pos, ScaleWords(t), 0);
    WrittenIndex(ts, pos, ScaleWords(t), 1);
    WrittenIndex(ts, pos, ScaleWords(t), 2);
    WrittenIndex(ts, pos, ScaleWords(t), 3);
    WrittenIndex(ts, pos, ScaleWords(t), 4);
    NumberRoundTrip(t.sx);
    NumberRoundTrip(t.sy);
    NumberRoundTrip(t.sz);
    ScaleStep(ts, pos, tx, t.sx, t.sy, t.sz);
  }

  /** `x a y b z c` sets the translation. */
  lemma TranslationStep(ts: seq<Lexeme>, pos: nat, tx: Transform, a: real, b: real, c: real)
    requires pos + 6 < |ts|
    requires ts[pos].token == X && GetNumber(ts[pos + 1]) == Number(a)
    requires ts[pos + 2].token == Y && GetNumber(ts[pos + 3]) == Number(b)
    requires ts[pos + 4].token == Z && GetNumber(ts[pos + 5]) == Number(c)
    ensures ParseTransform(ts, pos, tx) == ParseTransform(ts, pos + 6, tx.(x := a, y := b, z := c))
  {
    FieldStep(ts, pos, tx, a);
    var t1 := tx.(x := a);
    assert SetField(tx, X, a) == t1;
    FieldStep(ts, pos + 2, t1, b);
    var t2 := t1.(y := b);
    assert SetField(t1, Y, b) == t2;
    FieldStep(ts, pos + 4, t2, c);
    assert SetField(t2, Z, c) == tx.(x := a, y := b, z := c);
  }

  /** `rx a ry b rz c` sets the rotation angles. */
  lemma RotationStep(ts: seq<Lexeme>, pos: nat, tx: Transform, a: real, b: real, c: real)
    requires pos + 6 < |ts|
    requires ts[pos].token == Rx && GetNumber(ts[pos + 1]) == Number(a)
    requires ts[pos + 2].token == Ry && GetNumber(ts[pos + 3]) == Number(b)
    requires ts[pos + 4].token == Rz && GetNumber(ts[pos + 5]) == Number(c)
    ensures ParseTransform(ts, pos, tx) == ParseTransform(ts, pos + 6, tx.(rx := a, ry := b, rz := c))
  {
    FieldStep(ts, pos, tx, a);
    var t1 := tx.(rx := a);
    assert SetField(tx, Rx, a) == t1;
    FieldStep(ts, pos + 2, t1, b);
    var t2 := t1.(ry := b);
    assert SetField(t1, Ry, b) == t2;
    FieldStep(ts, pos + 4, t2, c);
    assert SetField(t2, Rz, c) == tx.(rx := a, ry := b, rz := c);
  }

  /** A loop whose count is a `usize` and whose transform can be written. */
  predicate RenderableLoop(l: TransformationLoop) {
    l.count <= USIZE_MAX && RenderableTransform(l.transform)
  }

  /** The words `count * {` that open a loop. */
  function LoopHeaderWords(count: nat): (ws: seq<Word>)
    ensures |ws| == 3
  {
    [Numeral(count), Text(Multiply, "*"), Text(BracketOpen, "{")]
  }

  /** A loop written as `count * { ... }`. */
  function RenderLoop(l: TransformationLoop): (ws: seq<Word>)
    ensures |ws| == 20
  {
    LoopHeaderWords(l.count) + RenderTransform(l.transform)
  }

  /**
    The tokens at `pos` are read as the loop `l`: a count the loop header
    reads as `l.count`, then a transform block read as `l.transform`.
   */
  predicate ReadsLoop(ts: seq<Lexeme>, pos: nat, l: TransformationLoop) {
    pos + 20 <= |ts| && ts[pos].token == LiteralInteger && ReadLoop(ts, pos) == Some((l, pos + 20))
  }

  /** A written loop header reads back as its count. */
  lemma HeaderRoundTrip(ts: seq<Lexeme>, pos: nat, count: nat)
    requires count <= USIZE_MAX
    requires Written(ts, pos, LoopHeaderWords(count))
    ensures ts[pos].token == LiteralInteger && LoopHeader(ts, pos) == Some((count, pos + 3))
  {
    CountRoundTrip(count);
    WrittenIndex(ts, pos, LoopHeaderWords(count), 0);
    WrittenIndex(ts, pos, LoopHeaderWords(count), 1);
    WrittenIndex(ts, pos, LoopHeaderWords(count), 2);
  }

  /** A written loop reads back as the loop. */
  lemma LoopRoundTrip(ts: seq<Lexeme>, pos: nat, l: TransformationLoop)
    requires RenderableLoop(l)
    requires Written(ts, pos, RenderLoop(l))
    ensures ReadsLoop(ts, pos, l)
  {
    WrittenSplit(ts, pos, LoopHeaderWords(l.count), RenderTransform(l.transform), pos + 3);
    HeaderRoundTrip(ts, pos, l.count);
    TransformRoundTrip(ts, pos + 3, DefaultTransform, l.transform);
  }

  /** One loop read: the action list continues after the loop's closing bracket. */
  lemma LoopStep(ts: seq<Lexeme>, pos: nat, done: seq<TransformationLoop>, l: TransformationLoop, q: nat)
    requires ReadsLoop(ts, pos, l) && q == pos + 20 && q < |ts|
    ensures ParseActionList(ts, pos, done) == ParseActionList(ts, q, done + [l])
  {
  }

  /** Every loop of the invocation can be written. */
  predicate RenderableInvocation(a: TransformAction)
    decreases |a.loops|
  {
    a.loops == [] || (RenderableLoop(a.loops[0]) && RenderableInvocation(TransformAction(a.loops[1..], a.rule)))
  }

  /** The number of words an invocation is written with: twenty per loop and the rule name. */
  function InvocationLength(a: TransformAction): nat {
    20 * |a.loops| + 1
  }

  /** An invocation: its loops in order, then the rule name. */
  function RenderInvocation(a: TransformAction): (ws: seq<Word>)
    ensures |ws| == InvocationLength(a)
    decreases |a.loops|
  {
    if a.loops == [] then [Text(RuleInvocation, a.rule)]
    else RenderLoop(a.loops[0]) + RenderInvocation(TransformAction(a.loops[1..], a.rule))
  }

  /**
    A written invocation through at least one loop is that loop written, then
    the rest of the invocation at `q`, twenty words on.
   */
  lemma InvocationSplit(ts: seq<Lexeme>, pos: nat, a: TransformAction, q: nat)
    requires a.loops != [] && q == pos + 20
    requires Written(ts, pos, RenderInvocation(a))
    ensures Written(ts, pos, RenderLoop(a.loops[0]))
    ensures Written(ts, q, RenderInvocation(TransformAction(a.loops[1..], a.rule)))
  {
    WrittenSplit(ts, pos, RenderLoop(a.loops[0]), RenderInvocation(TransformAction(a.loops[1..], a.rule)), q);
  }

  /** A written invocation is parsed as the invocation, its loops after those already read. */
  lemma {:induction false} ActionListRoundTrip(ts: seq<Lexeme>, pos: nat, done: seq<TransformationLoop>, a: TransformAction)
    requires RenderableInvocation(a)
    requires Written(ts, pos, RenderInvocation(a))
    ensures pos < |ts|
    ensures ParseActionList(ts, pos, done) == Ok(Invoke(TransformAction(done + a.loops, a.rule)), pos + InvocationLength(a))
    decreases |a.loops|
  {
    if a.loops == [] {
      WrittenIndex(ts, pos, RenderInvocation(a), 0);
      AppendEmpty(done);
    } else {
      var q := pos + 20;
      LoopCons(ts, pos, done, a, q);
      ActionListRoundTrip(ts, q, done + [a.loops[0]], TransformAction(a.loops[1..], a.rule));
      LoopJoin(ts, pos, done, a, q);
    }
  }

  /** A written invocation through a loop: the loop is read, and the rest of the invocation is written after it. */
  lemma LoopCons(ts: seq<Lexeme>, pos: nat, done: seq<TransformationLoop>, a: TransformAction, q: nat)
    requires RenderableInvocation(a) && a.loops != [] && q == pos + 20
    requires Written(ts, pos, RenderInvocation(a))
    ensures RenderableInvocation(TransformAction(a.loops[1..], a.rule))
    ensures q < |ts| && Written(ts, q, RenderInvocation(TransformAction(a.loops[1..], a.rule)))
    ensures ParseActionList(ts, pos, done) == ParseActionList(ts, q, done + [a.loops[0]])
  {
    InvocationSplit(ts, pos, a, q);
    LoopRoundTrip(ts, pos, a.loops[0]);
    LoopStep(ts, pos, done, a.loops[0], q);
  }

  /** Reading one loop and then the rest of the invocation reads the whole invocation. */
  lemma LoopJoin(ts: seq<Lexeme>, pos: nat, done: seq<TransformationLoop>, a: TransformAction, q: nat)
    requires a.loops != [] && q == pos + 20 && q < |ts|
    requires ParseActionList(ts, pos, done) == ParseActionList(ts, q, done + [a.loops[0]])
    requires ParseActionList(ts, q, done + [a.loops[0]])
          == Ok(Invoke(TransformAction(done + [a.loops[0]] + a.loops[1..], a.rule)), q + InvocationLength(TransformAction(a.loops[1..], a.rule)))
    ensures ParseActionList(ts, pos, done) == Ok(Invoke(TransformAction(done + a.loops, a.rule)), pos + InvocationLength(a))
  {
    AppendHeadTail(done, a.loops);
  }

  /** A rule body the parser can produce and that can be written: invocations only. */
  predicate RenderableBody(actions: seq<Action>) {
    actions == [] || (actions[0].Invoke? && RenderableInvocation(actions[0].action) && RenderableBody(actions[1..]))
  }

  /** The number of words the invocations of a body are written with. */
  function BodyLength(actions: seq<Action>): nat {
    if actions == [] then 0
    else (if actions[0].Invoke? then InvocationLength(actions[0].action) else 0) + BodyLength(actions[1..])
  }

  lemma BodyLengthCons(actions: seq<Action>)
    requires actions != [] && actions[0].Invoke?
    ensures BodyLength(actions) == InvocationLength(actions[0].action) + BodyLength(actions[1..])
  {
  }

  /** The invocations of a rule body, one after another. */
  function RenderActions(actions: seq<Action>): (ws: seq<Word>)
    ensures |ws| == BodyLength(actions)
  {
    if actions == [] then []
    else (if actions[0].Invoke? then RenderInvocation(actions[0].action) else []) + RenderActions(actions[1..])
  }

  /** A body closed by `}`. */
  function RenderClosedBody(actions: seq<Action>): (ws: seq<Word>)
    ensures |ws| == BodyLength(actions) + 1
  {
    RenderActions(actions) + [Text(BracketClose, "}")]
  }

  /** The first action of a body that can be written is an invocation that can be written, and so is the rest. */
  lemma RenderableHead(actions: seq<Action>)
    requires RenderableBody(actions) && actions != []
    ensures actions[0].Invoke? && RenderableInvocation(actions[0].action) && RenderableBody(actions[1..])
  {
  }

  /**
    A written body starts with its first invocation, followed by the rest of
    the body at `q`, the position after that invocation.
   */
  lemma BodySplit(ts: seq<Lexeme>, pos: nat, actions: seq<Action>, q: nat)
    requires actions != [] && actions[0].Invoke? && q == pos + InvocationLength(actions[0].action)
    requires Written(ts, pos, RenderClosedBody(actions))
    ensures Written(ts, pos, RenderInvocation(actions[0].action))
    ensures Written(ts, q, RenderClosedBody(actions[1..]))
  {
    AppendAssociative(RenderInvocation(actions[0].action), RenderActions(actions[1..]), [Text(BracketClose, "}")]);
    WrittenSplit(ts, pos, RenderInvocation(actions[0].action), RenderClosedBody(actions[1..]), q);
  }

  /** A written body is parsed as the body, after the actions already read, up to its closing bracket. */
  lemma {:induction false} BodyRoundTrip(ts: seq<Lexeme>, pos: nat, done: seq<Action>, actions: seq<Action>)
    requires RenderableBody(actions)
    requires Written(ts, pos, RenderClosedBody(actions))
    ensures ParseBody(ts, pos, done) == Ok(done + actions, pos + BodyLength(actions) + 1)
    decreases |actions|
  {
    if actions == [] {
      WrittenIndex(ts, pos, RenderClosedBody(actions), 0);
      AppendEmpty(done);
    } else {
      RenderableHead(actions);
      var q := pos + InvocationLength(actions[0].action);
      BodyCons(ts, pos, done, actions, q);
      BodyRoundTrip(ts, q, done + [actions[0]], actions[1..]);
      BodyJoin(ts, pos, done, actions, q);
    }
  }

  /** A written body that is not empty: its first invocation is read, and the rest of the body is written after it. */
  lemma BodyCons(ts: seq<Lexeme>, pos: nat, done: seq<Action>, actions: seq<Action>, q: nat)
    requires actions != [] && actions[0].Invoke? && RenderableInvocation(actions[0].action)
    requires q == pos + InvocationLength(actions[0].action)
    requires Written(ts, pos, RenderClosedBody(actions))
    ensures q < |ts| && Written(ts, q, RenderClosedBody(actions[1..]))
    ensures ParseBody(ts, pos, done) == ParseBody(ts, q, done + [actions[0]])
  {
    BodySplit(ts, pos, actions, q);
    BodyHead(ts, pos, done, actions[0].action, q);
  }

  /** Reading a written invocation at the start of an action: the body continues after it, at `q`. */
  lemma BodyHead(ts: seq<Lexeme>, pos: nat, done: seq<Action>, a: TransformAction, q: nat)
    requires RenderableInvocation(a)
    requires Written(ts, pos, RenderInvocation(a)) && q == pos + InvocationLength(a) && q < |ts|
    ensures ParseBody(ts, pos, done) == ParseBody(ts, q, done + [Invoke(a)])
  {
    InvocationRoundTrip(ts, pos, a);
    BodyStep(ts, pos, done, Invoke(a), q);
  }

  /** Reading one invocation and then the rest of the body reads the whole body. */
  lemma BodyJoin(ts: seq<Lexeme>, pos: nat, done: seq<Action>, actions: seq<Action>, q: nat)
    requires actions != [] && actions[0].Invoke? && q == pos + InvocationLength(actions[0].action)
    requires pos < q < |ts|
    requires ParseBody(ts, pos, done) == ParseBody(ts, q, done + [actions[0]])
    requires ParseBody(ts, q, done + [actions[0]]) == Ok(done + [actions[0]] + actions[1..], q + BodyLength(actions[1..]) + 1)
    ensures ParseBody(ts, pos, done) == Ok(done + actions, pos + BodyLength(actions) + 1)
  {
    AppendHeadTail(done, actions);
    BodyLengthCons(actions);
  }

  /** A written invocation, read from the start of an action, is the invocation; it starts an action. */
  lemma InvocationRoundTrip(ts: seq<Lexeme>, pos: nat, a: TransformAction)
    requires RenderableInvocation(a)
    requires Written(ts, pos, RenderInvocation(a))
    ensures pos < |ts| && StartsAction(ts[pos].token)
    ensures ParseActionList(ts, pos, []) == Ok(Invoke(a), pos + InvocationLength(a))
  {
    WrittenIndex(ts, pos, RenderInvocation(a), 0);
    ActionListRoundTrip(ts, pos, [], a);
    assert [] + a.loops == a.loops;
  }

  /** One action read: the body continues after it. */
  lemma BodyStep(ts: seq<Lexeme>, pos: nat, done: seq<Action>, a: Action, q: nat)
    requires q < |ts| && pos < |ts| && StartsAction(ts[pos].token)
    requires ParseActionList(ts, pos, []) == Ok(a, q)
    ensures ParseBody(ts, pos, done) == ParseBody(ts, q, done + [a])
  {
  }

  /** A top-level statement that can be written: `set maxdepth` with a `usize`, or an invocation that can be written. */
  predicate RenderableStatement(a: Action) {
    match a
    case Set(setting) => setting.MaxDepth? && setting.depth <= USIZE_MAX
    case Invoke(t) => RenderableInvocation(t)
  }

  /** The number of words a top-level statement is written with. */
  function StatementLength(a: Action): nat {
    match a
    case Set(setting) => if setting.MaxDepth? then 3 else 0
    case Invoke(t) => InvocationLength(t)
  }

  /** A top-level statement: `set maxdepth d`, or an invocation. */
  function StatementWords(a: Action): (ws: seq<Word>)
    ensures |ws| == StatementLength(a)
  {
    match a
    case Set(setting) =>
      if setting.MaxDepth? then [Text(Token.Set, "set"), Text(Token.MaxDepth, "maxdepth"), Numeral(setting.depth)] else []
    case Invoke(t) => RenderInvocation(t)
  }

  /** A written `set maxdepth d` is read as that setting, and parsing goes on at `q`. */
  lemma SetRoundTrip(ts: seq<Lexeme>, pos: nat, rs: RuleSet, d: nat, q: nat)
    requires d <= USIZE_MAX && q == pos + 3
    requires Written(ts, pos, StatementWords(Action.Set(SetAction.MaxDepth(d))))
    ensures q <= |ts|
    ensures RulesFrom(ts, pos, false, rs) == RulesFrom(ts, q, false, rs.AddAction(Action.Set(SetAction.MaxDepth(d))))
  {
    var ws := StatementWords(Action.Set(SetAction.MaxDepth(d)));
    WrittenIndex(ts, pos, ws, 0);
    WrittenIndex(ts, pos, ws, 1);
    WrittenIndex(ts, pos, ws, 2);
    CountRoundTrip(d);
    assert ParseSet(ts, pos + 1) == Ok(SetAction.MaxDepth(d), q);
    SetStatement(ts, pos, rs);
  }

  /** A written invocation at the top level is added to the top-level rule, and parsing goes on at `q`. */
  lemma InvokeRoundTrip(ts: seq<Lexeme>, pos: nat, rs: RuleSet, t: TransformAction, q: nat)
    requires RenderableInvocation(t) && q == pos + InvocationLength(t)
    requires Written(ts, pos, RenderInvocation(t))
    ensures q <= |ts|
    ensures RulesFrom(ts, pos, false, rs) == RulesFrom(ts, q, false, rs.AddAction(Invoke(t)))
  {
    WrittenIndex(ts, pos, RenderInvocation(t), 0);
    if t.loops == [] {
      assert TransformAction([], t.rule) == t;
      BareInvocation(ts, pos, rs);
    } else {
      assert RenderInvocation(t)[0] == Numeral(t.loops[0].count);
      InvocationRoundTrip(ts, pos, t);
      LoopStatementStep(ts, pos, rs, Invoke(t), q);
    }
  }

  /** An action list starting with a count at the top level is added to the top-level rule. */
  lemma LoopStatementStep(ts: seq<Lexeme>, pos: nat, rs: RuleSet, a: Action, q: nat)
    requires pos < |ts| && ts[pos].token == LiteralInteger
    requires ParseActionList(ts, pos, []) == Ok(a, q)
    ensures q <= |ts|
    ensures RulesFrom(ts, pos, false, rs) == RulesFrom(ts, q, false, rs.AddAction(a))
  {
    ActionListStatement(ts, pos, rs);
  }

  /** A written top-level statement is added to the top-level rule, and parsing goes on at `q`. */
  lemma StatementRoundTrip(ts: seq<Lexeme>, pos: nat, rs: RuleSet, a: Action, q: nat)
    requires RenderableStatement(a) && q == pos + StatementLength(a)
    requires Written(ts, pos, StatementWords(a))
    ensures q <= |ts|
    ensures RulesFrom(ts, pos, false, rs) == RulesFrom(ts, q, false, rs.AddAction(a))
  {
    match a
    case Set(setting) => SetRoundTrip(ts, pos, rs, setting.depth, q);
    case Invoke(t) => InvokeRoundTrip(ts, pos, rs, t, q);
  }

  /** Every top-level statement can be written. */
  predicate RenderableStatements(actions: seq<Action>) {
    actions == [] || (RenderableStatement(actions[0]) && RenderableStatements(actions[1..]))
  }

  /** The number of words the top-level statements are written with. */
  function StatementsLength(actions: seq<Action>): nat {
    if actions == [] then 0 else StatementLength(actions[0]) + StatementsLength(actions[1..])
  }

  /** The top-level statements, one after another. */
  function StatementsWords(actions: seq<Action>): (ws: seq<Word>)
    ensures |ws| == StatementsLength(actions)
  {
    if actions == [] then [] else StatementWords(actions[0]) + StatementsWords(actions[1..])
  }

  /**
    Written top-level statements are added, in order, to the top-level rule;
    nothing else changes.  Parsing goes on at `end`, past the last statement,
    with the rule set `fin`.
   */
  lemma {:induction false} StatementsRoundTrip(ts: seq<Lexeme>, pos: nat, end: nat, rs: RuleSet, actions: seq<Action>, fin: RuleSet)
    requires RenderableStatements(actions)
    requires Written(ts, pos, StatementsWords(actions))
    requires end == pos + StatementsLength(actions)
    requires fin == RuleSet(Custom(rs.topLevel.name, rs.topLevel.actions + actions), rs.rules)
    ensures end <= |ts|
    ensures RulesFrom(ts, pos, false, rs) == RulesFrom(ts, end, false, fin)
    decreases |actions|
  {
    if actions == [] {
      AppendEmpty(rs.topLevel.actions);
    } else {
      var q := pos + StatementLength(actions[0]);
      StatementSplit(ts, pos, actions, q);
      StatementsNext(pos, q, end, rs, actions, fin);
      StatementRoundTrip(ts, pos, rs, actions[0], q);
      StatementsRoundTrip(ts, q, end, rs.AddAction(actions[0]), actions[1..], fin);
    }
  }

  /** Written statements start with the first statement, followed by the rest at `q`. */
  lemma StatementSplit(ts: seq<Lexeme>, pos: nat, actions: seq<Action>, q: nat)
    requires RenderableStatements(actions) && actions != [] && q == pos + StatementLength(actions[0])
    requires Written(ts, pos, StatementsWords(actions))
    ensures RenderableStatement(actions[0]) && Written(ts, pos, StatementWords(actions[0]))
    ensures RenderableStatements(actions[1..]) && Written(ts, q, StatementsWords(actions[1..]))
  {
    WrittenSplit(ts, pos, StatementWords(actions[0]), StatementsWords(actions[1..]), q);
  }

  /** After the first statement, the rest of the statements lead to the same end and the same rule set. */
  lemma StatementsNext(pos: nat, q: nat, end: nat, rs: RuleSet, actions: seq<Action>, fin: RuleSet)
    requires actions != [] && q == pos + StatementLength(actions[0])
    requires end == pos + StatementsLength(actions)
    requires fin == RuleSet(Custom(rs.topLevel.name, rs.topLevel.actions + actions), rs.rules)
    ensures end == q + StatementsLength(actions[1..])
    ensures fin == RuleSet(Custom(rs.AddAction(actions[0]).topLevel.name, rs.AddAction(actions[0]).topLevel.actions + actions[1..]),
                           rs.AddAction(actions[0]).rules)
  {
    AppendHeadTail(rs.topLevel.actions, actions);
  }

  /** A rule that can be written: a custom rule of depth 0, its name not starting with "rule ", its body invocations only. */
  predicate RenderableRule(r: Rule) {
    r.maxDepth == 0 && r.ty.CustomRule?
    && !(5 <= |r.ty.custom.name| && r.ty.custom.name[..5] == "rule ")
    && RenderableBody(r.ty.custom.actions)
  }

  /** The number of words a rule definition is written with. */
  function RuleLength(r: Rule): nat {
    if r.ty.CustomRule? then BodyLength(r.ty.custom.actions) + 3 else 0
  }

  /** A rule definition: `rule name`, `{`, the body and `}`. */
  function RuleWords(r: Rule): (ws: seq<Word>)
    ensures |ws| == RuleLength(r)
  {
    if r.ty.CustomRule? then
      [Text(RuleDefinition, "rule " + r.ty.custom.name), Text(BracketOpen, "{")] + RenderClosedBody(r.ty.custom.actions)
    else []
  }

  /** A written rule definition is pushed onto the rules, and parsing goes on at `q`. */
  lemma RuleRoundTrip(ts: seq<Lexeme>, pos: nat, rs: RuleSet, r: Rule, q: nat)
    requires RenderableRule(r) && q == pos + RuleLength(r)
    requires Written(ts, pos, RuleWords(r))
    ensures q <= |ts|
    ensures RulesFrom(ts, pos, false, rs) == RulesFrom(ts, q, false, rs.Push(r))
  {
    RuleTokens(ts, pos, r, q);
    TrimRuleName(r.ty.custom.name);
    RuleStep(ts, pos, rs, "rule " + r.ty.custom.name, r.ty.custom.name, r.ty.custom.actions, q);
  }

  /** A written rule is its definition token, `{`, and a body that reads back as its actions. */
  lemma RuleTokens(ts: seq<Lexeme>, pos: nat, r: Rule, q: nat)
    requires RenderableRule(r) && q == pos + RuleLength(r)
    requires Written(ts, pos, RuleWords(r))
    ensures pos + 2 < |ts| && ts[pos] == Lexeme(RuleDefinition, "rule " + r.ty.custom.name) && ts[pos + 1].token == BracketOpen
    ensures ParseBody(ts, pos + 2, []) == Ok(r.ty.custom.actions, q)
  {
    WrittenIndex(ts, pos, RuleWords(r), 0);
    WrittenIndex(ts, pos, RuleWords(r), 1);
    WrittenSplit(ts, pos, [Text(RuleDefinition, "rule " + r.ty.custom.name), Text(BracketOpen, "{")], RenderClosedBody(r.ty.custom.actions), pos + 2);
    BodyRoundTrip(ts, pos + 2, [], r.ty.custom.actions);
    assert [] + r.ty.custom.actions == r.ty.custom.actions;
  }

  /** `rule` and its text, `{`, and a body read as `actions`: the rule named by the trimmed text is pushed. */
  lemma RuleStep(ts: seq<Lexeme>, pos: nat, rs: RuleSet, text: string, name: string, actions: seq<Action>, q: nat)
    requires pos + 2 < |ts| && ts[pos] == Lexeme(RuleDefinition, text) && ts[pos + 1].token == BracketOpen
    requires TrimRule(text) == name
    requires ParseBody(ts, pos + 2, []) == Ok(actions, q)
    ensures q <= |ts|
    ensures RulesFrom(ts, pos, false, rs) == RulesFrom(ts, q, false, rs.Push(Rule(0, CustomRule(Custom(name, actions)))))
  {
    assert SkipPastOpen(ts, pos + 1) == pos + 2;
  }

  /** Every rule can be written. */
  predicate RenderableRules(rules: seq<Rule>) {
    rules == [] || (RenderableRule(rules[0]) && RenderableRules(rules[1..]))
  }

  /** The number of words the rule definitions are written with. */
  function RulesLength(rules: seq<Rule>): nat {
    if rules == [] then 0 else RuleLength(rules[0]) + RulesLength(rules[1..])
  }

  /** The rule definitions, one after another. */
  function RulesWords(rules: seq<Rule>): (ws: seq<Word>)
    ensures |ws| == RulesLength(rules)
  {
    if rules == [] then [] else RuleWords(rules[0]) + RulesWords(rules[1..])
  }

  /**
    Written rule definitions are pushed, in order, onto the rules; nothing
    else changes.  Parsing goes on at `end`, past the last definition, with
    the rule set `fin`.
   */
  lemma {:induction false} RulesRoundTrip(ts: seq<Lexeme>, pos: nat, end: nat, rs: RuleSet, rules: seq<Rule>, fin: RuleSet)
    requires RenderableRules(rules)
    requires Written(ts, pos, RulesWords(rules))
    requires end == pos + RulesLength(rules) && fin == RuleSet(rs.topLevel, rs.rules + rules)
    ensures end <= |ts|
    ensures RulesFrom(ts, pos, false, rs) == RulesFrom(ts, end, false, fin)
    decreases |rules|
  {
    if rules == [] {
      AppendEmpty(rs.rules);
    } else {
      var q := pos + RuleLength(rules[0]);
      RuleSplit(ts, pos, rules, q);
      RulesNext(pos, q, end, rs, rules, fin);
      RuleRoundTrip(ts, pos, rs, rules[0], q);
      RulesRoundTrip(ts, q, end, rs.Push(rules[0]), rules[1..], fin);
    }
  }

  /** Written rule definitions start with the first definition, followed by the rest at `q`. */
  lemma RuleSplit(ts: seq<Lexeme>, pos: nat, rules: seq<Rule>, q: nat)
    requires RenderableRules(rules) && rules != [] && q == pos + RuleLength(rules[0])
    requires Written(ts, pos, RulesWords(rules))
    ensures RenderableRule(rules[0]) && Written(ts, pos, RuleWords(rules[0]))
    ensures RenderableRules(rules[1..]) && Written(ts, q, RulesWords(rules[1..]))
  {
    WrittenSplit(ts, pos, RuleWords(rules[0]), RulesWords(rules[1..]), q);
  }

  /** After the first rule, the rest of the rules lead to the same end and the same rule set. */
  lemma RulesNext(pos: nat, q: nat, end: nat, rs: RuleSet, rules: seq<Rule>, fin: RuleSet)
    requires rules != [] && q == pos + RuleLength(rules[0])
    requires end == pos + RulesLength(rules) && fin == RuleSet(rs.topLevel, rs.rules + rules)
    ensures end == q + RulesLength(rules[1..])
    ensures fin == RuleSet(rs.Push(rules[0]).topLevel, rs.Push(rules[0]).rules + rules[1..])
  {
    AppendHeadTail(rs.rules, rules);
  }

  /**
    A rule set the parser can produce and that can be written: the top-level
    rule is named "Top Level" and holds statements that can be written, and
    every rule can be written.
   */
  predicate WellFormed(rs: RuleSet) {
    rs.topLevel.name == "Top Level" && RenderableStatements(rs.topLevel.actions) && RenderableRules(rs.rules)
  }

  /** The words of a rule set: its top-level statements, then its rule definitions. */
  function RuleSetWords(rs: RuleSet): (ws: seq<Word>)
    ensures |ws| == StatementsLength(rs.topLevel.actions) + RulesLength(rs.rules)
  {
    StatementsWords(rs.topLevel.actions) + RulesWords(rs.rules)
  }

  /** A rule set written out as a token stream. */
  function Render(rs: RuleSet): (ts: seq<Lexeme>)
    ensures |ts| == |RuleSetWords(rs)|
  {
    Spells(RuleSetWords(rs))
  }

  /** The parser reads a written rule set back as the same rule set, consuming every token. */
  lemma RenderRoundTrip(rs: RuleSet)
    requires WellFormed(rs)
    ensures Parse(Render(rs)) == Ok(rs, |Render(rs)|)
  {
    WrittenFrom(Render(rs), 0, RuleSetWords(rs));
    WrittenRoundTrip(Render(rs), rs);
  }

  /** A stream holding exactly the words of a rule set that can be written is parsed as that rule set. */
  lemma WrittenRoundTrip(ts: seq<Lexeme>, rs: RuleSet)
    requires WellFormed(rs)
    requires Written(ts, 0, RuleSetWords(rs)) && |ts| == |RuleSetWords(rs)|
    ensures Parse(ts) == Ok(rs, |ts|)
  {
    WrittenSplit(ts, 0, StatementsWords(rs.topLevel.actions), RulesWords(rs.rules), StatementsLength(rs.topLevel.actions));
    assert [] + rs.topLevel.actions == rs.topLevel.actions;
    assert [] + rs.rules == rs.rules;
    StatementsRoundTrip(ts, 0, StatementsLength(rs.topLevel.actions), NewRuleSet(), rs.topLevel.actions, RuleSet(rs.topLevel, []));
    RulesRoundTrip(ts, StatementsLength(rs.topLevel.actions), |ts|, RuleSet(rs.topLevel, []), rs.rules, rs);
  }

  /** Two rule sets that can be written and are written alike are the same rule set. */
  lemma RenderInjective(a: RuleSet, b: RuleSet)
    requires WellFormed(a) && WellFormed(b) && Render(a) == Render(b)
    ensures a == b
  {
    RenderRoundTrip(a);
    RenderRoundTrip(b);
  }
}
