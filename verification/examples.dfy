/**
  The parser's single-rule test read through the model: any program of the
  shape `rule NAME { CALLEE }` lexes to four tokens and parses to one custom
  rule, and `rule r1 { box }` is such a program.
 */
module Examples {
  import opened Options
  import opened Lexer
  import opened Rules
  import opened Parser
  import opened Render

  /** A word: a letter followed by letters and digits. */
  predicate IsWord(w: string) {
    0 < |w| && IsLetter(w[0]) && forall i :: 0 <= i < |w| ==> IsAlnum(w[i])
  }

  /** The program text of a rule `name` whose body invokes `callee`, as `rule r1 { box }` is written. */
  function OneRuleSource(name: string, callee: string): string {
    "rule " + name + " { " + callee + " }"
  }

  /** The lexemes of `OneRuleSource(name, callee)`. */
  function OneRuleTokens(name: string, callee: string): seq<Lexeme> {
    [Lexeme(RuleDefinition, "rule " + name), Lexeme(BracketOpen, "{"), Lexeme(RuleInvocation, callee), Lexeme(BracketClose, "}")]
  }

  /** The program text lexes to a definition, a bracket, an invocation of `callee` and a bracket. */
  lemma OneRuleLexes(name: string, callee: string)
    requires IsWord(name) && IsWord(callee) && Keyword(callee).None?
    ensures Lex(OneRuleSource(name, callee)) == OneRuleTokens(name, callee)
  {
    var open := " { " + (callee + " }");
    SourceSplit(name, callee);
    RuleDefinitionToken(name, open);
    OpenLexes(callee + " }");
    CallLexes(callee);
    TokensSplit(name, callee);
  }

  lemma SourceSplit(name: string, callee: string)
    ensures OneRuleSource(name, callee) == "rule " + name + (" { " + (callee + " }"))
  {
  }

  lemma TokensSplit(name: string, callee: string)
    ensures OneRuleTokens(name, callee)
         == [Lexeme(RuleDefinition, "rule " + name)] + ([Lexeme(BracketOpen, "{")] + [Lexeme(RuleInvocation, callee), Lexeme(BracketClose, "}")])
  {
  }

  /** ` { ` before a text is an opening bracket. */
  lemma OpenLexes(rest: string)
    ensures Lex(" { " + rest) == [Lexeme(BracketOpen, "{")] + Lex(rest)
  {
    OpenSplit(rest);
    SpaceLexes("{" + (" " + rest));
    BracketLexes('{', " " + rest);
    SpaceLexes(rest);
  }

  lemma OpenSplit(rest: string)
    ensures " { " + rest == " " + ("{" + (" " + rest))
  {
  }

  /** A leading space produces nothing. */
  lemma SpaceLexes(rest: string)
    ensures Lex(" " + rest) == Lex(rest)
  {
    SpacesSkipped(" ", rest);
  }

  /** A leading bracket is a token of its own. */
  lemma BracketLexes(c: char, rest: string)
    requires c in "{}"
    ensures Lex([c] + rest) == [Lexeme(Bracket(c), [c])] + Lex(rest)
  {
    BracketToken(c, rest);
  }

  /** A word that is no keyword, then ` }`, is an invocation and a closing bracket. */
  lemma CallLexes(callee: string)
    requires IsWord(callee) && Keyword(callee).None?
    ensures Lex(callee + " }") == [Lexeme(RuleInvocation, callee), Lexeme(BracketClose, "}")]
  {
    WordToken(callee, " }");
    CloseLexes();
  }

  /** ` }` is a closing bracket. */
  lemma CloseLexes()
    ensures Lex(" }") == [Lexeme(BracketClose, "}")]
  {
    assert " }" == " " + ['}'];
    SpaceLexes(['}']);
    assert ['}'] == ['}'] + [];
    BracketLexes('}', []);
  }

  /** The tokens parse to one custom rule named `name` whose body invokes `callee`, and nothing at top level. */
  lemma OneRuleParses(ts: seq<Lexeme>, name: string, callee: string)
    requires IsWord(name)
    requires |ts| == 4 && ts[0] == Lexeme(RuleDefinition, "rule " + name) && ts[1].token == BracketOpen
    requires ts[2] == Lexeme(RuleInvocation, callee) && ts[3].token == BracketClose
    ensures Parse(ts) == Ok(RuleSet(Custom("Top Level", []), [Rule(0, CustomRule(Custom(name, [Invoke(TransformAction([], callee))])))]), 4)
  {
    var actions := [Invoke(TransformAction([], callee))];
    var rule := Rule(0, CustomRule(Custom(name, actions)));
    OneBody(ts, callee);
    OneRuleSteps(ts, NewRuleSet(), actions);
    NoRulePrefix(name);
    TrimRuleName(name);
    assert NewRuleSet().Push(rule) == RuleSet(Custom("Top Level", []), [rule]);
  }

  /** A definition whose body ends the stream pushes its rule, and parsing ends there. */
  lemma OneRuleSteps(ts: seq<Lexeme>, rs: RuleSet, actions: seq<Action>)
    requires 2 < |ts| && ts[0].token == RuleDefinition && ts[1].token == BracketOpen
    requires ParseBody(ts, 2, []) == Ok(actions, |ts|)
    ensures RulesFrom(ts, 0, false, rs) == Ok(rs.Push(Rule(0, CustomRule(Custom(TrimRule(ts[0].slice), actions)))), |ts|)
  {
    var text := ts[0].slice;
    RuleStep(ts, 0, rs, text, TrimRule(text), actions, |ts|);
    EndOfStream(ts, rs.Push(Rule(0, CustomRule(Custom(TrimRule(text), actions)))));
  }

  /** At the end of the stream, parsing returns the rule set built so far. */
  lemma EndOfStream(ts: seq<Lexeme>, rs: RuleSet)
    ensures RulesFrom(ts, |ts|, false, rs) == Ok(rs, |ts|)
  {
  }

  /** A word contains no space, so it does not start with "rule ". */
  lemma NoRulePrefix(name: string)
    requires IsWord(name)
    ensures !(5 <= |name| && name[..5] == "rule ")
  {
    if 5 <= |name| {
      assert IsAlnum(name[4]);
      assert name[..5][4] == name[4];
    }
  }

  /** The body `callee }` at position 2 holds the one invocation. */
  lemma OneBody(ts: seq<Lexeme>, callee: string)
    requires |ts| == 4 && ts[2] == Lexeme(RuleInvocation, callee) && ts[3].token == BracketClose
    ensures ParseBody(ts, 2, []) == Ok([Invoke(TransformAction([], callee))], 4)
  {
    var call := Invoke(TransformAction([], callee));
    assert ParseActionList(ts, 2, []) == Ok(call, 3);
    BodyStep(ts, 2, [], call, 3);
    assert [] + [call] == [call];
  }

  /** The crate's `rule_definition_single` test: the program defines exactly one non-primitive rule. */
  lemma RuleDefinitionSingle()
    ensures ParseSource("rule r1 { box }").Ok?
    ensures |CustomRules(ParseSource("rule r1 { box }").value.rules)| == 1
  {
    assert IsWord("r1") && IsWord("box") && Keyword("box").None?;
    assert OneRuleSource("r1", "box") == "rule r1 { box }";
    OneRuleLexes("r1", "box");
    OneRuleParses(OneRuleTokens("r1", "box"), "r1", "box");
  }
}
