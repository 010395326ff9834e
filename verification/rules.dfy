/**
  The rule set the parser builds (src/lib.rs), in the shape src/parser.rs
  uses it: a top-level custom rule collecting the actions found outside any
  rule definition, and the list of defined rules.
 */
module Rules {

  /** The built-in shapes a rule can stand for. */
  datatype Primitive = Box | Sphere | Dot | Grid | Cylinder | Line | Mesh | Template | Other

  /** A named rule whose body is a list of actions. */
  datatype Custom = Custom(name: string, actions: seq<Action>)

  datatype RuleType = PrimitiveRule(primitive: Primitive) | CustomRule(custom: Custom)

  /** A rule with its recursion limit (`max_depth`, a `usize`). */
  datatype Rule = Rule(maxDepth: nat, ty: RuleType)

  /** The nine fields of a transform block: translation, rotation angles and scale. */
  datatype Transform = Transform(x: real, y: real, z: real, rx: real, ry: real, rz: real, sx: real, sy: real, sz: real)

  /** No translation, no rotation, unit scale. */
  const DefaultTransform := Transform(0.0, 0.0, 0.0, 0.0, 0.0, 0.0, 1.0, 1.0, 1.0)

  /** A transform applied `count` times (a `usize`). */
  datatype TransformationLoop = TransformationLoop(count: nat, transform: Transform)

  /** The global settings a `set` statement can change. */
  datatype SetAction =
    | MaxDepth(depth: nat)
    | MaxObjects(objects: nat)
    | MinSize(minSize: real)
    | MaxSize(maxSize: real)
    | Seed(seed: nat)
    | ResetSeed
    | Background(colour: string)

  /** An invocation of the rule `rule` through a chain of transformation loops. */
  datatype TransformAction = TransformAction(loops: seq<TransformationLoop>, rule: string)

  /** A statement: a global setting, or a (transformed) rule invocation. */
  datatype Action = Set(setting: SetAction) | Invoke(action: TransformAction)

  datatype RuleSet = RuleSet(topLevel: Custom, rules: seq<Rule>)
  {
    /** Appends a rule definition; nothing else changes. */
    function Push(rule: Rule): (r: RuleSet)
      ensures |r.rules| == |rules| + 1 && r.rules[|rules|] == rule
      ensures r.rules[..|rules|] == rules
      ensures r.topLevel == topLevel
    {
      RuleSet(topLevel, rules + [rule])
    }

    /** Appends an action to the top-level rule; nothing else changes. */
    function AddAction(action: Action): (r: RuleSet)
      ensures r.topLevel.name == topLevel.name
      ensures |r.topLevel.actions| == |topLevel.actions| + 1 && r.topLevel.actions[|topLevel.actions|] == action
      ensures r.topLevel.actions[..|topLevel.actions|] == topLevel.actions
      ensures r.rules == rules
    {
      RuleSet(Custom(topLevel.name, topLevel.actions + [action]), rules)
    }
  }

  /** The empty rule set: a top-level rule named "Top Level" with no actions, and no rules. */
  function NewRuleSet(): (r: RuleSet)
    ensures r.topLevel.name == "Top Level" && r.topLevel.actions == [] && r.rules == []
  {
    RuleSet(Custom("Top Level", []), [])
  }

  /** The rules of a set that are not primitives. */
  function CustomRules(rules: seq<Rule>): (r: seq<Rule>)
    ensures |r| <= |rules|
    ensures forall x <- r :: x in rules && x.ty.CustomRule?
    ensures forall x <- rules :: x.ty.CustomRule? ==> x in r
  {
    if rules == [] then []
    else if rules[0].ty.CustomRule? then [rules[0]] + CustomRules(rules[1..])
    else CustomRules(rules[1..])
  }

  /** Filtering distributes over appending one rule. */
  lemma {:induction false} CustomRulesPush(rules: seq<Rule>, rule: Rule)
    ensures CustomRules(rules + [rule]) == CustomRules(rules) + (if rule.ty.CustomRule? then [rule] else [])
  {
    if rules == [] {
      assert rules + [rule] == [rule];
    } else {
      assert (rules + [rule])[1..] == rules[1..] + [rule];
      CustomRulesPush(rules[1..], rule);
    }
  }
}
