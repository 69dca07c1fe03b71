/**
  The Assetic node visitor: on leaving a call to a registered Assetic filter
  function (a configured filter function such as `yui_css(...)`) it works out
  the asset formula, checks that the template's bundle is enabled, and replaces
  the call by `assetic.use_controller ? path('_assetic_' ~ name) : asset(call, package)`.

  The services the visitor calls are parameters: the Twig environment's
  function registry, the constant evaluator of call arguments, the filter
  invokers and their factory, the template's file name, and the template name
  parser.
*/
module Visitor {
  import opened Wrappers
  import opened Php
  import opened TwigNodes

  /** What the template name parser returns for a file: a framework
      TemplateReference, which may name a bundle, or some other reference. */
  datatype TemplateRef =
    | BundleTemplate(bundle: Option<string>, logicalName: string)
    | OtherTemplate(logicalName: string)

  /** A filter invoker: the filters and options registered for one function. */
  datatype Invoker = Invoker(filters: seq<string>, options: seq<Entry>)

  datatype Environment = Environment(
    /** `getFunction(name) instanceof AsseticFilterFunction` */
    isAsseticFunction: string -> bool,
    /** `eval('return '.compile(argument).';')`; None when it fails */
    evaluate: Node -> Option<Value>,
    /** `getExtension('assetic')->getFilterInvoker(name)` */
    invoker: string -> Invoker,
    /** the invoker factory's `generateAssetName(inputs, filters)` */
    generateAssetName: (seq<Entry>, seq<string>) -> string,
    /** the parser stream's file name */
    filename: string)

  /** An asset formula: inputs, filters and options. */
  datatype Formula = Formula(inputs: seq<Entry>, filters: seq<string>, options: seq<Entry>)

  datatype VisitError =
      /** an argument that does not evaluate to a constant aborts compilation */
    | NonConstantArgument(functionName: string, index: nat)
      /** a second argument that is not an array makes `array_replace` fail */
    | OptionsNotArray(functionName: string)
      /** InvalidBundleException */
    | InvalidBundle(bundle: string, usage: string, template: string, enabled: seq<string>)

  const NameKey: Key := StrKey("name")
  const PackageKey: Key := StrKey("package")

  /** The node is a call of a registered Assetic filter function. */
  predicate Matches(node: Node, env: Environment)
  {
    node.FunctionExpr? && env.isAsseticFunction(node.name)
  }

  // ---------------------------------------------------------------------------
  // checkNode

  /** The arguments evaluated left to right; the first one that fails stops
      the evaluation with its index. */
  function Evaluated(eval: Node -> Option<Value>, args: seq<Node>): Result<seq<Value>, nat>
    decreases |args|
  {
    if args == [] then Ok([])
    else match Evaluated(eval, args[..|args| - 1])
      case Err(i) => Err(i)
      case Ok(vs) =>
        match eval(args[|args| - 1])
        case None => Err(|args| - 1)
        case Some(v) => Ok(vs + [v])
  }

  /** Evaluation succeeds exactly when every argument evaluates, and then yields
      their values in order; otherwise it names the first argument that fails. */
  lemma {:induction false} EvaluatedMeaning(eval: Node -> Option<Value>, args: seq<Node>)
    ensures Evaluated(eval, args).Ok? <==> forall i :: 0 <= i < |args| ==> eval(args[i]).Some?
    ensures Evaluated(eval, args).Ok? ==>
      var vs := Evaluated(eval, args).value;
      |vs| == |args| && forall i :: 0 <= i < |args| ==> eval(args[i]) == Some(vs[i])
    ensures Evaluated(eval, args).Err? ==>
      var i := Evaluated(eval, args).error;
      i < |args| && eval(args[i]).None? && forall j :: 0 <= j < i ==> eval(args[j]).Some?
    decreases |args|
  {
    if args != [] {
      var init := args[..|args| - 1];
      EvaluatedMeaning(eval, init);
      assert forall i :: 0 <= i < |init| ==> init[i] == args[i];
    }
  }

  lemma {:induction false} EvaluatedSticky(eval: Node -> Option<Value>, args: seq<Node>, n: nat)
    requires n <= |args|
    requires Evaluated(eval, args[..n]).Err?
    ensures Evaluated(eval, args) == Evaluated(eval, args[..n])
    decreases |args|
  {
    if n == |args| {
      assert args[..n] == args;
    } else {
      var init := args[..|args| - 1];
      assert init[..n] == args[..n];
      EvaluatedSticky(eval, init, n);
    }
  }

  /** Argument 0, cast to an array; the empty array when it is not set. */
  function Inputs(arguments: seq<Value>): seq<Entry>
  {
    if IsSetAt(arguments, 0) then CastToArray(arguments[0]) else []
  }

  /** Argument 1 as `array_replace` takes it; None when it is set but not an array. */
  function Overrides(arguments: seq<Value>): Option<seq<Entry>>
  {
    if !IsSetAt(arguments, 1) then Some([])
    else if arguments[1].Array? then Some(arguments[1].entries)
    else None
  }

  /** `if (!isset($options['name'])) $options['name'] = $generated;` */
  function WithName(options: seq<Entry>, generated: string): seq<Entry>
  {
    if IsSet(options, NameKey) then options else Put(options, NameKey, Str(generated))
  }

  /** The formula of a call of function `name` with the evaluated `arguments`. */
  function BuildFormula(env: Environment, name: string, arguments: seq<Value>): Result<Formula, VisitError>
  {
    var invoker := env.invoker(name);
    var inputs := Inputs(arguments);
    match Overrides(arguments)
    case None => Err(OptionsNotArray(name))
    case Some(over) =>
      var options := Replace(invoker.options, over);
      Ok(Formula(inputs, invoker.filters, WithName(options, env.generateAssetName(inputs, invoker.filters))))
  }

  /** The formula of a matched call, or the error that aborts it. */
  function FormulaFor(node: Node, env: Environment): Result<Formula, VisitError>
    requires node.FunctionExpr?
  {
    match Evaluated(env.evaluate, Children(node.arguments))
    case Err(i) => Err(NonConstantArgument(node.name, i))
    case Ok(arguments) => BuildFormula(env, node.name, arguments)
  }

  // ---------------------------------------------------------------------------
  // doLeaveNode

  /** The bundle check: a truthy bundle that is not enabled is refused; a template
      whose reference names no bundle is never refused. */
  predicate Rejects(ref: TemplateRef, enabled: seq<string>)
  {
    ref.BundleTemplate? && ref.bundle.Some? && TruthyString(ref.bundle.value) && ref.bundle.value !in enabled
  }

  function InvalidBundleError(ref: TemplateRef, functionName: string, enabled: seq<string>): VisitError
    requires Rejects(ref, enabled)
  {
    InvalidBundle(ref.bundle.value, "the " + functionName + "() function", ref.logicalName, enabled)
  }

  /** `assetic.use_controller`, looked up as an array entry */
  function UseController(line: int): Node
  {
    GetAttrExpr(NameExpr("assetic", line), ConstantExpr(Str("use_controller"), line), ArrayExpr([], 0), ArrayCall, line)
  }

  /** `$options['name']` as the string it is concatenated as. */
  function AssetName(options: seq<Entry>): string
  {
    match Get(options, NameKey)
    case Some(v) => ToPhpString(v)
    case None => ""
  }

  /** `isset($options['package']) ? $options['package'] : null` */
  function Package(options: seq<Entry>): Value
  {
    if IsSet(options, PackageKey) then Get(options, PackageKey).value else Null
  }

  /** The node that replaces a matched call. */
  function Conditional(node: Node, options: seq<Entry>): Node
  {
    var line := GetLine(node);
    ConditionalExpr(
      UseController(line),
      FunctionExpr("path", NodeList([ConstantExpr(Str("_assetic_" + AssetName(options)), line)], 0), line),
      FunctionExpr("asset", NodeList([node, ConstantExpr(Package(options), line)], 0), line),
      line)
  }

  /** What leaving `node` gives: the node itself, its replacement or an error. */
  function LeaveNode(node: Node, env: Environment, parser: string -> TemplateRef, enabled: seq<string>): Result<Node, VisitError>
  {
    if !Matches(node, env) then Ok(node)
    else match FormulaFor(node, env)
      case Err(e) => Err(e)
      case Ok(f) =>
        var ref := parser(env.filename);
        if Rejects(ref, enabled) then Err(InvalidBundleError(ref, node.name, enabled))
        else Ok(Conditional(node, f.options))
  }

  class AsseticNodeVisitor {
    const templateNameParser: string -> TemplateRef
    const enabledBundles: seq<string>

    constructor (templateNameParser: string -> TemplateRef, enabledBundles: seq<string>)
      ensures this.templateNameParser == templateNameParser
      ensures this.enabledBundles == enabledBundles
    {
      this.templateNameParser := templateNameParser;
      this.enabledBundles := enabledBundles;
    }

    /** Entering a node changes nothing. */
    function DoEnterNode(node: Node, env: Environment): (r: Node)
      ensures r == node
    {
      node
    }

    /** checkNode: the formula of a matched call (None for any other node) and,
        for a function call, the function's name. */
    method CheckNode(node: Node, env: Environment) returns (formula: Result<Option<Formula>, VisitError>, name: Option<string>)
      ensures name == if node.FunctionExpr? then Some(node.name) else None
      ensures !Matches(node, env) ==> formula == Ok(None)
      ensures Matches(node, env) ==>
        formula == match FormulaFor(node, env) case Ok(f) => Ok(Some(f)) case Err(e) => Err(e)
    {
      if !node.FunctionExpr? {
        return Ok(None), None;
      }
      name := Some(node.name);
      if !env.isAsseticFunction(node.name) {
        return Ok(None), name;
      }
      var args := Children(node.arguments);
      var arguments: seq<Value> := [];
      var i := 0;
      while i < |args|
        invariant 0 <= i <= |args|
        invariant Evaluated(env.evaluate, args[..i]) == Ok(arguments)
      {
        var v := env.evaluate(args[i]);
        assert args[..i + 1][..i] == args[..i];
        if v.None? {
          EvaluatedSticky(env.evaluate, args, i + 1);
          return Err(NonConstantArgument(node.name, i)), name;
        }
        arguments := arguments + [v.value];
        i := i + 1;
      }
      assert args[..|args|] == args;
      match BuildFormula(env, node.name, arguments)
      case Ok(f) => formula := Ok(Some(f));
      case Err(e) => formula := Err(e);
    }

    /** doLeaveNode: a matched call is checked against the enabled bundles and
        replaced by the conditional; every other node is returned as it is. */
    method DoLeaveNode(node: Node, env: Environment) returns (r: Result<Node, VisitError>)
      ensures r == LeaveNode(node, env, templateNameParser, enabledBundles)
    {
      var formula, name := CheckNode(node, env);
      match formula
      case Err(e) =>
        r := Err(e);
      case Ok(None) =>
        r := Ok(node);
      case Ok(Some(f)) =>
        var ref := templateNameParser(env.filename);
        var bundle := if ref.BundleTemplate? then ref.bundle else None;
        if bundle.Some? && TruthyString(bundle.value) && bundle.value !in enabledBundles {
          r := Err(InvalidBundle(bundle.value, "the " + name.value + "() function", ref.logicalName, enabledBundles));
        } else {
          r := Ok(Conditional(node, f.options));
        }
    }

    /** The visitor's priority among Twig node visitors. */
    function GetPriority(): (p: int)
      ensures p == 0
    {
      0
    }
  }

  // ---------------------------------------------------------------------------
  // Properties of the pass

  /** A node is returned unchanged exactly when it is not a call of an Assetic
      filter function. */
  lemma LeaveNodeIdentity(node: Node, env: Environment, parser: string -> TemplateRef, enabled: seq<string>)
    ensures LeaveNode(node, env, parser, enabled) == Ok(node) <==> !Matches(node, env)
  {
  }

  /** The invalid-bundle error is raised exactly for a matched call whose
      formula resolves and whose template names a truthy bundle that is not
      enabled; it carries the bundle, the function, the template and the list. */
  lemma LeaveNodeRejects(node: Node, env: Environment, parser: string -> TemplateRef, enabled: seq<string>)
    ensures var r := LeaveNode(node, env, parser, enabled);
      r.Err? && r.error.InvalidBundle? <==>
        Matches(node, env) && FormulaFor(node, env).Ok? && Rejects(parser(env.filename), enabled)
    ensures var r := LeaveNode(node, env, parser, enabled);
      r.Err? && r.error.InvalidBundle? ==>
        var ref := parser(env.filename);
        r.error == InvalidBundle(ref.bundle.value, "the " + node.name + "() function", ref.logicalName, enabled)
  {
  }

  /** A template whose bundle cannot be determined passes the check. */
  lemma UnresolvedBundleAccepted(node: Node, env: Environment, parser: string -> TemplateRef, enabled: seq<string>)
    requires parser(env.filename).OtherTemplate? || parser(env.filename).bundle.None?
    ensures var r := LeaveNode(node, env, parser, enabled);
      r.Ok? || !r.error.InvalidBundle?
  {
  }

  /** On success a matched call becomes the conditional: the test reads
      `assetic.use_controller`, the true branch calls `path` with the one
      argument '_assetic_' plus the formula's name, and the false branch calls
      `asset` with exactly the original call and the package (or null). */
  lemma LeaveNodeRewrites(node: Node, env: Environment, parser: string -> TemplateRef, enabled: seq<string>)
    requires Matches(node, env) && FormulaFor(node, env).Ok?
    requires !Rejects(parser(env.filename), enabled)
    ensures var r := LeaveNode(node, env, parser, enabled);
      var options := FormulaFor(node, env).value.options;
      var line := node.line;
      r.Ok? && r.value.ConditionalExpr? && r.value.line == line &&
      r.value.expr1 == GetAttrExpr(NameExpr("assetic", line), ConstantExpr(Str("use_controller"), line),
                                   ArrayExpr([], 0), ArrayCall, line) &&
      r.value.expr2 == FunctionExpr("path", NodeList([ConstantExpr(Str("_assetic_" + AssetName(options)), line)], 0), line) &&
      r.value.expr3 == FunctionExpr("asset", NodeList([node, ConstantExpr(Package(options), line)], 0), line)
  {
  }

  /** Every node the rewrite builds carries the call's line, except the empty
      argument array of the `use_controller` lookup, built at line 0, and the
      argument-list wrappers. */
  lemma ConditionalStamped(node: Node, options: seq<Entry>)
    ensures Stamped(Conditional(node, options), GetLine(node), {node, ArrayExpr([], 0)})
  {
    var line := GetLine(node);
    var kept := {node, ArrayExpr([], 0)};
    var r := Conditional(node, options);
    assert Stamped(NameExpr("assetic", line), line, kept);
    assert Stamped(ConstantExpr(Str("use_controller"), line), line, kept);
    assert Stamped(ArrayExpr([], 0), line, kept);
    assert Stamped(r.expr1, line, kept);
    assert Stamped(ConstantExpr(Str("_assetic_" + AssetName(options)), line), line, kept);
    assert Stamped(r.expr2.arguments, line, kept);
    assert Stamped(r.expr2, line, kept);
    assert Stamped(node, line, kept);
    assert Stamped(ConstantExpr(Package(options), line), line, kept);
    assert Stamped(r.expr3.arguments, line, kept);
    assert Stamped(r.expr3, line, kept);
  }

  /** The inputs are argument 0 cast to an array: empty when it is not set, the
      array itself when it is one, a one-element list for any other value;
      the filters are the invoker's, and the formula fails only for a second
      argument that is set but is not an array. */
  lemma BuildFormulaParts(env: Environment, name: string, arguments: seq<Value>)
    ensures BuildFormula(env, name, arguments).Err? <==> IsSetAt(arguments, 1) && !arguments[1].Array?
    ensures BuildFormula(env, name, arguments).Ok? ==>
      var f := BuildFormula(env, name, arguments).value;
      && (!IsSetAt(arguments, 0) ==> f.inputs == [])
      && (IsSetAt(arguments, 0) && arguments[0].Array? ==> f.inputs == arguments[0].entries)
      && (IsSetAt(arguments, 0) && !arguments[0].Array? ==> f.inputs == [Entry(IntKey(0), arguments[0])])
      && f.filters == env.invoker(name).filters
  {
  }

  /** The name defaulting: afterwards `name` is set; a name that was set is
      kept and nothing else changes; otherwise `name` is the generated one. */
  lemma {:induction false} NameDefaulted(options: seq<Entry>, generated: string)
    ensures IsSet(WithName(options, generated), NameKey)
    ensures IsSet(options, NameKey) ==> WithName(options, generated) == options
    ensures !IsSet(options, NameKey) ==> Get(WithName(options, generated), NameKey) == Some(Str(generated))
    ensures forall k :: k != NameKey ==> Get(WithName(options, generated), k) == Get(options, k)
    ensures WellFormed(options) ==> WellFormed(WithName(options, generated))
  {
    if !IsSet(options, NameKey) {
      PutGet(options, NameKey, Str(generated), NameKey);
      forall k | k != NameKey ensures Get(WithName(options, generated), k) == Get(options, k) {
        PutGet(options, NameKey, Str(generated), k);
      }
      if WellFormed(options) {
        PutWellFormed(options, NameKey, Str(generated));
      }
    }
  }

  /** The options of a formula are the invoker's options with every key of
      argument 1 overriding, all other keys kept, and `name` defaulted. */
  lemma {:induction false} FormulaOptions(env: Environment, name: string, arguments: seq<Value>, k: Key)
    requires BuildFormula(env, name, arguments).Ok?
    requires WellFormed(env.invoker(name).options)
    requires WellFormed(Overrides(arguments).value)
    ensures var f := BuildFormula(env, name, arguments).value;
      var defaults := env.invoker(name).options;
      var over := Overrides(arguments).value;
      var merged := Replace(defaults, over);
      && WellFormed(f.options)
      && IsSet(f.options, NameKey)
      && (k != NameKey ==> Get(f.options, k) == if HasKey(over, k) then Get(over, k) else Get(defaults, k))
      && (IsSet(merged, NameKey) ==> f.options == merged)
      && (!IsSet(merged, NameKey) ==>
            Get(f.options, NameKey) == Some(Str(env.generateAssetName(f.inputs, f.filters))))
  {
    var defaults := env.invoker(name).options;
    var over := Overrides(arguments).value;
    var merged := Replace(defaults, over);
    var inputs := Inputs(arguments);
    ReplaceWellFormed(defaults, over);
    ReplaceGet(defaults, over, k);
    NameDefaulted(merged, env.generateAssetName(inputs, env.invoker(name).filters));
  }
}
