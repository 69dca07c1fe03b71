# Assetic Twig integration: a Dafny model

This project models the Twig side of the Symfony AsseticBundle. It covers two pieces.

- **The Assetic node visitor** (`Visitor`, file `AsseticNodeVisitor.dfy`). When the visitor leaves a call to a registered Assetic filter function, it:
  - evaluates the call's constant arguments;
  - builds the asset formula (inputs, filters, options);
  - gives the formula a generated `name` if it has none;
  - refuses templates whose bundle is not enabled;
  - replaces the call by `assetic.use_controller ? path('_assetic_' ~ name) : asset(call, package)`.
- **The Assetic tag node's URL emission** (`AsseticNodes`, file `AsseticNode.dfy`). This part builds:
  - the hash of asset vars;
  - the `path(...)` call;
  - the `asset(...)` call around a `TargetPathNode`;
  - the four fragments `compileAssetUrl` writes to the compiler.

Supporting modules:
- `Php` models PHP values. A PHP array is an ordered list of key/value entries. The module also has `$a[k] = v`, `array_replace`, `isset` and the `(array)` cast, with lemmas about lookup, key order and well-formedness.
- `TwigNodes` has the Twig expression nodes, each with a line, and the `Stamped` predicate. `Stamped` says that every node of a tree carries a given line.
- `Wrappers` has `Option` and `Result`.

The outside services become parameters of type `Environment`:
- the function registry;
- the constant evaluator of arguments (PHP `eval` of compiled code);
- the filter invokers and their factory's `generateAssetName`;
- the template's file name.

The template name parser is a constructor argument of `AsseticNodeVisitor`, as in the source.

Notes on the node shapes:
- Twig's `ArrayExpression` reads its elements as alternating key, value. So the vars list `[Const(v1), lookup(v1), Const(v2), lookup(v2), ...]` is one hash argument `{v1: assetic.vars[v1], ...}` (`VarPairsAsHash`). These are not flat trailing arguments of `path`: the code passes a single array argument.
- Twig's plain `Node` built from an argument array gets line 0, because no line is passed. So the line property exempts these argument lists, both in the rewrite and in the emitted calls. In the visitor it also exempts the empty `ArrayExpression`, which is built explicitly at line 0.

## Model

| member | source | states |
|---|---|---|
| `Visitor.AsseticNodeVisitor.constructor` | Twig/AsseticNodeVisitor.php:39-43 | the visitor keeps the template name parser and the enabled bundle list it was given |
| `Visitor.AsseticNodeVisitor.DoEnterNode` | Twig/AsseticNodeVisitor.php:45-48 | entering a node returns that same node |
| `Visitor.AsseticNodeVisitor.CheckNode` | Twig/AsseticNodeVisitor.php:96-120 | the loop evaluates the arguments left to right and stops at the first one that fails. A function call reports its name and any other node reports none. A non-matching node gives no formula, and a matching call gives the formula built from its evaluated arguments or the error that stops it |
| `Visitor.AsseticNodeVisitor.DoLeaveNode` | Twig/AsseticNodeVisitor.php:50-89 | the result is exactly the specification `LeaveNode`: the node itself, the invalid-bundle error or the conditional node |
| `Visitor.AsseticNodeVisitor.GetPriority` | Twig/AsseticNodeVisitor.php:122-125 | the visitor runs at priority 0 |
| `Visitor.EvaluatedMeaning` | Twig/AsseticNodeVisitor.php:101-104 | argument evaluation succeeds iff every argument evaluates, and then yields one value per argument in order. Otherwise it names the first failing argument, and all arguments before it evaluated |
| `Visitor.LeaveNodeIdentity` | Twig/AsseticNodeVisitor.php:50-54 | leaving a node returns it unchanged iff it is not a call of an Assetic filter function (it is not a `FunctionExpression`, or its registered function is not an Assetic one) |
| `Visitor.LeaveNodeRejects` | Twig/AsseticNodeVisitor.php:56-61 | the invalid-bundle error is raised iff three things hold: the call matches, its formula resolves, and the template reference is a framework reference with a truthy bundle outside the enabled list. The error carries the bundle, "the NAME() function", the logical name and the enabled list |
| `Visitor.UnresolvedBundleAccepted` | Twig/AsseticNodeVisitor.php:57-59 | a template whose reference has no bundle (not a framework reference, or a null bundle) never gets the invalid-bundle error |
| `Visitor.LeaveNodeRewrites` | Twig/AsseticNodeVisitor.php:63-88 | an accepted call becomes a conditional on `assetic.use_controller` (an array lookup with an empty argument array at line 0). Its true branch is `path` with the one argument `'_assetic_'` plus the formula's name. Its false branch is `asset` with exactly two arguments: the original call and the package option, or null |
| `Visitor.ConditionalStamped` | Twig/AsseticNodeVisitor.php:64-87 | every node of the replacement carries the original call's line, except the kept original call, the empty line-0 array and the argument-list wrappers |
| `Visitor.BuildFormulaParts` | Twig/AsseticNodeVisitor.php:109-111 | the inputs depend on argument 0. They are empty when it is unset or null, the array itself when it is an array, and the one-element list `[0 => v]` for a scalar. The filters are the invoker's. Building fails iff argument 1 is set and is not an array |
| `Visitor.FormulaOptions` | Twig/AsseticNodeVisitor.php:110-115 | the options start from the invoker's, and every key of argument 1 overrides while every other key is kept. A `name` that was set leaves the merged options untouched; a missing `name` becomes `generateAssetName(inputs, filters)`. The options stay well formed and always have `name` set |
| `Visitor.NameDefaulted` | Twig/AsseticNodeVisitor.php:113-115 | after defaulting, `name` is set. An existing name leaves the array unchanged, a missing one becomes the generated name, and no other key changes |
| `Php.ReplaceGet` | Twig/AsseticNodeVisitor.php:111 | with `array_replace`, every key of the override array wins and every other key keeps its value from the base |
| `Php.ReplaceKeys` | Twig/AsseticNodeVisitor.php:111 | `array_replace` keeps the base keys first, in their order, and its result has exactly the keys of both arrays |
| `Php.ReplaceAssociative` | Twig/AsseticNodeVisitor.php:111 | replacing in two steps reads the same as replacing with the already merged overrides |
| `Php.PutGet` | Twig/AsseticNodeVisitor.php:114 | after `$a[k] = v`, k reads v and every other key reads as before |
| `Php.PutKeys` | Twig/AsseticNodeVisitor.php:114 | `$a[k] = v` keeps an existing key where it was and appends a new key last |
| `Php.ReplaceWellFormed` | Twig/AsseticNodeVisitor.php:111 | `array_replace` of a well-formed base gives an array with no repeated key |
| `AsseticNodes.CompileVars` | Twig/AsseticNode.php:34-52 | the foreach over the asset's vars produces exactly the var-pair list `VarPairs` |
| `AsseticNodes.VarPairsAt` | Twig/AsseticNode.php:35-52 | the vars list has 2·\|vars\| elements in input order. Element 2i is `Const(v_i)` and element 2i+1 is the lookup `assetic.vars[v_i]`, two array-call GetAttr nodes |
| `AsseticNodes.VarPairsAsHash` | Twig/AsseticNode.php:35-52 | read as an ArrayExpression, the vars list is the hash that maps each var name to its context lookup, in order |
| `AsseticNodes.VarPairsStamped` | Twig/AsseticNode.php:36-51 | every node of the vars list carries the template line |
| `AsseticNodes.PathFunction` | Twig/AsseticNode.php:61-74 | `path` is called at the template line, with first argument `Const('_assetic_'+name)`. It has 1 argument when there are no vars, and otherwise 2, the second being one ArrayExpression that holds all vars |
| `AsseticNodes.AssetFunction` | Twig/AsseticNode.php:76-89 | `asset` has the given path node as first argument, plus `Const(package)` iff the tag has a `package` attribute, so 1 or 2 arguments |
| `AsseticNodes.CompileAssetUrl` | Twig/AsseticNode.php:32-59 | four fragments are written, in order: the raw `use_controller` test, the path call over the vars, `" : "`, and the asset call around `TargetPathNode(this, asset, name)` |
| `AsseticNodes.CompileAssetUrlStamped` | Twig/AsseticNode.php:36-88 | every node of the emitted path and asset calls carries the template line, the argument-list wrappers aside. The TargetPathNode counts through its forwarded line |
| `AsseticNodes.TargetPathForwards` | Twig/AsseticNode.php:98-113 | a TargetPathNode keeps the node, the asset and the name it was built from, and `getLine()` is the wrapped node's line |

## Left out

- The walk over the template tree belongs to Twig's node traverser, not to this code. The model covers the enter and leave hooks only.
- `eval('return '.$env->compile($argument).';')` is not modelled. It is an abstract evaluator, `Environment.evaluate`, and its failure aborts with `NonConstantArgument`.
- The Twig environment, its function registry, `getExtension('assetic')`, the filter invokers and their factory are abstract functions in `Environment`. So is the template's file name, taken from the parser stream.
- The template name parser and `TemplateReference::get('bundle')` come in as a function to `TemplateRef`, whose bundle is an `Option<string>`.
- `in_array` uses PHP's loose comparison; the model uses exact sequence membership. Bundle truthiness is modelled as non-null, not `""` and not `"0"`.
- PHP's normalisation of numeric string keys, such as `"5"` becoming `5`, is not modelled. Nor are floats, objects and other PHP value kinds.
- `array_replace` on a second argument that is not an array is modelled as the PHP 8 `TypeError`, the error `OptionsNotArray`. PHP 7's warning-and-null behaviour is not modelled.
- The message text of `InvalidBundleException` is not modelled. The error value carries its four parts instead.
- The compiler's text buffer is not modelled. `compileAssetUrl` returns the fragments it writes (raw text and nodes to subcompile) in order.
- `TargetPathNode::compile` calls `BaseAsseticNode::compileAssetUrl`, which lives in the Assetic library and is not part of this model. A TargetPathNode is a leaf here.
