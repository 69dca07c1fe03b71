/**
  The Twig expression nodes the pass reads and builds.  Each node carries the
  source line Twig reports for it.  A plain Twig `Node` built from a list of
  children (the argument list of a function call) is `NodeList`; Twig gives it
  line 0 unless a line is passed, and the core never passes one.
*/
module TwigNodes {
  import opened Php

  /** The `type` attribute of a GetAttrExpression (Twig's Template::*_CALL). */
  datatype CallType = AnyCall | ArrayCall | MethodCall

  /** The `{% stylesheets %}`/`{% javascripts %}` tag node (AsseticNode): its
      template line and its attributes, of which the core reads `package`. */
  datatype AsseticTag = AsseticTag(line: int, attributes: map<string, Value>)

  /** The compiled asset, as far as the core reads it: the names of the
      context variables its URL depends on (AssetInterface::getVars). */
  datatype Asset = Asset(vars: seq<string>)

  datatype Node =
    | ConstantExpr(value: Value, line: int)
    | NameExpr(name: string, line: int)
    | GetAttrExpr(obj: Node, attribute: Node, arguments: Node, callType: CallType, line: int)
      /** Twig reads `elements` as alternating key, value, key, value. */
    | ArrayExpr(elements: seq<Node>, line: int)
    | FunctionExpr(name: string, arguments: Node, line: int)
    | ConditionalExpr(expr1: Node, expr2: Node, expr3: Node, line: int)
    | NodeList(nodes: seq<Node>, line: int)
      /** TargetPathNode: a forwarding node around an AsseticNode, its asset and
          the asset's name; it owns no line of its own. */
    | TargetPath(tag: AsseticTag, asset: Asset, assetName: string)
    | Other(kind: string, nodes: seq<Node>, line: int)

  /** `getLine()`; a TargetPathNode answers with the line of the node it wraps. */
  function GetLine(n: Node): int
  {
    if n.TargetPath? then n.tag.line else n.line
  }

  /** The children a `foreach` over a Twig node visits, in order. */
  function Children(n: Node): seq<Node>
  {
    match n
    case ConstantExpr(_, _) => []
    case NameExpr(_, _) => []
    case GetAttrExpr(o, a, args, _, _) => [o, a, args]
    case ArrayExpr(es, _) => es
    case FunctionExpr(_, args, _) => [args]
    case ConditionalExpr(e1, e2, e3, _) => [e1, e2, e3]
    case NodeList(ns, _) => ns
    case TargetPath(_, _, _) => []
    case Other(_, ns, _) => ns
  }

  /** A key/value pair of an ArrayExpression. */
  datatype Pair = Pair(key: Node, value: Node)

  /** Twig's ArrayExpression::getKeyValuePairs: elements taken two by two. */
  function KeyValuePairs(elements: seq<Node>): seq<Pair>
    decreases |elements|
  {
    if |elements| < 2 then [] else [Pair(elements[0], elements[1])] + KeyValuePairs(elements[2..])
  }

  /**
    Every node of `n` carries line `line`, except the subtrees in `kept` (which
    are not looked into) and the NodeList argument wrappers (whose children are).
  */
  predicate Stamped(n: Node, line: int, kept: set<Node>)
  {
    n in kept ||
    match n
    case ConstantExpr(_, l) => l == line
    case NameExpr(_, l) => l == line
    case GetAttrExpr(o, a, args, _, l) =>
      l == line && Stamped(o, line, kept) && Stamped(a, line, kept) && Stamped(args, line, kept)
    case ArrayExpr(es, l) => l == line && forall i :: 0 <= i < |es| ==> Stamped(es[i], line, kept)
    case FunctionExpr(_, args, l) => l == line && Stamped(args, line, kept)
    case ConditionalExpr(e1, e2, e3, l) =>
      l == line && Stamped(e1, line, kept) && Stamped(e2, line, kept) && Stamped(e3, line, kept)
    case NodeList(ns, _) => forall i :: 0 <= i < |ns| ==> Stamped(ns[i], line, kept)
    case TargetPath(tag, _, _) => tag.line == line
    case Other(_, ns, l) => l == line && forall i :: 0 <= i < |ns| ==> Stamped(ns[i], line, kept)
  }
}
