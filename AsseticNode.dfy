/**
  The conditional asset URL that an Assetic tag node compiles to (AsseticNode):
  at render time `use_controller` chooses between the controller route
  `path('_assetic_' ~ name, {var: value, ...})` and the static helper
  `asset(<target path>, package)`.

  The compiler's text buffer is modelled as the list of fragments written to
  it: raw PHP text, and nodes handed to `subcompile`.
*/
module AsseticNodes {
  import opened Php
  import opened TwigNodes

  datatype Fragment = Raw(code: string) | Subcompile(node: Node)

  /** The raw PHP test written before the two branches. */
  const UseControllerTest: string :=
    "isset($context['assetic']['use_controller']) && $context['assetic']['use_controller'] ? "

  const BranchSeparator: string := " : "

  /** `assetic.vars[v]`: two dynamic array lookups into the render context. */
  function VarLookup(v: string, line: int): Node
  {
    GetAttrExpr(
      GetAttrExpr(NameExpr("assetic", line), ConstantExpr(Str("vars"), line), ArrayExpr([], line), ArrayCall, line),
      ConstantExpr(Str(v), line),
      ArrayExpr([], line),
      ArrayCall,
      line)
  }

  /** The elements of the vars hash: each var's name followed by its lookup. */
  function VarPairs(vars: seq<string>, line: int): seq<Node>
  {
    if vars == [] then []
    else [ConstantExpr(Str(vars[0]), line), VarLookup(vars[0], line)] + VarPairs(vars[1..], line)
  }

  /** Two elements per var, in the order of the vars. */
  lemma {:induction false} VarPairsAt(vars: seq<string>, line: int)
    ensures |VarPairs(vars, line)| == 2 * |vars|
    ensures forall i :: 0 <= i < |vars| ==>
      VarPairs(vars, line)[2 * i] == ConstantExpr(Str(vars[i]), line) &&
      VarPairs(vars, line)[2 * i + 1] == VarLookup(vars[i], line)
  {
    if vars != [] {
      VarPairsAt(vars[1..], line);
      forall i | 1 <= i < |vars|
        ensures VarPairs(vars, line)[2 * i] == ConstantExpr(Str(vars[i]), line)
        ensures VarPairs(vars, line)[2 * i + 1] == VarLookup(vars[i], line)
      {
        assert vars[1..][i - 1] == vars[i];
      }
    }
  }

  lemma {:induction false} VarPairsAppend(vars: seq<string>, v: string, line: int)
    ensures VarPairs(vars + [v], line) == VarPairs(vars, line) + [ConstantExpr(Str(v), line), VarLookup(v, line)]
  {
    if vars == [] {
      assert vars + [v] == [v];
    } else {
      assert (vars + [v])[1..] == vars[1..] + [v];
      VarPairsAppend(vars[1..], v, line);
    }
  }

  /** Read as Twig reads an ArrayExpression, the vars elements form the hash
      that maps each var's name to its lookup in the render context. */
  lemma {:induction false} VarPairsAsHash(vars: seq<string>, line: int)
    ensures KeyValuePairs(VarPairs(vars, line)) ==
      seq(|vars|, i requires 0 <= i < |vars| => Pair(ConstantExpr(Str(vars[i]), line), VarLookup(vars[i], line)))
  {
    if vars != [] {
      VarPairsAsHash(vars[1..], line);
      var ps := VarPairs(vars, line);
      assert ps[2..] == VarPairs(vars[1..], line);
    }
  }

  lemma {:induction false} VarPairsStamped(vars: seq<string>, line: int)
    ensures forall i :: 0 <= i < |VarPairs(vars, line)| ==> Stamped(VarPairs(vars, line)[i], line, {})
  {
    if vars != [] {
      VarPairsStamped(vars[1..], line);
      var ps := VarPairs(vars, line);
      var inner := GetAttrExpr(NameExpr("assetic", line), ConstantExpr(Str("vars"), line), ArrayExpr([], line), ArrayCall, line);
      assert Stamped(NameExpr("assetic", line), line, {});
      assert Stamped(ConstantExpr(Str("vars"), line), line, {});
      assert Stamped(ArrayExpr([], line), line, {});
      assert Stamped(inner, line, {});
      assert Stamped(ConstantExpr(Str(vars[0]), line), line, {});
      assert Stamped(ps[1], line, {});
      forall i | 2 <= i < |ps| ensures Stamped(ps[i], line, {}) {
        assert ps[i] == VarPairs(vars[1..], line)[i - 2];
      }
    }
  }

  /** The foreach of compileAssetUrl that appends two nodes per var. */
  method CompileVars(vars: seq<string>, line: int) returns (nodes: seq<Node>)
    ensures nodes == VarPairs(vars, line)
  {
    nodes := [];
    for i := 0 to |vars|
      invariant nodes == VarPairs(vars[..i], line)
    {
      VarPairsAppend(vars[..i], vars[i], line);
      assert vars[..i + 1] == vars[..i] + [vars[i]];
      nodes := nodes + [ConstantExpr(Str(vars[i]), line)];
      nodes := nodes + [VarLookup(vars[i], line)];
    }
    assert vars[..|vars|] == vars;
  }

  /** getPathFunction: `path('_assetic_' ~ name)`, plus one array argument
      holding all the vars when there are any. */
  function PathFunction(tag: AsseticTag, name: string, vars: seq<Node>): (r: Node)
    ensures r.FunctionExpr? && r.name == "path" && r.line == tag.line
    ensures r.arguments.NodeList? && r.arguments.line == 0
    ensures |r.arguments.nodes| == (if vars == [] then 1 else 2)
    ensures r.arguments.nodes[0] == ConstantExpr(Str("_assetic_" + name), tag.line)
    ensures vars != [] ==> r.arguments.nodes[1] == ArrayExpr(vars, tag.line)
    ensures (forall i :: 0 <= i < |vars| ==> Stamped(vars[i], tag.line, {})) ==> Stamped(r, tag.line, {})
  {
    var nodes := [ConstantExpr(Str("_assetic_" + name), tag.line)] + (if vars != [] then [ArrayExpr(vars, tag.line)] else []);
    assert (forall i :: 0 <= i < |vars| ==> Stamped(vars[i], tag.line, {})) ==>
      forall i :: 0 <= i < |nodes| ==> Stamped(nodes[i], tag.line, {});
    FunctionExpr("path", NodeList(nodes, 0), tag.line)
  }

  /** getAssetFunction: `asset(path)`, with the tag's `package` attribute as a
      second argument exactly when the tag has one. */
  function AssetFunction(tag: AsseticTag, path: Node): (r: Node)
    ensures r.FunctionExpr? && r.name == "asset" && r.line == tag.line
    ensures r.arguments.NodeList? && r.arguments.line == 0
    ensures |r.arguments.nodes| == (if "package" in tag.attributes then 2 else 1)
    ensures r.arguments.nodes[0] == path
    ensures "package" in tag.attributes ==>
      r.arguments.nodes[1] == ConstantExpr(tag.attributes["package"], tag.line)
    ensures Stamped(path, tag.line, {}) ==> Stamped(r, tag.line, {})
  {
    var arguments := [path] + (if "package" in tag.attributes then [ConstantExpr(tag.attributes["package"], tag.line)] else []);
    assert Stamped(path, tag.line, {}) ==> forall i :: 0 <= i < |arguments| ==> Stamped(arguments[i], tag.line, {});
    FunctionExpr("asset", NodeList(arguments, 0), tag.line)
  }

  /** compileAssetUrl: the test, the path call, the separator and the asset
      call around a TargetPathNode, written in that order. */
  method CompileAssetUrl(tag: AsseticTag, asset: Asset, name: string) returns (out: seq<Fragment>)
    ensures out == [
      Raw(UseControllerTest),
      Subcompile(PathFunction(tag, name, VarPairs(asset.vars, tag.line))),
      Raw(BranchSeparator),
      Subcompile(AssetFunction(tag, TargetPath(tag, asset, name)))]
  {
    var vars := CompileVars(asset.vars, tag.line);
    out := [Raw(UseControllerTest)];
    out := out + [Subcompile(PathFunction(tag, name, vars))];
    out := out + [Raw(BranchSeparator)];
    out := out + [Subcompile(AssetFunction(tag, TargetPath(tag, asset, name)))];
  }

  /** Every node compileAssetUrl builds carries the tag's template line
      (the argument-list wrappers aside, which Twig builds at line 0). */
  lemma CompileAssetUrlStamped(tag: AsseticTag, asset: Asset, name: string)
    ensures Stamped(PathFunction(tag, name, VarPairs(asset.vars, tag.line)), tag.line, {})
    ensures Stamped(AssetFunction(tag, TargetPath(tag, asset, name)), tag.line, {})
  {
    VarPairsStamped(asset.vars, tag.line);
  }

  /** A TargetPathNode keeps what it was built from and reports the line of
      the node it wraps. */
  lemma TargetPathForwards(tag: AsseticTag, asset: Asset, name: string)
    ensures var t := TargetPath(tag, asset, name);
      t.tag == tag && t.asset == asset && t.assetName == name && GetLine(t) == tag.line
  {
  }
}
