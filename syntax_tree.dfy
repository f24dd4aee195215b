/** The tree measures of a parsed query (IAST): the node count and its
    bound check, the depth check, the search for secret parts among the
    children, cloning the children, and identifier quoting.

    A node is its identifier (what `getID` returns) and its children; the
    subclasses' own members are not part of this model. */
module SyntaxTree {
  import opened Wrappers
  import opened Seqs

  datatype Ast = Node(id: string, children: seq<Ast>)

  /** The error codes the tree operations throw. */
  datatype AstError = TooBigAst(maxSize: nat) | TooDeepAst(maxDepth: nat) | BadArguments

  // ---------------------------------------------------------------------
  // Sums and maxima of child measures

  function Sum(s: seq<nat>): nat
  {
    if s == [] then 0 else Sum(s[..|s| - 1]) + s[|s| - 1]
  }

  lemma {:induction false} SumElement(s: seq<nat>, i: nat)
    requires i < |s|
    ensures s[i] <= Sum(s)
    decreases |s|
  {
    if i < |s| - 1 {
      SumElement(s[..|s| - 1], i);
    }
  }

  /** The largest element, 0 for none. */
  function MaxOf(s: seq<nat>): nat
  {
    if s == [] then 0
    else
      var m := MaxOf(s[..|s| - 1]);
      if m < s[|s| - 1] then s[|s| - 1] else m
  }

  lemma {:induction false} MaxOfBounds(s: seq<nat>)
    ensures forall i | 0 <= i < |s| :: s[i] <= MaxOf(s)
    ensures s != [] ==> exists i | 0 <= i < |s| :: MaxOf(s) == s[i]
    decreases |s|
  {
    if s != [] {
      var init := s[..|s| - 1];
      MaxOfBounds(init);
      assert forall i | 0 <= i < |init| :: init[i] == s[i];
      if init != [] && MaxOf(init) >= s[|s| - 1] {
        var i :| 0 <= i < |init| && MaxOf(init) == init[i];
        assert MaxOf(s) == s[i];
      }
    }
  }

  // ---------------------------------------------------------------------
  // size

  /** `IAST::size`: the number of nodes. */
  function Size(t: Ast): (n: nat)
    ensures n >= 1
    decreases t, 1
  {
    1 + Sum(ChildSizes(t))
  }

  function ChildSizes(t: Ast): (s: seq<nat>)
    ensures |s| == |t.children|
    decreases t, 0
  {
    seq(|t.children|, i requires 0 <= i < |t.children| => Size(t.children[i]))
  }

  /** Every subtree of a child is smaller than the tree. */
  lemma ChildSmaller(t: Ast, i: nat)
    requires i < |t.children|
    ensures Size(t.children[i]) < Size(t)
  {
    SumElement(ChildSizes(t), i);
  }

  /** The lines `dumpTree` writes, without the node address: each node's
      identifier after one dash per level, in pre-order. */
  function DumpLines(t: Ast, indent: nat): seq<string>
    decreases t, 1
  {
    [seq(indent, _ => '-') + t.id] + Flatten(ChildDumps(t, indent + 1))
  }

  function ChildDumps(t: Ast, indent: nat): (s: seq<seq<string>>)
    ensures |s| == |t.children|
    decreases t, 0
  {
    seq(|t.children|, i requires 0 <= i < |t.children| => DumpLines(t.children[i], indent))
  }

  /** The size is the number of lines of the tree's dump: one per node. */
  lemma {:induction false} SizeCountsNodes(t: Ast, indent: nat)
    ensures |DumpLines(t, indent)| == Size(t)
    decreases t
  {
    var dumps := ChildDumps(t, indent + 1);
    forall i | 0 <= i < |t.children|
      ensures |dumps[i]| == ChildSizes(t)[i]
    {
      SizeCountsNodes(t.children[i], indent + 1);
    }
    LengthsSum(dumps, ChildSizes(t));
  }

  lemma {:induction false} LengthsSum(xs: seq<seq<string>>, ns: seq<nat>)
    requires |xs| == |ns| && forall i | 0 <= i < |xs| :: |xs[i]| == ns[i]
    ensures TotalLength(xs) == Sum(ns)
    decreases |xs|
  {
    if xs != [] {
      LengthsSum(xs[..|xs| - 1], ns[..|ns| - 1]);
    }
  }

  /** The loop of `IAST::size`: one for the node plus each child's size. */
  method ComputeSize(t: Ast) returns (n: nat)
    ensures n == Size(t)
    decreases t
  {
    ghost var sizes := ChildSizes(t);
    n := 1;
    for i := 0 to |t.children|
      invariant n == 1 + Sum(sizes[..i])
    {
      var c := ComputeSize(t.children[i]);
      assert sizes[..i + 1][..i] == sizes[..i];
      n := n + c;
    }
    assert sizes[..|t.children|] == sizes;
  }

  // ---------------------------------------------------------------------
  // checkSize

  /** `IAST::checkSize`: the size when it is at most `maxSize`, and
      TOO_BIG_AST otherwise. A child's check throws first, with the same
      error, and a child only exceeds the bound when the tree does. */
  method CheckSize(t: Ast, maxSize: nat) returns (r: Result<nat, AstError>)
    ensures r == if Size(t) <= maxSize then Ok(Size(t)) else Err(TooBigAst(maxSize))
    decreases t
  {
    ghost var sizes := ChildSizes(t);
    var res := 1;
    for i := 0 to |t.children|
      invariant res == 1 + Sum(sizes[..i])
    {
      var c := CheckSize(t.children[i], maxSize);
      if c.Err? {
        ChildSmaller(t, i);
        return c;
      }
      assert sizes[..i + 1][..i] == sizes[..i];
      res := res + c.value;
    }
    assert sizes[..|t.children|] == sizes;
    if res > maxSize {
      return Err(TooBigAst(maxSize));
    }
    return Ok(res);
  }

  // ---------------------------------------------------------------------
  // checkDepthImpl

  /** The number of levels: 1 for a leaf. */
  function Height(t: Ast): (h: nat)
    ensures h >= 1
    decreases t, 1
  {
    1 + MaxOf(ChildHeights(t))
  }

  function ChildHeights(t: Ast): (s: seq<nat>)
    ensures |s| == |t.children|
    decreases t, 0
  {
    seq(|t.children|, i requires 0 <= i < |t.children| => Height(t.children[i]))
  }

  /** Some node whose depth, counting the root as `level`, is at least
      `maxDepth` has a child: that is what TOO_DEEP_AST reports. */
  predicate TooDeep(t: Ast, maxDepth: nat, level: nat)
    decreases t
  {
    || (level >= maxDepth && |t.children| > 0)
    || exists i | 0 <= i < |t.children| :: TooDeep(t.children[i], maxDepth, level + 1)
  }

  /** The depth limit in terms of the height: a tree with a child is too deep
      exactly when its deepest inner node, at depth `level + Height - 2`,
      reaches `maxDepth`. */
  lemma {:induction false} TooDeepByHeight(t: Ast, maxDepth: nat, level: nat)
    ensures TooDeep(t, maxDepth, level) <==> Height(t) > 1 && level + Height(t) > maxDepth + 1
    decreases t
  {
    var hs := ChildHeights(t);
    MaxOfBounds(hs);
    forall i | 0 <= i < |t.children|
      ensures TooDeep(t.children[i], maxDepth, level + 1)
          <==> hs[i] > 1 && level + 1 + hs[i] > maxDepth + 1
    {
      TooDeepByHeight(t.children[i], maxDepth, level + 1);
    }
  }

  /** The result `checkDepthImpl` computes: `level + Height`, or TOO_DEEP_AST. */
  function DepthResult(t: Ast, maxDepth: nat, level: nat): Result<nat, AstError>
  {
    if Height(t) > 1 && level + Height(t) > maxDepth + 1 then Err(TooDeepAst(maxDepth)) else Ok(level + Height(t))
  }

  /** `IAST::checkDepthImpl`: each child is checked only after the node's own
      level is found below the limit. */
  method CheckDepthImpl(t: Ast, maxDepth: nat, level: nat) returns (r: Result<nat, AstError>)
    ensures r == DepthResult(t, maxDepth, level)
    decreases t
  {
    ghost var hs := ChildHeights(t);
    var res := level + 1;
    for i := 0 to |t.children|
      invariant res == level + 1 + MaxOf(hs[..i])
      invariant i > 0 ==> level < maxDepth
      invariant forall k | 0 <= k < i :: DepthResult(t.children[k], maxDepth, level + 1).Ok?
    {
      if level >= maxDepth {
        DepthBeyondLimit(t, maxDepth, level, i);
        return Err(TooDeepAst(maxDepth));
      }
      var c := CheckDepthImpl(t.children[i], maxDepth, level + 1);
      if c.Err? {
        DepthBeyondLimit(t, maxDepth, level, i);
        return c;
      }
      assert hs[..i + 1][..i] == hs[..i];
      res := if res < c.value then c.value else res;
    }
    assert hs[..|t.children|] == hs;
    DepthWithinLimit(t, maxDepth, level);
    return Ok(res);
  }

  /** A node at the limit with a child, or a child that is too deep, makes the tree too deep. */
  lemma DepthBeyondLimit(t: Ast, maxDepth: nat, level: nat, i: nat)
    requires i < |t.children|
    requires level >= maxDepth || DepthResult(t.children[i], maxDepth, level + 1).Err?
    ensures DepthResult(t, maxDepth, level) == Err(TooDeepAst(maxDepth))
  {
    MaxOfBounds(ChildHeights(t));
    assert ChildHeights(t)[i] == Height(t.children[i]);
  }

  lemma DepthWithinLimit(t: Ast, maxDepth: nat, level: nat)
    requires |t.children| > 0 ==> level < maxDepth
    requires forall k | 0 <= k < |t.children| :: DepthResult(t.children[k], maxDepth, level + 1).Ok?
    ensures DepthResult(t, maxDepth, level).Ok?
  {
    var hs := ChildHeights(t);
    MaxOfBounds(hs);
    if hs != [] {
      var k :| 0 <= k < |hs| && MaxOf(hs) == hs[k];
      assert DepthResult(t.children[k], maxDepth, level + 1).Ok?;
    }
  }

  // ---------------------------------------------------------------------
  // childrenHaveSecretParts and cloneChildren

  /** `IAST::childrenHaveSecretParts`: whether some child has secret parts,
      by the child's own `hasSecretParts`. */
  method ChildrenHaveSecretParts(t: Ast, hasSecretParts: Ast -> bool) returns (r: bool)
    ensures r <==> exists i | 0 <= i < |t.children| :: hasSecretParts(t.children[i])
  {
    for i := 0 to |t.children|
      invariant forall k | 0 <= k < i :: !hasSecretParts(t.children[k])
    {
      if hasSecretParts(t.children[i]) {
        return true;
      }
    }
    return false;
  }

  /** `IAST::cloneChildren`: every child is replaced by its clone, in place. */
  method CloneChildren(children: array<Ast>, clone: Ast -> Ast)
    modifies children
    ensures forall i | 0 <= i < children.Length :: children[i] == clone(old(children[i]))
  {
    for i := 0 to children.Length
      invariant forall k | 0 <= k < i :: children[k] == clone(old(children[k]))
      invariant forall k | i <= k < children.Length :: children[k] == old(children[k])
    {
      children[i] := clone(children[i]);
    }
  }

  // ---------------------------------------------------------------------
  // writeIdentifier

  datatype IdentifierQuotingStyle = StyleNone | Backticks | DoubleQuotes | BackticksMySQL

  /** The string writer `writeIdentifier` picks. */
  datatype Writer =
    | Plain
    | BackQuoted | ProbablyBackQuoted
    | DoubleQuoted | ProbablyDoubleQuoted
    | BackQuotedMySQL | ProbablyBackQuotedMySQL

  /** The writer for a quoting style; BAD_ARGUMENTS for the style that never
      quotes when quoting is demanded. */
  function IdentifierWriter(style: IdentifierQuotingStyle, alwaysQuote: bool): (r: Result<Writer, AstError>)
    ensures r.Err? <==> style == StyleNone && alwaysQuote
    ensures r.Err? ==> r.error == BadArguments
    ensures r.Ok? ==> (r.value == Plain <==> style == StyleNone)
    ensures r.Ok? && alwaysQuote ==> r.value in {BackQuoted, DoubleQuoted, BackQuotedMySQL}
    ensures r.Ok? && !alwaysQuote ==> r.value in {Plain, ProbablyBackQuoted, ProbablyDoubleQuoted, ProbablyBackQuotedMySQL}
  {
    match style
    case StyleNone => if alwaysQuote then Err(BadArguments) else Ok(Plain)
    case Backticks => Ok(if alwaysQuote then BackQuoted else ProbablyBackQuoted)
    case DoubleQuotes => Ok(if alwaysQuote then DoubleQuoted else ProbablyDoubleQuoted)
    case BackticksMySQL => Ok(if alwaysQuote then BackQuotedMySQL else ProbablyBackQuotedMySQL)
  }

  /** `FormatSettings::writeIdentifier`: the output after writing the name.
      The quoting writers are a parameter; the plain writer copies the name. */
  function WriteIdentifier(out: string, name: string, style: IdentifierQuotingStyle, alwaysQuote: bool,
                           quote: (Writer, string) -> string): (r: Result<string, AstError>)
    ensures r.Err? <==> style == StyleNone && alwaysQuote
    ensures style == StyleNone && !alwaysQuote ==> r == Ok(out + name)
    ensures r.Ok? && style != StyleNone ==> r.value == out + quote(IdentifierWriter(style, alwaysQuote).value, name)
  {
    match IdentifierWriter(style, alwaysQuote)
    case Err(e) => Err(e)
    case Ok(w) => if w == Plain then Ok(out + name) else Ok(out + quote(w, name))
  }
}
