// Routing rules: the tree a rule is parsed to, how a negation is pushed to the leaves, and the tree of matchers
// that is built from it and evaluated on requests.

module Matchers {
  import opened Common
  import opened Nodes

  type Test = Request -> bool

  // A rule as it is written.
  datatype Expr = Call(name: string, args: seq<string>) | And(Expr, Expr) | Or(Expr, Expr) | Not(Expr)

  // A rule as the parser builds it: only leaves are negated.
  datatype Tree = Leaf(name: string, args: seq<string>, negated: bool) | Join(all: bool, left: Tree, right: Tree)

  datatype Error = NoArgs(name: string) | EmptyArg(name: string) | BadCount(name: string) | BadArg(name: string)

  const ONE := {"ClientIP", "Proto", "Host", "HostRegexp", "Method", "Path", "PathRegexp", "PathPrefix"}
  const ONE_OR_TWO := {"Header", "HeaderRegexp", "Query", "QueryRegexp"}

  // The makers of the leaf tests, which fail on arguments they cannot use.
  type Makers = (string, seq<string>) -> Option<Test>

  // A pattern matcher with only a key is the matcher without a pattern.
  function Maker(name: string, args: seq<string>): string {
    if name == "HeaderRegexp" && |args| == 1 then "Header"
    else if name == "QueryRegexp" && |args| == 1 then "Query"
    else name
  }

  predicate Counted(name: string, args: seq<string>) {
    |args| == 1 || (name in ONE_OR_TWO && |args| == 2)
  }

  // The parser knows no other leaves.
  predicate Known(t: Tree) {
    match t
    case Leaf(name, _, _) => name in ONE + ONE_OR_TWO
    case Join(_, l, r) => Known(l) && Known(r)
  }

  predicate KnownCalls(e: Expr) {
    match e
    case Call(name, _) => name in ONE + ONE_OR_TWO
    case And(a, b) => KnownCalls(a) && KnownCalls(b)
    case Or(a, b) => KnownCalls(a) && KnownCalls(b)
    case Not(a) => KnownCalls(a)
  }

  // ---------- What a rule means ----------

  function Made(makers: Makers, name: string, args: seq<string>): Option<Test> {
    makers(Maker(name, args), args)
  }

  function Holds(makers: Makers, name: string, args: seq<string>, req: Request): bool {
    Made(makers, name, args).Some? && Made(makers, name, args).value(req)
  }

  predicate Eval(makers: Makers, e: Expr, req: Request) {
    match e
    case Call(name, args) => Holds(makers, name, args, req)
    case And(a, b) => Eval(makers, a, req) && Eval(makers, b, req)
    case Or(a, b) => Eval(makers, a, req) || Eval(makers, b, req)
    case Not(a) => !Eval(makers, a, req)
  }

  predicate EvalTree(makers: Makers, t: Tree, req: Request) {
    match t
    case Leaf(name, args, negated) => Holds(makers, name, args, req) != negated
    case Join(all, l, r) =>
      if all then EvalTree(makers, l, req) && EvalTree(makers, r, req)
      else EvalTree(makers, l, req) || EvalTree(makers, r, req)
  }

  // A call is answered by the test its own name and arguments make; a pattern matcher with only a key is answered by
  // the test that looks for the key.
  lemma {:induction false} CallMeans(makers: Makers, name: string, args: seq<string>, req: Request)
    ensures var bare := |args| == 1 && (name == "HeaderRegexp" || name == "QueryRegexp");
      && (!bare ==> (Eval(makers, Call(name, args), req) <==>
            makers(name, args).Some? && makers(name, args).value(req)))
      && (bare && name == "HeaderRegexp" ==>
            (Eval(makers, Call(name, args), req) <==> Eval(makers, Call("Header", args), req)))
      && (bare && name == "QueryRegexp" ==>
            (Eval(makers, Call(name, args), req) <==> Eval(makers, Call("Query", args), req)))
  {
  }

  // ---------- Parsing ----------

  function Invert(t: Tree): Tree {
    match t
    case Leaf(name, args, negated) => Leaf(name, args, !negated)
    case Join(all, l, r) => Join(!all, Invert(l), Invert(r))
  }

  function Parse(e: Expr): Tree {
    match e
    case Call(name, args) => Leaf(name, args, false)
    case And(a, b) => Join(true, Parse(a), Parse(b))
    case Or(a, b) => Join(false, Parse(a), Parse(b))
    case Not(a) => Invert(Parse(a))
  }

  lemma {:induction false} InvertNegates(makers: Makers, t: Tree, req: Request)
    ensures EvalTree(makers, Invert(t), req) == !EvalTree(makers, t, req)
  {
    if t.Join? {
      InvertNegates(makers, t.left, req);
      InvertNegates(makers, t.right, req);
    }
  }

  lemma {:induction false} InvertTwice(t: Tree)
    ensures Invert(Invert(t)) == t && (Known(Invert(t)) <==> Known(t))
  {
    if t.Join? {
      InvertTwice(t.left);
      InvertTwice(t.right);
    }
  }

  // Pushing negations to the leaves keeps the meaning of every rule.
  lemma {:induction false} ParseKeepsMeaning(makers: Makers, e: Expr, req: Request)
    ensures EvalTree(makers, Parse(e), req) == Eval(makers, e, req)
  {
    match e {
      case Call(_, _) =>
      case And(a, b) =>
        ParseKeepsMeaning(makers, a, req);
        ParseKeepsMeaning(makers, b, req);
      case Or(a, b) =>
        ParseKeepsMeaning(makers, a, req);
        ParseKeepsMeaning(makers, b, req);
      case Not(a) =>
        ParseKeepsMeaning(makers, a, req);
        InvertNegates(makers, Parse(a), req);
        InvertTwice(Parse(a));
    }
  }

  // ---------- What is refused ----------

  function LeafError(makers: Makers, name: string, args: seq<string>): Option<Error> {
    if args == [] then Some(NoArgs(name))
    else if "" in args then Some(EmptyArg(name))
    else if !Counted(name, args) then Some(BadCount(name))
    else if Made(makers, name, args).None? then Some(BadArg(name))
    else None
  }

  // The error of the first leaf that is refused, from left to right.
  function TreeError(makers: Makers, t: Tree): Option<Error> {
    match t
    case Leaf(name, args, _) => LeafError(makers, name, args)
    case Join(_, l, r) => if TreeError(makers, l).Some? then TreeError(makers, l) else TreeError(makers, r)
  }

  predicate Usable(makers: Makers, e: Expr) {
    match e
    case Call(name, args) => LeafError(makers, name, args).None?
    case And(a, b) => Usable(makers, a) && Usable(makers, b)
    case Or(a, b) => Usable(makers, a) && Usable(makers, b)
    case Not(a) => Usable(makers, a)
  }

  // A call can be used when it has one argument, or two where a key and a value are meant, none of them is empty,
  // and a test can be made of them.
  lemma {:induction false} UsableCall(makers: Makers, name: string, args: seq<string>)
    ensures Usable(makers, Call(name, args)) <==>
      && (|args| == 1
          || (|args| == 2 && (name == "Header" || name == "HeaderRegexp" || name == "Query" || name == "QueryRegexp")))
      && (forall i :: 0 <= i < |args| ==> args[i] != "")
      && Made(makers, name, args).Some?
  {
    assert "" in args <==> exists i :: 0 <= i < |args| && args[i] == "";
  }

  lemma {:induction false} InvertErrors(makers: Makers, t: Tree)
    ensures TreeError(makers, Invert(t)) == TreeError(makers, t)
  {
    if t.Join? {
      InvertErrors(makers, t.left);
      InvertErrors(makers, t.right);
    }
  }

  // A rule is refused exactly when one of its calls is.
  lemma {:induction false} RefusedIffUnusable(makers: Makers, e: Expr)
    ensures TreeError(makers, Parse(e)).None? <==> Usable(makers, e)
  {
    match e {
      case Call(_, _) =>
      case And(a, b) =>
        RefusedIffUnusable(makers, a);
        RefusedIffUnusable(makers, b);
      case Or(a, b) =>
        RefusedIffUnusable(makers, a);
        RefusedIffUnusable(makers, b);
      case Not(a) =>
        RefusedIffUnusable(makers, a);
        InvertErrors(makers, Parse(a));
    }
  }

  // ---------- The tree of matchers ----------

  const AND := "and"
  const OR := "or"

  class MatchersTree {
    var matcher: Option<Test>
    var operator: string
    var left: MatchersTree?
    var right: MatchersTree?
    ghost var Repr: set<MatchersTree>

    constructor ()
      ensures matcher == None && operator == "" && left == null && right == null && Repr == {this}
    {
      matcher, operator, left, right, Repr := None, "", null, null, {this};
    }

    // Every node is either a leaf or an operator with two children, and it tests what the rule says.
    ghost predicate Builds(makers: Makers, t: Tree)
      reads this, Repr
      decreases t
    {
      && this in Repr
      && match t
        case Leaf(_, _, _) =>
          left == null && right == null && operator == "" && matcher.Some?
          && forall req :: matcher.value(req) == EvalTree(makers, t, req)
        case Join(all, l, r) =>
          && matcher.None? && operator == (if all then AND else OR) && left != null && right != null
          && left in Repr && left.Repr <= Repr && right in Repr && right.Repr <= Repr
          && left.Builds(makers, l) && right.Builds(makers, r)
    }

    method AddLeaf(makers: Makers, name: string, args: seq<string>, negated: bool) returns (err: Option<Error>)
      requires matcher == None && operator == "" && left == null && right == null && Repr == {this}
      modifies this
      ensures err == LeafError(makers, name, args) && Repr == {this}
      ensures err.None? ==> Builds(makers, Leaf(name, args, negated))
    {
      if args == [] {
        return Some(NoArgs(name));
      }
      var i := 0;
      while i < |args|
        invariant 0 <= i <= |args| && "" !in args[..i]
      {
        if args[i] == "" {
          return Some(EmptyArg(name));
        }
        i := i + 1;
      }
      assert args[..i] == args;
      if !(|args| == 1 || (name in ONE_OR_TWO && |args| == 2)) {
        return Some(BadCount(name));
      }
      var made := makers(Maker(name, args), args);
      if made.None? {
        return Some(BadArg(name));
      }
      matcher := made;
      if negated {
        var test := made.value;
        matcher := Some(req => !test(req));
      }
      err := None;
    }

    method AddRule(makers: Makers, t: Tree) returns (err: Option<Error>)
      requires Known(t)
      requires matcher == None && operator == "" && left == null && right == null && Repr == {this}
      modifies this
      ensures err == TreeError(makers, t) && fresh(Repr - {this})
      ensures err.None? ==> Builds(makers, t)
      decreases t
    {
      hide EvalTree, LeafError, Holds, Made;
      match t {
        case Leaf(name, args, negated) =>
          err := AddLeaf(makers, name, args, negated);
        case Join(all, l, r) =>
          operator := if all then AND else OR;
          var a := new MatchersTree();
          left := a;
          err := a.AddRule(makers, l);
          if err.Some? {
            return;
          }
          var b := new MatchersTree();
          right := b;
          err := b.AddRule(makers, r);
          Repr := {this} + a.Repr + b.Repr;
      }
    }

    // The two branches that should never happen are never taken.
    method Match(makers: Makers, ghost t: Tree, req: Request) returns (r: bool)
      requires Builds(makers, t)
      ensures r == EvalTree(makers, t, req)
      decreases t
    {
      if matcher.Some? {
        return matcher.value(req);
      }
      if operator == OR {
        r := left.Match(makers, t.left, req);
        if !r {
          r := right.Match(makers, t.right, req);
        }
      } else if operator == AND {
        r := left.Match(makers, t.left, req);
        if r {
          r := right.Match(makers, t.right, req);
        }
      } else {
        assert false;
      }
    }
  }

  class Matcher {
    const tree: MatchersTree
    const makers: Makers
    ghost const rule: Expr

    constructor (tree: MatchersTree, makers: Makers, ghost rule: Expr)
      ensures this.tree == tree && this.makers == makers && this.rule == rule
    {
      this.tree, this.makers, this.rule := tree, makers, rule;
    }

    ghost predicate Valid()
      reads tree, tree.Repr
    {
      tree.Builds(makers, Parse(rule))
    }

    // A matcher matches exactly the requests its rule holds of.
    method Match(req: Request) returns (r: bool)
      requires Valid()
      ensures r == Eval(makers, rule, req)
    {
      r := tree.Match(makers, Parse(rule), req);
      ParseKeepsMeaning(makers, rule, req);
    }
  }

  method NewMatcher(makers: Makers, rule: Expr) returns (m: Matcher?, err: Option<Error>)
    requires KnownCalls(rule)
    ensures err.None? <==> Usable(makers, rule)
    ensures err.None? ==> m != null && fresh(m) && fresh(m.tree.Repr) && m.Valid() && m.rule == rule && m.makers == makers
    ensures err.Some? ==> m == null
  {
    ParseKnown(rule);
    RefusedIffUnusable(makers, rule);
    var tree := new MatchersTree();
    err := tree.AddRule(makers, Parse(rule));
    if err.Some? {
      return null, err;
    }
    m := new Matcher(tree, makers, rule);
  }

  lemma {:induction false} ParseKnown(e: Expr)
    requires KnownCalls(e)
    ensures Known(Parse(e))
  {
    match e {
      case Call(_, _) =>
      case And(a, b) =>
        ParseKnown(a);
        ParseKnown(b);
      case Or(a, b) =>
        ParseKnown(a);
        ParseKnown(b);
      case Not(a) =>
        ParseKnown(a);
        InvertTwice(Parse(a));
    }
  }
}
