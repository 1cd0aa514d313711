/** The tree builder `build_evaluation_tree`, node evaluation
    `EvaluationTreeNode.evaluate` and function calls `Function.evaluate`.

    The builder turns a number into a leaf, evaluates a function call on the spot
    and turns a list into a node whose middle element is kept as it is; evaluation
    is post-order and applies the middle element as an operator. The supported
    functions are a table given as a parameter. */
module Evaluation {
  import opened Errors
  import opened Operators
  import opened Types

  /** `EvaluationTreeNode | Number`: a number, or a node with two subtrees and the
      element standing between them (an operator on every input the tokenizer
      produces). */
  datatype Tree = Leaf(n: Number) | Node(left: Tree, mid: Elem, right: Tree)

  /** Every middle element of the tree has the tokenizer's shape. */
  ghost predicate MidsWellShaped(t: Tree) {
    match t
    case Leaf(_) => true
    case Node(l, m, r) => WellShaped(m) && MidsWellShaped(l) && MidsWellShaped(r)
  }

  // ----- build_evaluation_tree -----

  /** `build_evaluation_tree`: a number is a leaf; a function call is evaluated now
      and its value is a leaf; a list is built by `BuildList`. An operator or `None`
      has no `len()` and crashes the host. */
  function Build(table: FunctionTable, e: Elem): (r: Result<Tree>)
    ensures e.Num? ==> r == Ok(Leaf(e.n))
    ensures e.Op? || e.Nothing? ==> r == Err(HostCrash)
    ensures e.Call? ==> (r.Ok? <==> CallFunction(table, e.name, e.args).Ok?)
    ensures e.Call? && r.Ok? ==> r.value == Leaf(CallFunction(table, e.name, e.args).value)
    ensures e.Call? && r.Err? ==> r.error == CallFunction(table, e.name, e.args).error
    ensures e.Group? && |e.items| == 3 ==>
              (r.Ok? <==> Build(table, e.items[0]).Ok? && Build(table, e.items[2]).Ok?)
    ensures e.Group? && |e.items| == 3 && r.Ok? ==>
              r.value == Node(Build(table, e.items[0]).value, e.items[1], Build(table, e.items[2]).value)
    ensures e.Group? && |e.items| == 3 && Build(table, e.items[0]).Err? ==>
              r == Err(Build(table, e.items[0]).error)
    ensures e.Group? && |e.items| == 1 ==> r == Build(table, e.items[0])
    ensures WellShaped(e) && r.Ok? ==> MidsWellShaped(r.value)
    ensures WellShaped(e) && r.Err? ==> !r.error.InvalidOperator?
    decreases e, 0
  {
    match e
    case Num(n) => Ok(Leaf(n))
    case Call(name, args) =>
      var v :- CallFunction(table, name, args);
      Ok(Leaf(v))
    case Group(xs) => BuildList(table, xs)
    case _ => Err(HostCrash)
  }

  /** A list: a single element is built on its own; `[a, op, b]` is a node with both
      sides built, left first; a longer list is a node of its first element, its
      second and the rest built as one list, so it nests to the right. The empty list
      fails on `tokenized_expr[0]`. */
  function BuildList(table: FunctionTable, xs: seq<Elem>): (r: Result<Tree>)
    ensures |xs| == 0 ==> r == Err(HostCrash)
    ensures |xs| == 1 ==> r == Build(table, xs[0])
    ensures |xs| >= 2 ==>
              var right := if |xs| == 3 then Build(table, xs[2]) else BuildList(table, xs[2..]);
              (r.Ok? <==> Build(table, xs[0]).Ok? && right.Ok?)
              && (r.Ok? ==> r.value == Node(Build(table, xs[0]).value, xs[1], right.value))
              && (Build(table, xs[0]).Err? ==> r == Err(Build(table, xs[0]).error))
              && (Build(table, xs[0]).Ok? && right.Err? ==> r == Err(right.error))
    ensures (forall i :: 0 <= i < |xs| ==> WellShaped(xs[i])) && r.Ok? ==> MidsWellShaped(r.value)
    ensures (forall i :: 0 <= i < |xs| ==> WellShaped(xs[i])) && r.Err? ==> !r.error.InvalidOperator?
    decreases xs, 0
  {
    if |xs| == 0 then Err(HostCrash)
    else if |xs| == 1 then Build(table, xs[0])
    else
      var left :- Build(table, xs[0]);
      var right :- if |xs| == 3 then Build(table, xs[2]) else BuildList(table, xs[2..]);
      Ok(Node(left, xs[1], right))
  }

  // ----- Function.evaluate -----

  /** `Function.evaluate`: every argument is reduced to a value first, in order; then
      the function is called on the values, whatever they are. Only a `TypeError`
      (the wrong number or kind of arguments) is turned into an invalid function;
      `ZeroDivisionError` passes through, and any other exception crashes. */
  function CallFunction(table: FunctionTable, name: string, args: seq<Elem>): (r: Result<Number>)
    ensures EvalArgs(table, args).Err? ==> r == Err(EvalArgs(table, args).error)
    ensures EvalArgs(table, args).Ok? && name !in table ==> r == Err(InvalidFunction(name))
    ensures r.Ok? <==>
              EvalArgs(table, args).Ok? && name in table
              && table[name].apply(EvalArgs(table, args).value).Returned?
    ensures r.Ok? ==> table[name].apply(EvalArgs(table, args).value) == Returned(r.value)
    ensures EvalArgs(table, args).Ok? && name in table ==>
              var reply := table[name].apply(EvalArgs(table, args).value);
              (reply.RaisedTypeError? ==> r == Err(InvalidFunction(name)))
              && (reply.RaisedZeroDivision? ==> r == Err(DivisionByZero))
              && (reply.RaisedOther? ==> r == Err(HostCrash))
    ensures (forall i :: 0 <= i < |args| ==> WellShaped(args[i])) && r.Err? ==> !r.error.InvalidOperator?
    decreases args, 2
  {
    var vals :- EvalArgs(table, args);
    if name !in table then Err(InvalidFunction(name))
    else match table[name].apply(vals)
      case Returned(v) => Ok(v)
      case RaisedTypeError => Err(InvalidFunction(name))
      case RaisedZeroDivision => Err(DivisionByZero)
      case RaisedOther => Err(HostCrash)
  }

  /** The arguments reduced in order; the first failure is the result. */
  function EvalArgs(table: FunctionTable, args: seq<Elem>): (r: Result<seq<ArgValue>>)
    ensures r.Ok? ==> |r.value| == |args|
    ensures r.Ok? ==> forall i :: 0 <= i < |args| ==> EvalArg(table, args[i]) == Ok(r.value[i])
    ensures r.Err? ==> exists i :: 0 <= i < |args| && EvalArg(table, args[i]) == Err(r.error)
                                   && forall k :: 0 <= k < i ==> EvalArg(table, args[k]).Ok?
    ensures (forall i :: 0 <= i < |args| ==> WellShaped(args[i])) && r.Err? ==> !r.error.InvalidOperator?
    decreases args, 1
  {
    if |args| == 0 then Ok([])
    else
      var v :- EvalArg(table, args[0]);
      var rest :- EvalArgs(table, args[1..]);
      Ok([v] + rest)
  }

  /** One argument: a list or a call is built and the result's `evaluate()` is called,
      which only a node has (a call, or a list that builds to a number, crashes the
      host); anything else (a number, an operator, `None`) is passed as it is. */
  function EvalArg(table: FunctionTable, a: Elem): (r: Result<ArgValue>)
    ensures a.Num? ==> r == Ok(NumArg(a.n))
    ensures a.Op? ==> r == Ok(OperatorArg(a.sym))
    ensures a.Nothing? ==> r == Ok(NoneArg)
    ensures a.Call? ==> r.Err? && (Build(table, a).Err? ==> r.error == Build(table, a).error)
    ensures a.Group? ==>
              (r.Ok? <==> Build(table, a).Ok? && Build(table, a).value.Node?
                          && EvalTree(Build(table, a).value).Ok?)
    ensures a.Group? && r.Ok? ==> r.value == NumArg(EvalTree(Build(table, a).value).value)
    ensures a.Group? && Build(table, a).Err? ==> r == Err(Build(table, a).error)
    ensures a.Group? && Build(table, a).Ok? && Build(table, a).value.Leaf? ==> r == Err(HostCrash)
    ensures a.Group? && Build(table, a).Ok? && Build(table, a).value.Node? && r.Err? ==>
              r.error == EvalTree(Build(table, a).value).error
    ensures WellShaped(a) && r.Err? ==> !r.error.InvalidOperator?
    decreases a, 1
  {
    match a
    case Num(n) => Ok(NumArg(n))
    case Op(sym) => Ok(OperatorArg(sym))
    case Nothing => Ok(NoneArg)
    case Group(_) =>
      var t :- Build(table, a);
      if t.Leaf? then Err(HostCrash)
      else
        var v :- EvalTree(t);
        Ok(NumArg(v))
    case Call(_, _) =>
      // the call builds to a number, which has no `evaluate()`
      var _ :- Build(table, a);
      Err(HostCrash)
  }

  // ----- EvaluationTreeNode.evaluate -----

  /** `self.op.evaluate(a, b)`: only an operator has a two-argument `evaluate`. */
  function ApplyMid(m: Elem, a: Number, b: Number): (r: Result<Number>)
    ensures m.Op? ==> r == Apply(m.sym, a, b)
    ensures !m.Op? ==> r == Err(HostCrash)
    ensures WellShaped(m) && r.Err? ==> !r.error.InvalidOperator?
  {
    if m.Op? then Apply(m.sym, a, b) else Err(HostCrash)
  }

  /** Node evaluation, post-order: the left subtree, then the right one, then the
      operator on the two values in that order. */
  function EvalTree(t: Tree): (r: Result<Number>)
    ensures t.Leaf? ==> r == Ok(t.n)
    ensures t.Node? && EvalTree(t.left).Err? ==> r == EvalTree(t.left)
    ensures t.Node? && EvalTree(t.left).Ok? && EvalTree(t.right).Err? ==> r == EvalTree(t.right)
    ensures MidsWellShaped(t) && r.Err? ==> !r.error.InvalidOperator?
    decreases t
  {
    match t
    case Leaf(n) => Ok(n)
    case Node(l, m, r) =>
      var a :- EvalTree(l);
      var b :- EvalTree(r);
      ApplyMid(m, a, b)
  }

  /** The Python method also writes each child's value back into the node
      (`self.a = self.a.evaluate()`) before applying the operator, and a child that
      raises leaves the node as it was so far. This returns the outcome together with
      the tree as it is afterwards. */
  function EvalInPlace(t: Tree): (res: (Result<Number>, Tree))
    ensures res.0 == EvalTree(t)
    ensures EvalTree(res.1) == EvalTree(t)
    ensures res.0.Ok? && t.Node? ==>
              res.1 == Node(Leaf(EvalTree(t.left).value), t.mid, Leaf(EvalTree(t.right).value))
    ensures t.Leaf? ==> res.1 == t
    decreases t
  {
    match t
    case Leaf(n) => (Ok(n), t)
    case Node(l, m, r) =>
      var (ra, l1) := EvalInPlace(l);
      if ra.Err? then (ra, Node(l1, m, r))
      else
        var (rb, r1) := EvalInPlace(r);
        if rb.Err? then (rb, Node(Leaf(ra.value), m, r1))
        else (ApplyMid(m, ra.value, rb.value), Node(Leaf(ra.value), m, Leaf(rb.value)))
  }
}
