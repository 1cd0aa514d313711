/** A reference evaluator for infix expressions of integers, parenthesised groups
    and the seven operators, written after Python's own grammar rather than after
    the library's split-based resolver: an arithmetic expression is a
    left-associative chain of terms joined by `+` and `-`, a term a left-associative
    chain of factors joined by `*`, `/`, `//` and `%`, and a factor an operand that
    may be raised, right associatively, by `**`. An operand is an integer or a
    parenthesised expression. Evaluation goes left to right, as Python's does.

    `ResolverAgreesWith` proves that resolving such a list with `apply_order`,
    building the tree and evaluating it gives the reference value, errors
    included, when each operand the resolver sees stands for a reference operand. */
module Reference {
  import opened Errors
  import opened Operators
  import opened Types
  import opened Precedence
  import opened Evaluation

  /** Integers and operators alternate, starting and ending with an integer. */
  predicate NumAlternating(expr: seq<Elem>) {
    |expr| % 2 == 1
    && forall i :: 0 <= i < |expr| ==>
         (if i % 2 == 0 then expr[i].Num? else IsOpIn(expr[i], OperatorSymbols))
  }

  /** The operators joining the chain at a level: 0 for terms, 1 for factors. */
  function Tier(level: nat): set<string>
    requires level < 2
  {
    if level == 0 then AddTier else MulTier
  }

  /** The first position from i on that holds an operator of the tier, or the end. */
  function NextOp(expr: seq<Elem>, i: nat, ops: set<string>): (j: nat)
    requires i <= |expr|
    ensures i <= j <= |expr|
    ensures j < |expr| ==> IsOpIn(expr[j], ops)
    ensures forall k :: i <= k < j ==> !IsOpIn(expr[k], ops)
    decreases |expr| - i
  {
    if i == |expr| || IsOpIn(expr[i], ops) then i else NextOp(expr, i + 1, ops)
  }

  /** The left value, then the right one, then the operator. */
  function Combine(acc: Result<Number>, sym: string, v: Result<Number>): Result<Number> {
    var a :- acc;
    var b :- v;
    Apply(sym, a, b)
  }

  /** The number of numbers and operators in an element, counting those inside a
      group; the measure the reference evaluator decreases. */
  function Size(e: Elem): (n: nat)
    ensures n >= 1
    decreases e
  {
    if e.Group? then 1 + SizeAll(e.items) else 1
  }

  function SizeAll(xs: seq<Elem>): (n: nat)
    ensures n >= |xs|
    decreases xs
  {
    if |xs| == 0 then 0 else SizeAll(xs[..|xs| - 1]) + Size(xs[|xs| - 1])
  }

  lemma {:induction false} SizeAllAppend(a: seq<Elem>, b: seq<Elem>)
    ensures SizeAll(a + b) == SizeAll(a) + SizeAll(b)
    decreases |b|
  {
    if |b| == 0 {
      assert a + b == a;
    } else {
      var b0 := b[..|b| - 1];
      assert (a + b)[..|a + b| - 1] == a + b0;
      assert (a + b)[|a + b| - 1] == b[|b| - 1];
      SizeAllAppend(a, b0);
    }
  }

  /** A slice is no larger than the list, and smaller by at least one for every
      element it leaves out. */
  lemma SizeSlice(xs: seq<Elem>, i: nat, j: nat)
    requires i <= j <= |xs|
    ensures SizeAll(xs[i..j]) + i + (|xs| - j) <= SizeAll(xs)
  {
    assert xs == xs[..i] + xs[i..j] + xs[j..];
    SizeAllAppend(xs[..i] + xs[i..j], xs[j..]);
    SizeAllAppend(xs[..i], xs[i..j]);
  }

  lemma SizeFirst(xs: seq<Elem>)
    requires |xs| >= 1
    ensures Size(xs[0]) + |xs| - 1 <= SizeAll(xs)
  {
    SizeSlice(xs, 0, 1);
    assert xs[0..1] == [xs[0]];
    assert [xs[0]][..0] == [];
  }

  /** The value of an operand: a number is itself, a parenthesised group (a list)
      the value of the expression inside. */
  function OperandValue(e: Elem): Result<Number>
    decreases Size(e), 0
  {
    if e.Num? then Ok(e.n)
    else if e.Group? then Value(e.items, 0)
    else Err(HostCrash)
  }

  /** The value of `expr` read as a chain at `level` (2: a power chain). */
  function Value(expr: seq<Elem>, level: nat): Result<Number>
    requires level <= 2
    decreases SizeAll(expr), 3 - level, |expr| + 1
  {
    if level == 2 then PowValue(expr)
    else
      var j := NextOp(expr, 0, Tier(level));
      SizeSlice(expr, 0, j);
      Fold(expr, level, Value(expr[..j], level + 1), j)
  }

  /** The chain continued from the operator at position i, with the value so far. */
  function Fold(expr: seq<Elem>, level: nat, acc: Result<Number>, i: nat): Result<Number>
    requires level < 2 && i <= |expr|
    requires i < |expr| ==> IsOpIn(expr[i], Tier(level))
    decreases SizeAll(expr), 3 - level, |expr| - i
  {
    if i == |expr| then acc
    else
      var j := NextOp(expr, i + 1, Tier(level));
      SizeSlice(expr, i + 1, j);
      Fold(expr, level, Combine(acc, expr[i].sym, Value(expr[i + 1..j], level + 1)), j)
  }

  /** `a ** b ** c` is `a ** (b ** c)`. */
  function PowValue(expr: seq<Elem>): Result<Number>
    decreases SizeAll(expr), 1, 0
  {
    if |expr| == 0 then Err(HostCrash)
    else if |expr| == 1 then SizeFirst(expr); OperandValue(expr[0])
    else if |expr| == 2 then Err(HostCrash)
    else
      SizeFirst(expr);
      SizeSlice(expr, 2, |expr|);
      assert expr[2..|expr|] == expr[2..];
      Combine(OperandValue(expr[0]), "**", PowValue(expr[2..]))
  }

  // ----- facts about the chains -----

  /** A chain without operators of its tier is a single link. */
  lemma NoTierOps(expr: seq<Elem>, level: nat)
    requires level < 2
    requires forall k :: 0 <= k < |expr| ==> !IsOpIn(expr[k], Tier(level))
    ensures Value(expr, level) == Value(expr, level + 1)
  {
    assert NextOp(expr, 0, Tier(level)) == |expr|;
    assert expr[..|expr|] == expr;
  }

  /** Up to an operator of the tier, scanning a list or its prefix agrees. */
  lemma {:induction false} NextOpPrefix(expr: seq<Elem>, k: nat, i: nat, ops: set<string>)
    requires i <= k < |expr| && IsOpIn(expr[k], ops)
    ensures NextOp(expr[..k], i, ops) == NextOp(expr, i, ops)
    decreases k - i
  {
    if i < k && !IsOpIn(expr[i], ops) {
      assert expr[..k][i] == expr[i];
      NextOpPrefix(expr, k, i + 1, ops);
    }
  }

  /** The step of the fold at the last operator of the tier. */
  lemma LastLink(expr: seq<Elem>, level: nat, acc: Result<Number>, k: nat)
    requires level < 2 && k < |expr| && IsOpIn(expr[k], Tier(level))
    requires forall m :: k < m < |expr| ==> !IsOpIn(expr[m], Tier(level))
    ensures Fold(expr, level, acc, k)
         == Combine(acc, expr[k].sym, Value(expr[k + 1..], level + 1))
  {
    var j := NextOp(expr, k + 1, Tier(level));
    assert j == |expr|;
    assert expr[k + 1..j] == expr[k + 1..];
  }

  /** A fold that starts before the last operator of the tier is the fold of the
      part before it, combined with the last link. */
  lemma {:induction false} FoldSplit(expr: seq<Elem>, level: nat, acc: Result<Number>, i: nat, k: nat)
    requires level < 2 && i <= k < |expr| && IsOpIn(expr[k], Tier(level))
    requires forall m :: k < m < |expr| ==> !IsOpIn(expr[m], Tier(level))
    requires i < k ==> IsOpIn(expr[i], Tier(level))
    ensures Fold(expr, level, acc, i)
         == Combine(Fold(expr[..k], level, acc, i), expr[k].sym, Value(expr[k + 1..], level + 1))
    decreases k - i
  {
    if i == k {
      LastLink(expr, level, acc, k);
    } else {
      var j := NextOp(expr, i + 1, Tier(level));
      NextOpPrefix(expr, k, i + 1, Tier(level));
      assert expr[..k][i + 1..j] == expr[i + 1..j];
      assert expr[..k][i] == expr[i];
      var acc1 := Combine(acc, expr[i].sym, Value(expr[i + 1..j], level + 1));
      FoldSplit(expr, level, acc1, j, k);
    }
  }

  /** A chain splits at its last operator of the tier into the chain before it and
      the last link: this is where the left associativity of `+ -` and `* / // %`
      shows. */
  lemma ValueAtLast(expr: seq<Elem>, level: nat, k: nat)
    requires level < 2 && k < |expr| && IsOpIn(expr[k], Tier(level))
    requires forall m :: k < m < |expr| ==> !IsOpIn(expr[m], Tier(level))
    ensures Value(expr, level)
         == Combine(Value(expr[..k], level), expr[k].sym, Value(expr[k + 1..], level + 1))
  {
    var j := NextOp(expr, 0, Tier(level));
    NextOpPrefix(expr, k, 0, Tier(level));
    assert expr[..k][..j] == expr[..j];
    FoldSplit(expr, level, Value(expr[..j], level + 1), j, k);
  }

  // ----- the resolver agrees with the reference -----

  /** Operands and the seven operators alternate, starting and ending with an
      operand; an operand here is anything but an operator. */
  predicate OpsAlternate(expr: seq<Elem>) {
    |expr| % 2 == 1
    && forall i :: 0 <= i < |expr| ==>
         (if i % 2 == 0 then !expr[i].Op? else IsOpIn(expr[i], OperatorSymbols))
  }

  /** An operand the resolver is given stands for a reference operand when it
      builds to a tree whose value is the reference operand's value. */
  predicate OperandStandsFor(table: FunctionTable, a: Elem, b: Elem) {
    !a.Op? && Build(table, a).Ok? && EvalTree(Build(table, a).value) == OperandValue(b)
  }

  /** The list `impl` the resolver is given stands for the reference list `ref`:
      the same operators at the same places, and each operand standing for the
      reference operand at its place. */
  predicate StandsFor(table: FunctionTable, impl: seq<Elem>, ref: seq<Elem>) {
    |impl| == |ref| && OpsAlternate(ref)
    && forall i :: 0 <= i < |ref| ==>
         (if i % 2 == 1 then impl[i] == ref[i] else OperandStandsFor(table, impl[i], ref[i]))
  }

  /** A list of numbers and operators stands for itself. */
  lemma NumbersStandForThemselves(table: FunctionTable, expr: seq<Elem>)
    requires NumAlternating(expr)
    ensures StandsFor(table, expr, expr)
  {
  }

  lemma StandsForSlices(table: FunctionTable, impl: seq<Elem>, ref: seq<Elem>, k: nat)
    requires StandsFor(table, impl, ref) && k < |ref| && k % 2 == 1
    ensures StandsFor(table, impl[..k], ref[..k]) && StandsFor(table, impl[k + 1..], ref[k + 1..])
  {
    var a, b := impl[k + 1..], ref[k + 1..];
    forall i | 0 <= i < |b|
      ensures if i % 2 == 0 then !b[i].Op? else IsOpIn(b[i], OperatorSymbols)
      ensures if i % 2 == 1 then a[i] == b[i] else OperandStandsFor(table, a[i], b[i])
    {
      assert a[i] == impl[k + 1 + i] && b[i] == ref[k + 1 + i];
      assert (k + 1 + i) % 2 == i % 2;
    }
  }

  /** Where an operator of a tier is last (or first) depends only on where the
      operators are. */
  lemma RightmostSame(a: seq<Elem>, b: seq<Elem>, ops: set<string>)
    requires |a| == |b| && forall i :: 0 <= i < |a| ==> (IsOpIn(a[i], ops) <==> IsOpIn(b[i], ops))
    ensures Rightmost(a, ops) == Rightmost(b, ops)
  {
  }

  lemma LeftmostSame(a: seq<Elem>, b: seq<Elem>, ops: set<string>)
    requires |a| == |b| && forall i :: 0 <= i < |a| ==> (IsOpIn(a[i], ops) <==> IsOpIn(b[i], ops))
    ensures Leftmost(a, ops) == Leftmost(b, ops)
  {
  }

  /** The resolver splits a list where it splits the reference list it stands for. */
  lemma SplitPointSame(table: FunctionTable, impl: seq<Elem>, ref: seq<Elem>)
    requires StandsFor(table, impl, ref)
    ensures SplitPoint(impl) == SplitPoint(ref)
  {
    forall ops: set<string>, i | 0 <= i < |ref|
      ensures IsOpIn(impl[i], ops) <==> IsOpIn(ref[i], ops)
    {
      if i % 2 == 0 {
        assert !impl[i].Op? && !ref[i].Op?;
      }
    }
    RightmostSame(impl, ref, AddTier);
    RightmostSame(impl, ref, MulTier);
    LeftmostSame(impl, ref, PowTier);
  }

  /** An alternating list longer than three has a split point, at an operator that
      is neither its first nor its last element. */
  lemma OpsAlternateCut(expr: seq<Elem>)
    requires OpsAlternate(expr) && |expr| != 1 && |expr| != 3
    ensures !SplitPoint(expr).NoCut?
    ensures SplitPoint(expr).k % 2 == 1 && SplitPoint(expr).k < |expr| - 1
  {
    SplitPointSpec(expr);
    assert IsOpIn(expr[1], OperatorSymbols);
    assert (|expr| - 1) % 2 == 0;
  }

  /** The tree of `[l, op, r]` evaluates to the operator applied to both sides. */
  lemma BuildTriple(table: FunctionTable, l: Elem, op: Elem, r: Elem)
    requires op.Op? && Build(table, l).Ok? && Build(table, r).Ok?
    ensures Build(table, Group([l, op, r])) == Ok(Node(Build(table, l).value, op, Build(table, r).value))
    ensures EvalTree(Build(table, Group([l, op, r])).value)
         == Combine(EvalTree(Build(table, l).value), op.sym, EvalTree(Build(table, r).value))
  {
  }

  /** The value of a three-element list, at whichever level its operator sits. */
  lemma ValueOfTriple(expr: seq<Elem>)
    requires OpsAlternate(expr) && |expr| == 3
    ensures Value(expr, 0) == Combine(OperandValue(expr[0]), expr[1].sym, OperandValue(expr[2]))
  {
    var op := expr[1];
    assert expr[..1] == [expr[0]] && expr[2..3] == [expr[2]] && expr[2..] == [expr[2]];
    assert Value([expr[0]], 2) == OperandValue(expr[0]);
    assert Value([expr[2]], 2) == OperandValue(expr[2]);
    NoTierOps([expr[0]], 1);
    NoTierOps([expr[2]], 1);
    NoTierOps([expr[0]], 0);
    if op.sym in AddTier {
      ValueAtLast(expr, 0, 1);
    } else if op.sym in MulTier {
      NoTierOps(expr, 0);
      ValueAtLast(expr, 1, 1);
    } else {
      NoTierOps(expr, 0);
      NoTierOps(expr, 1);
    }
  }

  /** What the resolver's output builds and evaluates to, for a three-element list. */
  lemma AgreesOnTriple(table: FunctionTable, impl: seq<Elem>, ref: seq<Elem>)
    requires StandsFor(table, impl, ref) && |ref| == 3
    ensures ApplyOrder(impl) == Ok(Group(impl))
    ensures Build(table, Group(impl)).Ok?
    ensures EvalTree(Build(table, Group(impl)).value) == Value(ref, 0)
  {
    assert impl == [impl[0], impl[1], impl[2]];
    assert OperandStandsFor(table, impl[0], ref[0]) && OperandStandsFor(table, impl[2], ref[2]);
    assert impl[1] == ref[1];
    BuildTriple(table, impl[0], impl[1], impl[2]);
    ValueOfTriple(ref);
  }

  /** The reference value of a list the resolver splits at an additive operator. */
  lemma SplitAtAdd(expr: seq<Elem>, k: nat)
    requires k < |expr| && IsOpIn(expr[k], AddTier)
    requires forall m :: k < m < |expr| ==> !IsOpIn(expr[m], AddTier)
    ensures Value(expr, 0) == Combine(Value(expr[..k], 0), expr[k].sym, Value(expr[k + 1..], 0))
  {
    ValueAtLast(expr, 0, k);
    NoTierOps(expr[k + 1..], 0);
  }

  /** The reference value of a list the resolver splits at a multiplicative operator. */
  lemma SplitAtMul(expr: seq<Elem>, k: nat)
    requires k < |expr| && IsOpIn(expr[k], MulTier)
    requires forall m :: 0 <= m < |expr| ==> !IsOpIn(expr[m], AddTier)
    requires forall m :: k < m < |expr| ==> !IsOpIn(expr[m], MulTier)
    ensures Value(expr, 0) == Combine(Value(expr[..k], 0), expr[k].sym, Value(expr[k + 1..], 0))
  {
    var left, right := expr[..k], expr[k + 1..];
    NoTierOps(expr, 0);
    assert forall m :: 0 <= m < |left| ==> left[m] == expr[m];
    NoTierOps(left, 0);
    assert forall m :: 0 <= m < |right| ==> right[m] == expr[k + 1 + m];
    NoTierOps(right, 0);
    NoTierOps(right, 1);
    ValueAtLast(expr, 1, k);
  }

  /** The reference value of a power chain split at its first `**`. */
  lemma SplitAtPow(expr: seq<Elem>)
    requires OpsAlternate(expr) && |expr| >= 3
    requires forall m :: 0 <= m < |expr| ==> !IsOpIn(expr[m], AddTier) && !IsOpIn(expr[m], MulTier)
    ensures IsOpIn(expr[1], PowTier)
    ensures Value(expr, 0) == Combine(Value(expr[..1], 0), expr[1].sym, Value(expr[2..], 0))
  {
    var left, right := expr[..1], expr[2..];
    assert IsOpIn(expr[1], OperatorSymbols);
    NoTierOps(expr, 0);
    NoTierOps(expr, 1);
    assert left == [expr[0]];
    assert Value(left, 2) == OperandValue(expr[0]);
    NoTierOps(left, 1);
    NoTierOps(left, 0);
    assert forall m :: 0 <= m < |right| ==> right[m] == expr[2 + m];
    NoTierOps(right, 0);
    NoTierOps(right, 1);
  }

  /** The reference value of a list, split where the resolver splits it. */
  lemma ValueAtSplit(expr: seq<Elem>, k: nat)
    requires OpsAlternate(expr) && |expr| != 1 && |expr| != 3
    requires (SplitPoint(expr) == LeftAt(k) && k < |expr| - 1) || SplitPoint(expr) == RightAt(k)
    requires k % 2 == 1
    ensures Value(expr, 0) == Combine(Value(expr[..k], 0), expr[k].sym, Value(expr[k + 1..], 0))
  {
    SplitPointSpec(expr);
    if SplitPoint(expr).LeftAt? {
      if IsOpIn(expr[k], AddTier) {
        SplitAtAdd(expr, k);
      } else {
        SplitAtMul(expr, k);
      }
    } else {
      // the leftmost `**` of an alternating list of powers is its second element
      SplitAtPow(expr);
    }
  }

  lemma AgreesStep(table: FunctionTable, impl: seq<Elem>, ref: seq<Elem>, k: nat)
    requires StandsFor(table, impl, ref) && |ref| != 1 && |ref| != 3
    requires (SplitPoint(ref) == LeftAt(k) && k < |ref| - 1) || SplitPoint(ref) == RightAt(k)
    requires k % 2 == 1
    requires ApplyOrder(impl[..k]).Ok? && Build(table, ApplyOrder(impl[..k]).value).Ok?
    requires ApplyOrder(impl[k + 1..]).Ok? && Build(table, ApplyOrder(impl[k + 1..]).value).Ok?
    requires EvalTree(Build(table, ApplyOrder(impl[..k]).value).value) == Value(ref[..k], 0)
    requires EvalTree(Build(table, ApplyOrder(impl[k + 1..]).value).value) == Value(ref[k + 1..], 0)
    ensures ApplyOrder(impl).Ok? && Build(table, ApplyOrder(impl).value).Ok?
    ensures EvalTree(Build(table, ApplyOrder(impl).value).value) == Value(ref, 0)
  {
    SplitPointSame(table, impl, ref);
    assert impl[k] == ref[k] && ref[k].Op?;
    ModelStepOk(impl, k);
    BuildTriple(table, ApplyOrder(impl[..k]).value, impl[k], ApplyOrder(impl[k + 1..]).value);
    ValueAtSplit(ref, k);
  }

  /** Resolving with `apply_order` a list that stands for an alternating reference
      list, building the tree and evaluating it yields the reference value of that
      list, including which error is reported first. */
  lemma {:induction false} ResolverAgreesWith(table: FunctionTable, impl: seq<Elem>, ref: seq<Elem>)
    requires StandsFor(table, impl, ref)
    ensures ApplyOrder(impl).Ok? && Build(table, ApplyOrder(impl).value).Ok?
    ensures EvalTree(Build(table, ApplyOrder(impl).value).value) == Value(ref, 0)
    decreases |ref|
  {
    if |ref| == 1 {
      assert OperandStandsFor(table, impl[0], ref[0]);
      assert ref == [ref[0]];
      assert Value(ref, 2) == OperandValue(ref[0]);
      NoTierOps(ref, 1);
      NoTierOps(ref, 0);
    } else if |ref| == 3 {
      AgreesOnTriple(table, impl, ref);
    } else {
      OpsAlternateCut(ref);
      var k := SplitPoint(ref).k;
      StandsForSlices(table, impl, ref, k);
      ResolverAgreesWith(table, impl[..k], ref[..k]);
      ResolverAgreesWith(table, impl[k + 1..], ref[k + 1..]);
      AgreesStep(table, impl, ref, k);
    }
  }

  /** Resolving an alternating list of integers and operators with `apply_order`,
      building the tree and evaluating it yields the reference value, including
      which error is reported first. */
  lemma ResolverAgrees(table: FunctionTable, expr: seq<Elem>)
    requires NumAlternating(expr)
    ensures ApplyOrder(expr).Ok? && Build(table, ApplyOrder(expr).value).Ok?
    ensures EvalTree(Build(table, ApplyOrder(expr).value).value) == Value(expr, 0)
  {
    NumbersStandForThemselves(table, expr);
    ResolverAgreesWith(table, expr, expr);
  }
}
