/** The precedence resolver `apply_order`: one greedy split per call, at the
    rightmost `+`/`-`, else the rightmost `*`, `/`, `//`, `%`, else the leftmost `**`.

    The resolver is not total in Python. When the chosen split is the last element of
    the list (a trailing `+` in "2+3+"), the right part is written `expr[-i:]` with
    `i == 0`, which is the whole list again, and the call recurses on its own input
    until Python raises `RecursionError`. `ApplyOrder` returns `HostCrash` there, and
    `ApplyOrderFuel` below transliterates the Python slicing literally, with a fuel
    bound, to show that this is exactly when the original never returns. */
module Precedence {
  import opened Errors
  import opened Operators
  import opened Types

  /** The three tiers of `OPERATORS_ORDER`, from loosest to tightest. */
  const AddTier: set<string> := {"+", "-"}
  const MulTier: set<string> := {"*", "/", "//", "%"}
  const PowTier: set<string> := {"**"}

  predicate IsOpIn(e: Elem, ops: set<string>) {
    e.Op? && e.sym in ops
  }

  /** Index of the last operator of the tier. */
  function Rightmost(expr: seq<Elem>, ops: set<string>): (r: Option<nat>)
    ensures r.Some? ==> r.value < |expr| && IsOpIn(expr[r.value], ops)
    ensures r.Some? ==> forall j :: r.value < j < |expr| ==> !IsOpIn(expr[j], ops)
    ensures r.None? ==> forall j :: 0 <= j < |expr| ==> !IsOpIn(expr[j], ops)
    decreases |expr|
  {
    if |expr| == 0 then None
    else if IsOpIn(expr[|expr| - 1], ops) then Some(|expr| - 1)
    else Rightmost(expr[..|expr| - 1], ops)
  }

  /** Index of the first operator of the tier. */
  function Leftmost(expr: seq<Elem>, ops: set<string>): (r: Option<nat>)
    ensures r.Some? ==> r.value < |expr| && IsOpIn(expr[r.value], ops)
    ensures r.Some? ==> forall j :: 0 <= j < r.value ==> !IsOpIn(expr[j], ops)
    ensures r.None? ==> forall j :: 0 <= j < |expr| ==> !IsOpIn(expr[j], ops)
    decreases |expr|
  {
    if |expr| == 0 then None
    else if IsOpIn(expr[0], ops) then Some(0)
    else match Leftmost(expr[1..], ops)
      case None => None
      case Some(k) => Some(k + 1)
  }

  /** Where the resolver splits: a left-associative tier at its rightmost operator, the
      power tier at its leftmost one. */
  datatype Cut = LeftAt(k: nat) | RightAt(k: nat) | NoCut

  function SplitPoint(expr: seq<Elem>): (c: Cut)
    ensures !c.NoCut? ==> c.k < |expr| && expr[c.k].Op?
  {
    match Rightmost(expr, AddTier)
    case Some(k) => LeftAt(k)
    case None =>
      match Rightmost(expr, MulTier)
      case Some(k) => LeftAt(k)
      case None =>
        match Leftmost(expr, PowTier)
        case Some(k) => RightAt(k)
        case None => NoCut
  }

  /** The three-element list `[left, op, right]` once both sides are resolved; the
      left side is resolved first, so its failure is the one reported. */
  function Triple(left: Result<Elem>, op: Elem, right: Result<Elem>): Result<Elem> {
    if left.Err? then Err(left.error)
    else if right.Err? then Err(right.error)
    else Ok(Group([left.value, op, right.value]))
  }

  /** `apply_order`. A list of one element is that element, a list of three is returned
      as it is, and anything else is split in three around the operator `SplitPoint`
      picks, both sides resolved recursively; with no operator to split at, Python's
      function falls off its end and returns `None`. */
  function ApplyOrder(expr: seq<Elem>): (r: Result<Elem>)
    ensures r.Err? ==> r.error == HostCrash
    decreases |expr|
  {
    if |expr| == 1 then Ok(expr[0])
    else if |expr| == 3 then Ok(Group(expr))
    else match SplitPoint(expr)
      case NoCut => Ok(Nothing)
      case LeftAt(k) =>
        if k == |expr| - 1 then Err(HostCrash)
        else Triple(ApplyOrder(expr[..k]), expr[k], ApplyOrder(expr[k + 1..]))
      case RightAt(k) =>
        Triple(ApplyOrder(expr[..k]), expr[k], ApplyOrder(expr[k + 1..]))
  }

  // ----- the literal transliteration, with fuel -----

  datatype Run<T> = Done(value: T) | OutOfFuel

  function TripleRun(left: Run<Elem>, op: Elem, right: Run<Elem>): Run<Elem> {
    if left.OutOfFuel? || right.OutOfFuel? then OutOfFuel
    else Done(Group([left.value, op, right.value]))
  }

  /** `apply_order` as written, each call spending one unit of fuel. For a left tier
      the loop counts `i` from the end (`enumerate(reversed(expr))`), and the two parts
      are `expr[:-i-1]` and `expr[-i:]`; since `-0 == 0`, the latter is the whole list
      when `i == 0`. */
  function ApplyOrderFuel(expr: seq<Elem>, fuel: nat): Run<Elem>
    decreases fuel
  {
    if fuel == 0 then OutOfFuel
    else if |expr| == 1 then Done(expr[0])
    else if |expr| == 3 then Done(Group(expr))
    else match SplitPoint(expr)
      case NoCut => Done(Nothing)
      case LeftAt(k) =>
        var i := |expr| - 1 - k;
        var leftPart := expr[..|expr| - i - 1];
        var rightPart := if i == 0 then expr else expr[|expr| - i..];
        TripleRun(ApplyOrderFuel(leftPart, fuel - 1), expr[k], ApplyOrderFuel(rightPart, fuel - 1))
      case RightAt(k) =>
        TripleRun(ApplyOrderFuel(expr[..k], fuel - 1), expr[k], ApplyOrderFuel(expr[k + 1..], fuel - 1))
  }

  /** Where the model returns a value, the original returns the same value, given
      one more unit of fuel than the list is long. */
  lemma ApplyOrderFuelReturns(expr: seq<Elem>, fuel: nat)
    requires ApplyOrder(expr).Ok? && fuel > |expr|
    ensures ApplyOrderFuel(expr, fuel) == Done(ApplyOrder(expr).value)
  {
    FuelAgreesAll(expr, fuel);
  }

  predicate FuelAgrees(expr: seq<Elem>, fuel: nat)
    requires ApplyOrder(expr).Ok?
  {
    ApplyOrderFuel(expr, fuel) == Done(ApplyOrder(expr).value)
  }

  lemma {:induction false} FuelAgreesAll(expr: seq<Elem>, fuel: nat)
    requires ApplyOrder(expr).Ok? && fuel > |expr|
    ensures FuelAgrees(expr, fuel)
    decreases |expr|
  {
    if |expr| == 1 || |expr| == 3 || SplitPoint(expr).NoCut? {
      FuelReturnsBase(expr, fuel);
    } else {
      var k := SplitPoint(expr).k;
      var f: nat := fuel - 1;
      PartsResolve(expr, k);
      FuelAgreesAll(expr[..k], f);
      FuelAgreesAll(expr[k + 1..], f);
      FuelReturnsStep(expr, fuel, k, f);
    }
  }

  /** Where the model resolves a list that it splits, it resolves both parts. */
  lemma PartsResolve(expr: seq<Elem>, k: nat)
    requires ApplyOrder(expr).Ok? && |expr| != 1 && |expr| != 3
    requires SplitPoint(expr) == LeftAt(k) || SplitPoint(expr) == RightAt(k)
    ensures k < |expr| && ApplyOrder(expr[..k]).Ok? && ApplyOrder(expr[k + 1..]).Ok?
  {
  }

  /** The inductive step of `ApplyOrderFuelReturns`, given its claim for both parts. */
  lemma FuelReturnsStep(expr: seq<Elem>, fuel: nat, k: nat, f: nat)
    requires ApplyOrder(expr).Ok? && fuel > |expr| && |expr| != 1 && |expr| != 3
    requires SplitPoint(expr) == LeftAt(k) || SplitPoint(expr) == RightAt(k)
    requires k < |expr| && ApplyOrder(expr[..k]).Ok? && ApplyOrder(expr[k + 1..]).Ok?
    requires f == fuel - 1 && FuelAgrees(expr[..k], f) && FuelAgrees(expr[k + 1..], f)
    ensures FuelAgrees(expr, fuel)
  {
    var a, b := ApplyOrder(expr[..k]).value, ApplyOrder(expr[k + 1..]).value;
    assert ApplyOrderFuel(expr[..k], f) == Done(a);
    assert ApplyOrderFuel(expr[k + 1..], f) == Done(b);
    if SplitPoint(expr).LeftAt? {
      assert k < |expr| - 1;
      FuelStepLeft(expr, fuel, k, f);
    } else {
      FuelStepRight(expr, fuel, k, f);
    }
    assert ApplyOrderFuel(expr, fuel) == Done(Group([a, expr[k], b]));
    ModelStep(expr, k);
    assert ApplyOrder(expr) == Ok(Group([a, expr[k], b]));
  }

  /** `ApplyOrderFuelReturns` where the model does not recurse. */
  lemma FuelReturnsBase(expr: seq<Elem>, fuel: nat)
    requires ApplyOrder(expr).Ok? && fuel > |expr|
    requires |expr| == 1 || |expr| == 3 || SplitPoint(expr).NoCut?
    ensures FuelAgrees(expr, fuel)
  {
  }

  /** One step of the transliteration at a left-tier split that is not the last element. */
  lemma FuelStepLeft(expr: seq<Elem>, fuel: nat, k: nat, f: nat)
    requires fuel > 0 && f == fuel - 1 && |expr| != 1 && |expr| != 3
    requires SplitPoint(expr) == LeftAt(k) && k < |expr| - 1
    ensures ApplyOrderFuel(expr, fuel)
         == TripleRun(ApplyOrderFuel(expr[..k], f), expr[k], ApplyOrderFuel(expr[k + 1..], f))
  {
    var i := |expr| - 1 - k;
    assert expr[..|expr| - i - 1] == expr[..k];
    assert expr[|expr| - i..] == expr[k + 1..];
  }

  /** One step of the transliteration at a power-tier split. */
  lemma FuelStepRight(expr: seq<Elem>, fuel: nat, k: nat, f: nat)
    requires fuel > 0 && f == fuel - 1 && |expr| != 1 && |expr| != 3
    requires SplitPoint(expr) == RightAt(k)
    ensures ApplyOrderFuel(expr, fuel)
         == TripleRun(ApplyOrderFuel(expr[..k], f), expr[k], ApplyOrderFuel(expr[k + 1..], f))
  {
  }

  /** One step of the model at a split that is not the last element. */
  lemma ModelStep(expr: seq<Elem>, k: nat)
    requires |expr| != 1 && |expr| != 3
    requires (SplitPoint(expr) == LeftAt(k) && k < |expr| - 1) || SplitPoint(expr) == RightAt(k)
    ensures ApplyOrder(expr) == Triple(ApplyOrder(expr[..k]), expr[k], ApplyOrder(expr[k + 1..]))
  {
  }

  /** A left-tier split at the last element recurses on the same list. */
  lemma {:induction false} DivergesAtLast(expr: seq<Elem>, fuel: nat)
    requires fuel > 0 && |expr| != 1 && |expr| != 3
    requires |expr| > 0 && SplitPoint(expr) == LeftAt(|expr| - 1)
    ensures ApplyOrderFuel(expr, fuel) == OutOfFuel
    decreases fuel, 0
  {
    var k := |expr| - 1;
    ApplyOrderFuelDiverges(expr, fuel - 1);
    assert ApplyOrder(expr).Err?;
    assert ApplyOrderFuel(expr, fuel)
        == TripleRun(ApplyOrderFuel(expr[..k], fuel - 1), expr[k], ApplyOrderFuel(expr, fuel - 1));
  }

  /** A failed triple on the model side, with every failed side out of fuel on the
      transliteration's side, is out of fuel as a whole. */
  lemma TripleBridge(a: Result<Elem>, op: Elem, b: Result<Elem>, x: Run<Elem>, y: Run<Elem>)
    requires Triple(a, op, b).Err?
    requires a.Err? ==> x.OutOfFuel?
    requires b.Err? ==> y.OutOfFuel?
    ensures TripleRun(x, op, y) == OutOfFuel
  {
  }

  /** At a split that is not the last element, the crash of one side carries over. */
  lemma SplitDiverges(expr: seq<Elem>, fuel: nat, k: nat)
    requires fuel > 0 && |expr| != 1 && |expr| != 3
    requires (SplitPoint(expr) == LeftAt(k) && k < |expr| - 1) || SplitPoint(expr) == RightAt(k)
    requires ApplyOrder(expr).Err?
    requires ApplyOrder(expr[..k]).Err? ==> ApplyOrderFuel(expr[..k], fuel - 1) == OutOfFuel
    requires ApplyOrder(expr[k + 1..]).Err? ==> ApplyOrderFuel(expr[k + 1..], fuel - 1) == OutOfFuel
    ensures ApplyOrderFuel(expr, fuel) == OutOfFuel
  {
    if SplitPoint(expr).LeftAt? {
      FuelStepLeft(expr, fuel, k, fuel - 1);
    } else {
      FuelStepRight(expr, fuel, k, fuel - 1);
    }
    ModelStep(expr, k);
    TripleBridge(ApplyOrder(expr[..k]), expr[k], ApplyOrder(expr[k + 1..]),
                 ApplyOrderFuel(expr[..k], fuel - 1), ApplyOrderFuel(expr[k + 1..], fuel - 1));
  }

  /** Where the model reports a crash, the original never returns: it runs out of
      every amount of fuel. */
  lemma {:induction false} ApplyOrderFuelDiverges(expr: seq<Elem>, fuel: nat)
    ensures ApplyOrder(expr).Err? ==> ApplyOrderFuel(expr, fuel) == OutOfFuel
    decreases fuel, 1
  {
    if fuel > 0 && |expr| != 1 && |expr| != 3 && ApplyOrder(expr).Err? {
      var c := SplitPoint(expr);
      if c.LeftAt? && c.k == |expr| - 1 {
        DivergesAtLast(expr, fuel);
      } else if !c.NoCut? {
        ApplyOrderFuelDiverges(expr[..c.k], fuel - 1);
        ApplyOrderFuelDiverges(expr[c.k + 1..], fuel - 1);
        SplitDiverges(expr, fuel, c.k);
      }
    }
  }

  // ----- what the split point is -----

  /** The split point follows the tiers: the rightmost `+`/`-` when there is one; else
      the rightmost of `*`, `/`, `//`, `%`; else the leftmost `**`; and there is no
      split exactly when no element is one of the seven operators. */
  lemma SplitPointSpec(expr: seq<Elem>)
    ensures SplitPoint(expr).LeftAt? ==>
              var k := SplitPoint(expr).k;
              (IsOpIn(expr[k], AddTier) && forall j :: k < j < |expr| ==> !IsOpIn(expr[j], AddTier))
              || (IsOpIn(expr[k], MulTier)
                  && (forall j :: 0 <= j < |expr| ==> !IsOpIn(expr[j], AddTier))
                  && (forall j :: k < j < |expr| ==> !IsOpIn(expr[j], MulTier)))
    ensures SplitPoint(expr).RightAt? ==>
              var k := SplitPoint(expr).k;
              IsOpIn(expr[k], PowTier)
              && (forall j :: 0 <= j < |expr| ==> !IsOpIn(expr[j], AddTier) && !IsOpIn(expr[j], MulTier))
              && (forall j :: 0 <= j < k ==> !IsOpIn(expr[j], PowTier))
    ensures SplitPoint(expr).NoCut? <==> forall j :: 0 <= j < |expr| ==> !IsOpIn(expr[j], OperatorSymbols)
  {
    if SplitPoint(expr).NoCut? {
      forall j | 0 <= j < |expr|
        ensures !IsOpIn(expr[j], OperatorSymbols)
      {
        assert !IsOpIn(expr[j], AddTier) && !IsOpIn(expr[j], MulTier) && !IsOpIn(expr[j], PowTier);
      }
    }
  }

  /** A list that holds only well-shaped elements resolves to a well-shaped element:
      every list the resolver builds is a triple. */
  lemma {:induction false} ApplyOrderWellShaped(expr: seq<Elem>)
    requires forall i :: 0 <= i < |expr| ==> WellShaped(expr[i])
    ensures ApplyOrder(expr).Ok? ==> WellShaped(ApplyOrder(expr).value)
    decreases |expr|
  {
    if |expr| != 1 && |expr| != 3 && ApplyOrder(expr).Ok? {
      var c := SplitPoint(expr);
      if !c.NoCut? {
        ApplyOrderWellShaped(expr[..c.k]);
        ApplyOrderWellShaped(expr[c.k + 1..]);
        ModelStep(expr, c.k);
      }
    }
  }

  // ----- the resolver only adds structure -----

  /** An operand of an infix expression: a number or a function call. */
  predicate IsOperand(e: Elem) {
    e.Num? || e.Call?
  }

  /** Operands and operators alternate, starting and ending with an operand, as in
      `2 + abs(-1) * 3` once tokenized. */
  predicate Alternating(expr: seq<Elem>) {
    |expr| % 2 == 1
    && forall i :: 0 <= i < |expr| ==>
         (if i % 2 == 0 then IsOperand(expr[i]) else IsOpIn(expr[i], OperatorSymbols))
  }

  /** The inverse of the resolver's grouping: the operands and operators in order,
      with the lists it introduced taken apart. */
  function Flatten(e: Elem): seq<Elem>
    decreases e, 1
  {
    match e
    case Group(xs) => FlattenAll(xs)
    case Nothing => []
    case _ => [e]
  }

  function FlattenAll(xs: seq<Elem>): seq<Elem>
    decreases xs, 0
  {
    if |xs| == 0 then [] else Flatten(xs[0]) + FlattenAll(xs[1..])
  }

  lemma FlattenAllOperands(xs: seq<Elem>)
    requires forall i :: 0 <= i < |xs| ==> IsOperand(xs[i]) || xs[i].Op?
    ensures FlattenAll(xs) == xs
  {
    if |xs| > 0 {
      FlattenAllOperands(xs[1..]);
    }
  }

  lemma AlternatingSlices(expr: seq<Elem>, k: nat)
    requires Alternating(expr) && k < |expr| && k % 2 == 1
    ensures Alternating(expr[..k]) && Alternating(expr[k + 1..])
  {
    var right := expr[k + 1..];
    forall i | 0 <= i < |right|
      ensures if i % 2 == 0 then IsOperand(right[i]) else IsOpIn(right[i], OperatorSymbols)
    {
      assert right[i] == expr[k + 1 + i];
      assert (k + 1 + i) % 2 == i % 2;
    }
  }

  /** An alternating list longer than three has a split point, at an operator that
      is neither its first nor its last element. */
  lemma AlternatingCut(expr: seq<Elem>)
    requires Alternating(expr) && |expr| != 1 && |expr| != 3
    ensures !SplitPoint(expr).NoCut?
    ensures SplitPoint(expr).k % 2 == 1 && SplitPoint(expr).k < |expr| - 1
  {
    SplitPointSpec(expr);
    assert IsOpIn(expr[1], OperatorSymbols);
    assert (|expr| - 1) % 2 == 0;
  }

  lemma FlattenTriple(l: Elem, op: Elem, r: Elem)
    requires op.Op?
    ensures Flatten(Group([l, op, r])) == Flatten(l) + [op] + Flatten(r)
  {
    assert [l, op, r][1..] == [op, r];
    assert [op, r][1..] == [r];
    assert Flatten(op) == [op];
    assert FlattenAll([r]) == Flatten(r) + FlattenAll([]);
    assert FlattenAll([op, r]) == [op] + FlattenAll([r]);
    assert FlattenAll([l, op, r]) == Flatten(l) + FlattenAll([op, r]);
  }

  lemma FlattenAround(expr: seq<Elem>, k: nat, l: Elem, r: Elem)
    requires k < |expr| && expr[k].Op?
    requires Flatten(l) == expr[..k] && Flatten(r) == expr[k + 1..]
    ensures Flatten(Group([l, expr[k], r])) == expr
  {
    FlattenTriple(l, expr[k], r);
    assert expr[..k] + [expr[k]] + expr[k + 1..] == expr;
  }

  /** The model's step when both sides resolve. */
  lemma ModelStepOk(expr: seq<Elem>, k: nat)
    requires |expr| != 1 && |expr| != 3
    requires (SplitPoint(expr) == LeftAt(k) && k < |expr| - 1) || SplitPoint(expr) == RightAt(k)
    requires ApplyOrder(expr[..k]).Ok? && ApplyOrder(expr[k + 1..]).Ok?
    ensures ApplyOrder(expr)
         == Ok(Group([ApplyOrder(expr[..k]).value, expr[k], ApplyOrder(expr[k + 1..]).value]))
  {
    ModelStep(expr, k);
  }

  /** An alternating list always resolves (its last element is never an operator)
      and taking the result apart gives back the list: the resolver reorders nothing
      and drops nothing. */
  lemma {:induction false} ApplyOrderFlatten(expr: seq<Elem>)
    requires Alternating(expr)
    ensures ApplyOrder(expr).Ok? && ApplyOrder(expr).value != Nothing
    ensures Flatten(ApplyOrder(expr).value) == expr
    decreases |expr|
  {
    if |expr| == 1 {
      assert Flatten(expr[0]) == [expr[0]];
    } else if |expr| == 3 {
      FlattenAllOperands(expr);
    } else {
      AlternatingCut(expr);
      var k := SplitPoint(expr).k;
      AlternatingSlices(expr, k);
      ApplyOrderFlatten(expr[..k]);
      ApplyOrderFlatten(expr[k + 1..]);
      ModelStepOk(expr, k);
      FlattenAround(expr, k, ApplyOrder(expr[..k]).value, ApplyOrder(expr[k + 1..]).value);
    }
  }
}
