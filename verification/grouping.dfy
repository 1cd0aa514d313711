/** Expressions with parenthesised groups, in the form the library's test generator
    writes them ("(2+3)*4", "7-(10//3)**2"): every operand is a number or a
    parenthesised expression of numbers and operators. The tokenizer reads a group
    as one element, the group's own resolved list, and evaluating the text gives the
    value of the expression in which each group counts as one operand. */
module Grouping {
  import opened Errors
  import opened Enums
  import opened Operators
  import opened Types
  import opened Lexical
  import opened Precedence
  import opened Tokenization
  import opened TokenizerFacts
  import opened Evaluation
  import opened Reference
  import opened Rendering
  import opened StrMath

  /** An operand: a number, or a group holding numbers joined by operators. */
  datatype Operand = Lit(n: nat) | Paren(ns: seq<nat>, ops: seq<string>)

  /** A group holds at least one operator: a group around a lone number, "(5)",
      reaches the tokenizer's conversion as a number and fails there. */
  predicate OperandOk(x: Operand) {
    x.Paren? ==> Wellformed(x.ns, x.ops) && |x.ops| >= 1
  }

  predicate OperandsOk(xs: seq<Operand>) {
    forall i :: 0 <= i < |xs| ==> OperandOk(xs[i])
  }

  /** One more operand than operators, and every operator one of the seven symbols. */
  predicate GroupedWellformed(xs: seq<Operand>, ops: seq<string>) {
    |xs| == |ops| + 1 && OperandsOk(xs) && forall i :: 0 <= i < |ops| ==> ops[i] in OperatorSymbols
  }

  function OperandText(x: Operand): (s: string)
    requires OperandOk(x)
  {
    match x
    case Lit(n) => Decimal(n)
    case Paren(ns, ops) => "(" + Render(ns, ops) + ")"
  }

  function OperandTexts(xs: seq<Operand>): (ts: seq<string>)
    requires OperandsOk(xs)
  {
    seq(|xs|, i requires 0 <= i < |xs| => OperandText(xs[i]))
  }

  /** Texts joined by operators, without spaces. */
  function Joined(texts: seq<string>, ops: seq<string>): (s: string)
    requires |texts| == |ops| + 1
    decreases |ops|
  {
    if |ops| == 0 then texts[0]
    else Joined(texts[..|texts| - 1], ops[..|ops| - 1]) + ops[|ops| - 1] + texts[|texts| - 1]
  }

  /** The operands joined by the operators, without spaces. */
  function RenderGrouped(xs: seq<Operand>, ops: seq<string>): (s: string)
    requires |xs| == |ops| + 1 && OperandsOk(xs)
  {
    Joined(OperandTexts(xs), ops)
  }

  // ----- the two readings of the text -----

  /** The operand as the reference evaluator reads it: a group is the list it was
      written from. */
  function OperandRef(x: Operand): Elem
    requires OperandOk(x)
  {
    match x
    case Lit(n) => Num(IntN(n))
    case Paren(ns, ops) => Group(Elems(ns, ops))
  }

  /** The alternating list the text stands for, groups kept as single operands. */
  function RefElems(xs: seq<Operand>, ops: seq<string>): (r: seq<Elem>)
    requires |xs| == |ops| + 1 && OperandsOk(xs)
  {
    seq(2 * |ops| + 1, j requires 0 <= j < 2 * |ops| + 1 =>
      if j % 2 == 0 then OperandRef(xs[j / 2]) else Op(ops[j / 2]))
  }

  /** What the tokenizer makes of the inside of a group: the list the resolver
      returns for it (`ResolvedGroup` shows it always returns one). */
  function Resolved(ns: seq<nat>, ops: seq<string>): Elem
    requires |ns| == |ops| + 1
  {
    var r := ApplyOrder(Elems(ns, ops));
    if r.Ok? then r.value else Nothing
  }

  /** The operand as the tokenizer hands it to the resolver. */
  function OperandElem(x: Operand): Elem
    requires OperandOk(x)
  {
    match x
    case Lit(n) => Num(IntN(n))
    case Paren(ns, ops) => Resolved(ns, ops)
  }

  /** The piece the tokenizer's loop emits for the operand. */
  function OperandPiece(x: Operand): Raw
    requires OperandOk(x)
  {
    match x
    case Lit(n) => Text(Decimal(n))
    case Paren(ns, ops) => Nested(Resolved(ns, ops))
  }

  function OperandPieces(xs: seq<Operand>): (pcs: seq<Raw>)
    requires OperandsOk(xs)
  {
    seq(|xs|, i requires 0 <= i < |xs| => OperandPiece(xs[i]))
  }

  function GroupedElems(xs: seq<Operand>, ops: seq<string>): (r: seq<Elem>)
    requires |xs| == |ops| + 1 && OperandsOk(xs)
  {
    seq(2 * |ops| + 1, j requires 0 <= j < 2 * |ops| + 1 =>
      if j % 2 == 0 then OperandElem(xs[j / 2]) else Op(ops[j / 2]))
  }

  /** Pieces and operators, alternating. */
  function Interleave(pcs: seq<Raw>, ops: seq<string>): (r: seq<Raw>)
    requires |pcs| == |ops| + 1
  {
    seq(2 * |ops| + 1, j requires 0 <= j < 2 * |ops| + 1 =>
      if j % 2 == 0 then pcs[j / 2] else Text(ops[j / 2]))
  }

  /** The loop's state right after an operand whose piece is `pc`, given the output
      before it: a number is still pending, a group has been emitted. */
  function AfterPiece(out: seq<Raw>, pc: Raw): ScanState {
    match pc
    case Text(t) => ScanState(out, t, Some(Number), 0, false, false, false)
    case Nested(_) => ScanState(out + [pc], "", Some(Expression), 0, false, false, false)
  }

  /** The loop's state after texts joined by operators: every piece but the last
      emitted, the last one pending or emitted as `AfterPiece` says. */
  function JoinedScanned(pcs: seq<Raw>, ops: seq<string>): ScanState
    requires |pcs| == |ops| + 1
  {
    AfterPiece(Interleave(pcs, ops)[..2 * |ops|], pcs[|pcs| - 1])
  }

  // ----- a group on its own -----

  /** The inside of a group resolves to a three-element list, which is also what
      tokenizing the inside gives, and whose tree evaluates to the reference value
      of the inside. */
  lemma ResolvedGroup(table: FunctionTable, ns: seq<nat>, ops: seq<string>)
    requires Wellformed(ns, ops) && |ops| >= 1
    ensures ApplyOrder(Elems(ns, ops)) == Ok(Resolved(ns, ops)) && Resolved(ns, ops).Group?
    ensures Tokenize(table, Render(ns, ops)) == Ok(Resolved(ns, ops))
    ensures WellShaped(Resolved(ns, ops))
    ensures Build(table, Resolved(ns, ops)).Ok?
    ensures EvalTree(Build(table, Resolved(ns, ops)).value) == Value(Elems(ns, ops), 0)
  {
    var e := Elems(ns, ops);
    ElemsNumAlternating(ns, ops);
    ResolverAgrees(table, e);
    TokenizeRenderElems(table, ns, ops);
    if |e| != 3 {
      assert OpsAlternate(e);
      OpsAlternateCut(e);
      ModelStep(e, SplitPoint(e).k);
    }
  }

  /** Each operand the resolver is given stands for the operand the reference reads. */
  lemma OperandStands(table: FunctionTable, x: Operand)
    requires OperandOk(x)
    ensures OperandStandsFor(table, OperandElem(x), OperandRef(x))
  {
    if x.Paren? {
      ResolvedGroup(table, x.ns, x.ops);
    }
  }

  /** The list the tokenizer produces stands for the list the text was written from. */
  lemma GroupedStandsFor(table: FunctionTable, xs: seq<Operand>, ops: seq<string>)
    requires GroupedWellformed(xs, ops)
    ensures StandsFor(table, GroupedElems(xs, ops), RefElems(xs, ops))
  {
    var impl, ref := GroupedElems(xs, ops), RefElems(xs, ops);
    forall i | 0 <= i < |ref|
      ensures if i % 2 == 0 then !ref[i].Op? else IsOpIn(ref[i], OperatorSymbols)
      ensures if i % 2 == 1 then impl[i] == ref[i] else OperandStandsFor(table, impl[i], ref[i])
    {
      if i % 2 == 0 {
        OperandStands(table, xs[i / 2]);
      }
    }
  }

  // ----- the characters of the text -----

  /** The characters a grouped rendering is made of. */
  predicate GroupedChar(c: char) {
    IsDigit(c) || [c] in OperatorSymbols || c == '(' || c == ')'
  }

  lemma GroupedCharNotSpace(c: char)
    requires GroupedChar(c)
    ensures !IsPyWhitespace(c)
  {
    if [c] in OperatorSymbols {
      assert [c] == "+" || [c] == "-" || [c] == "/" || [c] == "*" || [c] == "%";
      assert [c][0] == c;
    }
  }

  /** The inside of a group holds no parenthesis. */
  lemma InnerNoParens(ns: seq<nat>, ops: seq<string>)
    requires Wellformed(ns, ops)
    ensures forall k :: 0 <= k < |Render(ns, ops)| ==> Render(ns, ops)[k] != '(' && Render(ns, ops)[k] != ')'
  {
    RenderChars(ns, ops);
  }

  /** A nonempty text of those characters. */
  predicate GroupedText(t: string) {
    |t| > 0 && forall k :: 0 <= k < |t| ==> GroupedChar(t[k])
  }

  lemma OperandTextChars(x: Operand)
    requires OperandOk(x)
    ensures GroupedText(OperandText(x))
  {
    if x.Paren? {
      var r := Render(x.ns, x.ops);
      RenderChars(x.ns, x.ops);
      var t := OperandText(x);
      forall k | 0 <= k < |t|
        ensures GroupedChar(t[k])
      {
        if 0 < k < |t| - 1 {
          assert t[k] == r[k - 1];
        }
      }
    }
  }

  lemma {:induction false} JoinedChars(texts: seq<string>, ops: seq<string>)
    requires |texts| == |ops| + 1 && forall i :: 0 <= i < |texts| ==> GroupedText(texts[i])
    requires forall i :: 0 <= i < |ops| ==> ops[i] in OperatorSymbols
    ensures GroupedText(Joined(texts, ops))
    decreases |ops|
  {
    if |ops| > 0 {
      var texts0, ops0 := texts[..|texts| - 1], ops[..|ops| - 1];
      JoinedChars(texts0, ops0);
      var r, op, t := Joined(texts0, ops0), ops[|ops| - 1], texts[|texts| - 1];
      assert GroupedText(t);
      OperatorChars(op);
      var s := Joined(texts, ops);
      assert s == r + op + t;
      forall k | 0 <= k < |s|
        ensures GroupedChar(s[k])
      {
        if k < |r| {
          assert s[k] == r[k];
        } else if k < |r| + |op| {
          assert s[k] == op[k - |r|];
        } else {
          assert s[k] == t[k - |r| - |op|];
        }
      }
    }
  }

  /** Such a text is already in the tokenizer's normal form. */
  lemma NormalizeGroupedText(s: string)
    requires GroupedText(s)
    ensures Normalize(s) == s
  {
    forall k | 0 <= k < |s|
      ensures s[k] != ' '
    {
      GroupedCharNotSpace(s[k]);
    }
    GroupedCharNotSpace(s[0]);
    GroupedCharNotSpace(s[|s| - 1]);
    NormalizeFixes(s);
  }

  // ----- reading the text -----

  /** `text` is the text of an operand and `pc` the piece the loop emits for it:
      digits, emitted as they are, or a parenthesised text without parentheses
      inside, emitted as what its inside tokenizes to. */
  predicate ReadsAs(table: FunctionTable, text: string, pc: Raw) {
    match pc
    case Text(t) => t == text && IsDigits(t)
    case Nested(e) =>
      |text| >= 2 && text == "(" + text[1..|text| - 1] + ")"
      && (forall k :: 1 <= k < |text| - 1 ==> text[k] != '(' && text[k] != ')')
      && Tokenize(table, text[1..|text| - 1]) == Ok(e)
  }

  /** Each text reads as its piece. */
  predicate AllRead(table: FunctionTable, texts: seq<string>, pcs: seq<Raw>) {
    |texts| == |pcs| && forall i :: 0 <= i < |pcs| ==> ReadsAs(table, texts[i], pcs[i])
  }

  lemma OperandReads(table: FunctionTable, x: Operand)
    requires OperandOk(x)
    ensures ReadsAs(table, OperandText(x), OperandPiece(x))
  {
    if x.Paren? {
      var inner, text := Render(x.ns, x.ops), OperandText(x);
      InnerNoParens(x.ns, x.ops);
      ResolvedGroup(table, x.ns, x.ops);
      assert text[1..|text| - 1] == inner;
      forall k | 1 <= k < |text| - 1
        ensures text[k] != '(' && text[k] != ')'
      {
        assert text[k] == inner[k - 1];
      }
    }
  }

  /** Reading a group whose text starts at position p and runs to the end. */
  lemma ScanGroupToEnd(table: FunctionTable, s: string, p: nat, st: ScanState, pc: Raw)
    requires pc.Nested? && p <= |s| && ReadsAs(table, s[p..], pc)
    requires Bounded(st, p) && TopLevel(st)
    ensures Scan(table, s, p, st) == Ok(AfterPiece(Emitted(st), pc))
  {
    var text := s[p..];
    var inner := text[1..|text| - 1];
    assert s[p..p + |inner| + 2] == text;
    ScanGroup(table, s, p, st, inner);
  }

  /** Reading the first operand from the start of the text. */
  lemma ScanFirst(table: FunctionTable, text: string, pc: Raw)
    requires ReadsAs(table, text, pc)
    ensures Scan(table, text, 0, Start) == Ok(AfterPiece([], pc))
  {
    if pc.Text? {
      ScanDigits(table, text);
    } else {
      assert text[0..] == text && Emitted(Start) == [];
      ScanGroupToEnd(table, text, 0, Start, pc);
    }
  }

  /** Reading an operator right after a closed group. */
  lemma ScanOperatorAfterGroup(table: FunctionTable, s: string, p: nat, st: ScanState, op: string)
    requires op in OperatorSymbols && p + |op| < |s| && s[p..p + |op|] == op
    requires Bounded(st, p) && TopLevel(st) && st.kind == Some(Expression) && st.acc == ""
    ensures Bounded(st.(acc := op, kind := Some(Operator)), p + |op|)
    ensures Scan(table, s, p, st) == Scan(table, s, p + |op|, st.(acc := op, kind := Some(Operator)))
  {
    OperatorChars(op);
    assert s[p] == op[0];
    assert ClassifyChar(table.Keys, s[p]) == Ok(Operator);
    StepAfterGroup(table, p, st, s[p]);
    var st1 := st.(acc := [s[p]], kind := Some(Operator));
    ScanStep(table, s, p, st);
    if |op| == 2 {
      ScanOperatorSecond(table, s, p, st1, op);
    } else {
      assert [s[p]] == op;
    }
  }

  /** Reading an operator after an operand: the operand's piece is emitted (a
      pending number now, a group already) and the operator is pending. */
  lemma ScanJoin(table: FunctionTable, s: string, p: nat, out: seq<Raw>, pc: Raw, op: string)
    requires (pc.Text? ==> IsDigits(pc.t)) && op in OperatorSymbols
    requires p + |op| < |s| && s[p..p + |op|] == op && Bounded(AfterPiece(out, pc), p)
    ensures Bounded(ScanState(out + [pc], op, Some(Operator), 0, false, false, false), p + |op|)
    ensures Scan(table, s, p, AfterPiece(out, pc))
         == Scan(table, s, p + |op|, ScanState(out + [pc], op, Some(Operator), 0, false, false, false))
  {
    if pc.Text? {
      ScanOperator(table, s, p, AfterPiece(out, pc), op);
    } else {
      ScanOperatorAfterGroup(table, s, p, AfterPiece(out, pc), op);
    }
  }

  /** Reading the last operand after an operator: the operator is emitted. */
  lemma ScanLast(table: FunctionTable, s: string, p: nat, out: seq<Raw>, op: string, pc: Raw)
    requires op in OperatorSymbols && p <= |s| && ReadsAs(table, s[p..], pc)
    requires Bounded(ScanState(out, op, Some(Operator), 0, false, false, false), p)
    ensures Scan(table, s, p, ScanState(out, op, Some(Operator), 0, false, false, false))
         == Ok(AfterPiece(out + [Text(op)], pc))
  {
    var st := ScanState(out, op, Some(Operator), 0, false, false, false);
    OperatorChars(op);
    assert Emitted(st) == out + [Text(op)];
    if pc.Text? {
      forall k | p <= k < |s|
        ensures IsDigit(s[k])
      {
        assert s[k] == s[p..][k - p];
      }
      ScanNumber(table, s, p, st);
    } else {
      ScanGroupToEnd(table, s, p, st, pc);
    }
  }

  /** Reading an operator and then the last operand, after an operand. */
  lemma ScanJoinLast(table: FunctionTable, s: string, p: nat, out: seq<Raw>, pc0: Raw, op: string, pc: Raw)
    requires (pc0.Text? ==> IsDigits(pc0.t)) && op in OperatorSymbols
    requires p + |op| <= |s| && s[p..p + |op|] == op && ReadsAs(table, s[p + |op|..], pc)
    requires Bounded(AfterPiece(out, pc0), p)
    ensures Scan(table, s, p, AfterPiece(out, pc0)) == Ok(AfterPiece(out + [pc0, Text(op)], pc))
  {
    var out1 := out + [pc0];
    var st1 := ScanState(out1, op, Some(Operator), 0, false, false, false);
    assert out1 + [Text(op)] == out + [pc0, Text(op)];
    assert p + |op| < |s|;
    ScanJoin(table, s, p, out, pc0, op);
    ScanLast(table, s, p + |op|, out1, op, pc);
    calc {
      Scan(table, s, p, AfterPiece(out, pc0));
      Scan(table, s, p + |op|, st1);
      Ok(AfterPiece(out1 + [Text(op)], pc));
    }
  }

  lemma InterleaveSnoc(pcs: seq<Raw>, ops: seq<string>)
    requires |pcs| == |ops| + 1 && |ops| > 0
    ensures Interleave(pcs, ops)[..2 * |ops|]
         == Interleave(pcs[..|pcs| - 1], ops[..|ops| - 1])[..2 * (|ops| - 1)] + [pcs[|pcs| - 2], Text(ops[|ops| - 1])]
  {
  }

  /** The text after the last operator splits off as that operator and the last text. */
  lemma JoinedSplit(texts: seq<string>, ops: seq<string>)
    requires |texts| == |ops| + 1 && |ops| > 0
    ensures var r, op := Joined(texts[..|texts| - 1], ops[..|ops| - 1]), ops[|ops| - 1];
      var s := Joined(texts, ops);
      |r| + |op| <= |s| && s[..|r|] == r && s[|r|..|r| + |op|] == op && s[|r| + |op|..] == texts[|texts| - 1]
  {
  }

  lemma ScanJoinedStep(table: FunctionTable, texts: seq<string>, pcs: seq<Raw>, ops: seq<string>)
    requires AllRead(table, texts, pcs) && |pcs| == |ops| + 1 && |ops| > 0
    requires forall i :: 0 <= i < |ops| ==> ops[i] in OperatorSymbols
    requires Scan(table, Joined(texts[..|texts| - 1], ops[..|ops| - 1]), 0, Start)
          == Ok(JoinedScanned(pcs[..|pcs| - 1], ops[..|ops| - 1]))
    ensures Scan(table, Joined(texts, ops), 0, Start) == Ok(JoinedScanned(pcs, ops))
  {
    var r, op := Joined(texts[..|texts| - 1], ops[..|ops| - 1]), ops[|ops| - 1];
    var s := Joined(texts, ops);
    JoinedSplit(texts, ops);
    assert s == r + s[|r|..];
    ScanPrefix(table, r, s[|r|..], 0, Start);
    var out0, pc0 := Interleave(pcs[..|pcs| - 1], ops[..|ops| - 1])[..2 * (|ops| - 1)], pcs[|pcs| - 2];
    assert ReadsAs(table, texts[|pcs| - 2], pc0);
    assert ReadsAs(table, texts[|texts| - 1], pcs[|pcs| - 1]);
    ScanJoinLast(table, s, |r|, out0, pc0, op, pcs[|pcs| - 1]);
    InterleaveSnoc(pcs, ops);
  }

  /** Reading texts joined by operators ends with every piece but the last
      emitted, and that one emitted too when it is a group. */
  lemma {:induction false} ScanJoined(table: FunctionTable, texts: seq<string>, pcs: seq<Raw>, ops: seq<string>)
    requires AllRead(table, texts, pcs) && |pcs| == |ops| + 1
    requires forall i :: 0 <= i < |ops| ==> ops[i] in OperatorSymbols
    ensures Scan(table, Joined(texts, ops), 0, Start) == Ok(JoinedScanned(pcs, ops))
    decreases |ops|
  {
    if |ops| == 0 {
      assert ReadsAs(table, texts[0], pcs[0]);
      ScanFirst(table, texts[0], pcs[0]);
    } else {
      var texts0, pcs0 := texts[..|texts| - 1], pcs[..|pcs| - 1];
      assert AllRead(table, texts0, pcs0) by {
        forall i | 0 <= i < |pcs0|
          ensures ReadsAs(table, texts0[i], pcs0[i])
        {
          assert texts0[i] == texts[i] && pcs0[i] == pcs[i];
        }
      }
      ScanJoined(table, texts0, pcs0, ops[..|ops| - 1]);
      ScanJoinedStep(table, texts, pcs, ops);
    }
  }

  // ----- the rest of the tokenizer -----

  /** After the text the last piece is emitted, if still pending, and nothing is
      left unfinished. */
  lemma FinishJoined(pcs: seq<Raw>, ops: seq<string>, n: nat)
    requires |pcs| == |ops| + 1 && pcs[|pcs| - 1] != Text("")
    requires Bounded(JoinedScanned(pcs, ops), n)
    ensures Finish(JoinedScanned(pcs, ops)) == Ok(Interleave(pcs, ops))
    ensures forall j :: 0 <= j < 2 * |ops| + 1 ==> RawOk(Interleave(pcs, ops)[j], n)
  {
    var st, raws := JoinedScanned(pcs, ops), Interleave(pcs, ops);
    assert raws == raws[..2 * |ops|] + [pcs[|pcs| - 1]];
    if pcs[|pcs| - 1].Text? {
      assert st.acc != "" && Finish(st) == Ok(st.out + [Text(st.acc)]);
    }
    assert Finish(st) == Ok(raws);
    forall j | 0 <= j < |raws|
      ensures RawOk(raws[j], n)
    {
      if j < |st.out| {
        assert raws[j] == st.out[j];
      }
    }
  }

  /** The pieces convert to the operands and operators the resolver is given. */
  lemma ConvertGrouped(table: FunctionTable, bound: nat, xs: seq<Operand>, ops: seq<string>)
    requires GroupedWellformed(xs, ops)
    requires forall j :: 0 <= j < 2 * |ops| + 1 ==> RawOk(Interleave(OperandPieces(xs), ops)[j], bound)
    ensures ConvertAll(table, bound, Interleave(OperandPieces(xs), ops)) == Ok(GroupedElems(xs, ops))
  {
    var raws, elems := Interleave(OperandPieces(xs), ops), GroupedElems(xs, ops);
    forall j | 0 <= j < |raws|
      ensures ConvertRaw(table, bound, raws[j]) == Ok(elems[j])
    {
      if j % 2 == 0 {
        var x := xs[j / 2];
        if x.Lit? {
          DigitsNotCall(Decimal(x.n));
          DigitsValueDecimal(x.n);
        } else {
          ResolvedGroup(table, x.ns, x.ops);
        }
      } else {
        OperatorNotCall(ops[j / 2]);
      }
    }
    ConvertAllOk(table, bound, raws, elems);
  }

  /** Tokenizing a grouped rendering, before the resolver runs on the outer list,
      gives the operands (each group already resolved) and operators in order. */
  lemma TokenizeGrouped(table: FunctionTable, xs: seq<Operand>, ops: seq<string>)
    requires GroupedWellformed(xs, ops)
    ensures Tokenize(table, RenderGrouped(xs, ops)) == ApplyOrder(GroupedElems(xs, ops))
  {
    var texts, pcs := OperandTexts(xs), OperandPieces(xs);
    forall i | 0 <= i < |xs|
      ensures ReadsAs(table, texts[i], pcs[i]) && GroupedText(texts[i])
    {
      OperandReads(table, xs[i]);
      OperandTextChars(xs[i]);
    }
    var s := RenderGrouped(xs, ops);
    JoinedChars(texts, ops);
    NormalizeGroupedText(s);
    ScanJoined(table, texts, pcs, ops);
    assert ReadsAs(table, texts[|xs| - 1], pcs[|xs| - 1]);
    FinishJoined(pcs, ops, |s|);
    ConvertGrouped(table, |s|, xs, ops);
    TokenizeCleanSteps(table, s, JoinedScanned(pcs, ops), Interleave(pcs, ops), GroupedElems(xs, ops));
  }

  // ----- evaluation -----

  /** An expression whose operands are numbers and parenthesised expressions of
      numbers, written without spaces, evaluates as Python evaluates it: each group
      is one operand whose value is the value of its inside, and around the groups
      precedence, associativity, the order of evaluation and the first error are
      Python's. */
  lemma EvaluateGrouped(table: FunctionTable, xs: seq<Operand>, ops: seq<string>)
    requires GroupedWellformed(xs, ops)
    ensures Evaluate(table, RenderGrouped(xs, ops)) == Value(RefElems(xs, ops), 0)
  {
    TokenizeGrouped(table, xs, ops);
    GroupedStandsFor(table, xs, ops);
    ResolverAgreesWith(table, GroupedElems(xs, ops), RefElems(xs, ops));
  }

  /** The same, for the expression written with spaces anywhere, as the library's
      test generator writes it ("(2 + 3) * 4"). */
  lemma EvaluateGroupedSpaced(table: FunctionTable, expr: string, xs: seq<Operand>, ops: seq<string>)
    requires GroupedWellformed(xs, ops) && RemoveSpaces(expr) == RenderGrouped(xs, ops)
    ensures Evaluate(table, expr) == Value(RefElems(xs, ops), 0)
  {
    EvaluateIgnoresSpaces(table, expr);
    EvaluateGrouped(table, xs, ops);
  }
}
