/** Expressions written as text from a list of natural numbers and a list of
    operator symbols, in the form the library's documentation uses ("2+3*4",
    "2**3**2", "7//2-1"): the tokenizer reads such a text back as exactly the
    alternating list of integers and operators it was written from. */
module Rendering {
  import opened Errors
  import opened Enums
  import opened Operators
  import opened Types
  import opened Lexical
  import opened Precedence
  import opened Tokenization
  import opened TokenizerFacts

  /** One more number than operators, and every operator one of the seven symbols. */
  predicate Wellformed(ns: seq<nat>, ops: seq<string>) {
    |ns| == |ops| + 1 && forall i :: 0 <= i < |ops| ==> ops[i] in OperatorSymbols
  }

  /** The numbers in decimal, joined by the operators, without spaces. */
  function Render(ns: seq<nat>, ops: seq<string>): (s: string)
    requires |ns| == |ops| + 1
    decreases |ops|
  {
    if |ops| == 0 then Decimal(ns[0])
    else Render(ns[..|ns| - 1], ops[..|ops| - 1]) + ops[|ops| - 1] + Decimal(ns[|ns| - 1])
  }

  /** The text pieces of the rendering, in order. */
  function Pieces(ns: seq<nat>, ops: seq<string>): (r: seq<Raw>)
    requires |ns| == |ops| + 1
  {
    seq(2 * |ops| + 1, j requires 0 <= j < 2 * |ops| + 1 =>
      if j % 2 == 0 then Text(Decimal(ns[j / 2])) else Text(ops[j / 2]))
  }

  /** The alternating list the rendering stands for. */
  function Elems(ns: seq<nat>, ops: seq<string>): (r: seq<Elem>)
    requires |ns| == |ops| + 1
  {
    seq(2 * |ops| + 1, j requires 0 <= j < 2 * |ops| + 1 =>
      if j % 2 == 0 then Num(IntN(ns[j / 2])) else Op(ops[j / 2]))
  }

  /** The tokenizer's state after reading a whole rendering: every piece but the last
      number emitted, the last number pending. */
  function Scanned(ns: seq<nat>, ops: seq<string>): ScanState
    requires |ns| == |ops| + 1
  {
    ScanState(Pieces(ns, ops)[..2 * |ops|], Decimal(ns[|ns| - 1]), Some(Number), 0, false, false, false)
  }

  // ----- reading one operator and one number -----

  /** Every operator symbol is made of operator characters. */
  lemma OperatorChars(op: string)
    requires op in OperatorSymbols
    ensures 1 <= |op| <= 2 && forall k :: 0 <= k < |op| ==> [op[k]] in OperatorSymbols
  {
  }

  /** An operator character after a number emits the number and starts an operator. */
  lemma StepOperatorAfterNumber(table: FunctionTable, i: nat, st: ScanState, c: char)
    requires Bounded(st, i) && TopLevel(st) && st.kind == Some(Number) && IsDigits(st.acc)
    requires [c] in OperatorSymbols
    ensures Step(table, i, st, c) == Ok(st.(out := st.out + [Text(st.acc)], acc := [c], kind := Some(Operator)))
  {
    assert ClassifyChar(table.Keys, c) == Ok(Operator);
    StepFlushValidates(table, i, st, c);
  }

  /** A digit after an operator symbol emits the operator and starts a number. */
  lemma StepDigitAfterOperator(table: FunctionTable, i: nat, st: ScanState, c: char)
    requires Bounded(st, i) && TopLevel(st) && st.kind == Some(Operator) && st.acc in OperatorSymbols
    requires IsDigit(c)
    ensures Step(table, i, st, c) == Ok(st.(out := st.out + [Text(st.acc)], acc := [c], kind := Some(Number)))
  {
    assert IsDigits([c]);
    assert ClassifyChar(table.Keys, c) == Ok(Number);
    StepFlushValidates(table, i, st, c);
  }

  /** Reading the second character of a two-character operator. */
  lemma ScanOperatorSecond(table: FunctionTable, s: string, p: nat, st: ScanState, op: string)
    requires op in OperatorSymbols && |op| == 2 && p + 2 < |s| && s[p..p + 2] == op
    requires Bounded(st, p + 1) && TopLevel(st) && st.kind == Some(Operator) && st.acc == [op[0]]
    ensures Scan(table, s, p + 1, st) == Scan(table, s, p + 2, st.(acc := op))
  {
    OperatorChars(op);
    assert s[p + 1] == op[1];
    StepOperatorRun(table, p + 1, st, s[p + 1]);
    ScanStep(table, s, p + 1, st);
    assert [op[0]] + [s[p + 1]] == op;
  }

  /** Reading the operator characters from position p on. */
  lemma ScanOperator(table: FunctionTable, s: string, p: nat, st: ScanState, op: string)
    requires op in OperatorSymbols && p + |op| < |s| && s[p..p + |op|] == op
    requires Bounded(st, p) && TopLevel(st) && st.kind == Some(Number) && IsDigits(st.acc)
    ensures Bounded(st.(out := st.out + [Text(st.acc)], acc := op, kind := Some(Operator)), p + |op|)
    ensures Scan(table, s, p, st)
         == Scan(table, s, p + |op|, st.(out := st.out + [Text(st.acc)], acc := op, kind := Some(Operator)))
  {
    OperatorChars(op);
    assert s[p] == op[0];
    StepOperatorAfterNumber(table, p, st, s[p]);
    var st1 := st.(out := st.out + [Text(st.acc)], acc := [s[p]], kind := Some(Operator));
    ScanStep(table, s, p, st);
    if |op| == 2 {
      ScanOperatorSecond(table, s, p, st1, op);
    } else {
      assert [s[p]] == op;
    }
  }

  /** Reading the digits that follow an operator, up to the end of the text. */
  lemma ScanNumber(table: FunctionTable, s: string, p: nat, st: ScanState)
    requires p < |s| && forall k :: p <= k < |s| ==> IsDigit(s[k])
    requires Bounded(st, p) && TopLevel(st) && st.kind == Some(Operator) && st.acc in OperatorSymbols
    ensures Scan(table, s, p, st)
         == Ok(st.(out := st.out + [Text(st.acc)], acc := s[p..], kind := Some(Number)))
  {
    StepDigitAfterOperator(table, p, st, s[p]);
    var st1 := st.(out := st.out + [Text(st.acc)], acc := [s[p]], kind := Some(Number));
    if p + 1 < |s| {
      ScanDigitRun(table, s, p + 1, |s|, st1);
      assert [s[p]] + s[p + 1..|s|] == s[p..];
    } else {
      assert [s[p]] == s[p..];
    }
  }

  /** Reading an operator and then a number to the end of the text. */
  lemma ScanOperand(table: FunctionTable, s: string, p: nat, st: ScanState, op: string)
    requires op in OperatorSymbols && p + |op| < |s| && s[p..p + |op|] == op
    requires forall k :: p + |op| <= k < |s| ==> IsDigit(s[k])
    requires Bounded(st, p) && TopLevel(st) && st.kind == Some(Number) && IsDigits(st.acc)
    ensures Scan(table, s, p, st)
         == Ok(st.(out := st.out + [Text(st.acc), Text(op)], acc := s[p + |op|..], kind := Some(Number)))
  {
    var st1 := st.(out := st.out + [Text(st.acc)], acc := op, kind := Some(Operator));
    var st2 := st.(out := st.out + [Text(st.acc), Text(op)], acc := s[p + |op|..], kind := Some(Number));
    assert st1.(out := st1.out + [Text(st1.acc)], acc := s[p + |op|..], kind := Some(Number)) == st2 by {
      assert st.out + [Text(st.acc)] + [Text(op)] == st.out + [Text(st.acc), Text(op)];
    }
    ScanOperator(table, s, p, st, op);
    ScanNumber(table, s, p + |op|, st1);
  }

  // ----- reading a whole rendering -----

  lemma PiecesSnoc(ns: seq<nat>, ops: seq<string>)
    requires |ns| == |ops| + 1 && |ops| > 0
    ensures Pieces(ns, ops)[..2 * |ops|]
         == Pieces(ns[..|ns| - 1], ops[..|ops| - 1])[..2 * (|ops| - 1)]
            + [Text(Decimal(ns[|ns| - 2])), Text(ops[|ops| - 1])]
  {
  }

  lemma ScanRenderStep(table: FunctionTable, ns: seq<nat>, ops: seq<string>)
    requires Wellformed(ns, ops) && |ops| > 0
    requires Scan(table, Render(ns[..|ns| - 1], ops[..|ops| - 1]), 0, Start)
          == Ok(Scanned(ns[..|ns| - 1], ops[..|ops| - 1]))
    ensures Scan(table, Render(ns, ops), 0, Start) == Ok(Scanned(ns, ops))
  {
    var ns0, ops0 := ns[..|ns| - 1], ops[..|ops| - 1];
    var r, op, d := Render(ns0, ops0), ops[|ops| - 1], Decimal(ns[|ns| - 1]);
    var s := Render(ns, ops);
    assert s == r + (op + d);
    ScanPrefix(table, r, op + d, 0, Start);
    var st := Scanned(ns0, ops0);
    assert s[|r|..|r| + |op|] == op;
    assert s[|r| + |op|..] == d;
    ScanOperand(table, s, |r|, st, op);
    PiecesSnoc(ns, ops);
  }

  /** Reading a rendering ends with every piece but the last number emitted. */
  lemma {:induction false} ScanRender(table: FunctionTable, ns: seq<nat>, ops: seq<string>)
    requires Wellformed(ns, ops)
    ensures Scan(table, Render(ns, ops), 0, Start) == Ok(Scanned(ns, ops))
    decreases |ops|
  {
    if |ops| == 0 {
      ScanDigits(table, Decimal(ns[0]));
    } else {
      ScanRender(table, ns[..|ns| - 1], ops[..|ops| - 1]);
      ScanRenderStep(table, ns, ops);
    }
  }

  /** A rendering is digits and operator characters, with a digit at either end. */
  lemma {:induction false} RenderChars(ns: seq<nat>, ops: seq<string>)
    requires Wellformed(ns, ops)
    ensures |Render(ns, ops)| > 0
    ensures IsDigit(Render(ns, ops)[0]) && IsDigit(Render(ns, ops)[|Render(ns, ops)| - 1])
    ensures forall k :: 0 <= k < |Render(ns, ops)| ==>
              IsDigit(Render(ns, ops)[k]) || [Render(ns, ops)[k]] in OperatorSymbols
    decreases |ops|
  {
    if |ops| > 0 {
      var ns0, ops0 := ns[..|ns| - 1], ops[..|ops| - 1];
      RenderChars(ns0, ops0);
      RenderCharsStep(ns, ops);
    }
  }

  lemma RenderCharsStep(ns: seq<nat>, ops: seq<string>)
    requires Wellformed(ns, ops) && |ops| > 0
    requires var r := Render(ns[..|ns| - 1], ops[..|ops| - 1]);
             |r| > 0 && IsDigit(r[0])
             && forall k :: 0 <= k < |r| ==> IsDigit(r[k]) || [r[k]] in OperatorSymbols
    ensures |Render(ns, ops)| > 0
    ensures IsDigit(Render(ns, ops)[0]) && IsDigit(Render(ns, ops)[|Render(ns, ops)| - 1])
    ensures forall k :: 0 <= k < |Render(ns, ops)| ==>
              IsDigit(Render(ns, ops)[k]) || [Render(ns, ops)[k]] in OperatorSymbols
  {
    var r, op, d := Render(ns[..|ns| - 1], ops[..|ops| - 1]), ops[|ops| - 1], Decimal(ns[|ns| - 1]);
    var s := Render(ns, ops);
    assert s == r + op + d;
    OperatorChars(op);
    forall k | 0 <= k < |s|
      ensures IsDigit(s[k]) || [s[k]] in OperatorSymbols
    {
      if k < |r| {
        assert s[k] == r[k];
      } else if k < |r| + |op| {
        assert s[k] == op[k - |r|];
      } else {
        assert s[k] == d[k - |r| - |op|];
      }
    }
  }

  /** A rendering is already in the tokenizer's normal form. */
  lemma NormalizeRender(ns: seq<nat>, ops: seq<string>)
    requires Wellformed(ns, ops)
    ensures Normalize(Render(ns, ops)) == Render(ns, ops)
  {
    var s := Render(ns, ops);
    RenderChars(ns, ops);
    forall k | 0 <= k < |s|
      ensures s[k] != ' '
    {
      if !IsDigit(s[k]) {
        OperatorCharNotSpace(s[k]);
      }
    }
    NormalizeFixes(s);
  }

  lemma OperatorCharNotSpace(c: char)
    requires [c] in OperatorSymbols
    ensures c != ' '
  {
    assert " " !in OperatorSymbols;
  }

  /** Operator symbols are not function calls. */
  lemma OperatorNotCall(op: string)
    requires op in OperatorSymbols
    ensures !FunctionRegexMatch(op)
  {
    assert LeadingWord(op) == 0;
  }

  /** Converting pieces whose conversions all succeed gives their conversions, in order. */
  lemma {:induction false} ConvertAllOk(table: FunctionTable, bound: nat, raws: seq<Raw>, elems: seq<Elem>)
    requires |raws| == |elems| && forall j :: 0 <= j < |raws| ==> RawOk(raws[j], bound)
    requires forall j :: 0 <= j < |raws| ==> ConvertRaw(table, bound, raws[j]) == Ok(elems[j])
    ensures ConvertAll(table, bound, raws) == Ok(elems)
    decreases |raws|
  {
    if |raws| > 0 {
      assert forall j :: 0 <= j < |raws| - 1 ==> raws[1..][j] == raws[j + 1] && elems[1..][j] == elems[j + 1];
      ConvertAllOk(table, bound, raws[1..], elems[1..]);
      assert elems == [elems[0]] + elems[1..];
    }
  }

  /** The pieces of a rendering convert to the list it was written from. */
  lemma ConvertPieces(table: FunctionTable, bound: nat, ns: seq<nat>, ops: seq<string>)
    requires Wellformed(ns, ops) && forall j :: 0 <= j < 2 * |ops| + 1 ==> RawOk(Pieces(ns, ops)[j], bound)
    ensures ConvertAll(table, bound, Pieces(ns, ops)) == Ok(Elems(ns, ops))
  {
    var raws, elems := Pieces(ns, ops), Elems(ns, ops);
    forall j | 0 <= j < |raws|
      ensures ConvertRaw(table, bound, raws[j]) == Ok(elems[j])
    {
      if j % 2 == 0 {
        var d := Decimal(ns[j / 2]);
        DigitsNotCall(d);
        DigitsValueDecimal(ns[j / 2]);
      } else {
        OperatorNotCall(ops[j / 2]);
      }
    }
    ConvertAllOk(table, bound, raws, elems);
  }

  /** Tokenizing a rendering, before the precedence resolver, gives back the list it
      was written from. */
  lemma TokenizeRenderElems(table: FunctionTable, ns: seq<nat>, ops: seq<string>)
    requires Wellformed(ns, ops)
    ensures Tokenize(table, Render(ns, ops)) == ApplyOrder(Elems(ns, ops))
  {
    var s := Render(ns, ops);
    NormalizeRender(ns, ops);
    ScanRender(table, ns, ops);
    FinishScanned(ns, ops, |s|);
    ConvertPieces(table, |s|, ns, ops);
    TokenizeCleanSteps(table, s, Scanned(ns, ops), Pieces(ns, ops), Elems(ns, ops));
  }

  /** After a rendering is read, the pending number is emitted and nothing is left
      unfinished. */
  lemma FinishScanned(ns: seq<nat>, ops: seq<string>, n: nat)
    requires |ns| == |ops| + 1 && Bounded(Scanned(ns, ops), n)
    ensures Finish(Scanned(ns, ops)) == Ok(Pieces(ns, ops))
    ensures forall j :: 0 <= j < 2 * |ops| + 1 ==> RawOk(Pieces(ns, ops)[j], n)
  {
    var st, raws := Scanned(ns, ops), Pieces(ns, ops);
    assert raws == st.out + [Text(st.acc)];
    forall j | 0 <= j < |raws|
      ensures RawOk(raws[j], n)
    {
      if j < |st.out| {
        assert raws[j] == st.out[j];
      }
    }
  }

  /** The tokenizer's stages put together: a successful scan, end check and
      conversion leave the resolver's result. */
  lemma TokenizeCleanSteps(table: FunctionTable, s: string, st: ScanState, raws: seq<Raw>, elems: seq<Elem>)
    requires Scan(table, s, 0, Start) == Ok(st) && Finish(st) == Ok(raws)
    requires forall j :: 0 <= j < |raws| ==> RawOk(raws[j], |s|)
    requires ConvertAll(table, |s|, raws) == Ok(elems)
    ensures TokenizeClean(table, s) == ApplyOrder(elems)
  {
  }
}
