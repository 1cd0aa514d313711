/** The package's entry point `evaluate`: tokenize, build the tree, evaluate the
    tree (a bare number is returned as it is), with the supported functions given
    as a table. */
module StrMath {
  import opened Errors
  import opened Operators
  import opened Types
  import opened Lexical
  import opened Precedence
  import opened Tokenization
  import opened TokenizerFacts
  import opened Evaluation
  import opened Reference
  import opened Rendering

  /** `evaluate(expr)`. Every failure is one of the tokenizer's, the builder's or an
      operator's; an unknown operator never gets as far as evaluation, because the
      tokenizer only lets the seven symbols through. */
  function Evaluate(table: FunctionTable, expr: string): (r: Result<Number>)
    ensures r.Err? ==> !r.error.InvalidOperator?
    ensures Tokenize(table, expr).Err? ==> r == Err(Tokenize(table, expr).error)
    ensures r.Ok? ==>
              Tokenize(table, expr).Ok? && Build(table, Tokenize(table, expr).value).Ok?
              && EvalTree(Build(table, Tokenize(table, expr).value).value) == r
  {
    var e :- Tokenize(table, expr);
    var t :- Build(table, e);
    EvalTree(t)
  }

  /** Spaces anywhere in the text make no difference. */
  lemma EvaluateIgnoresSpaces(table: FunctionTable, expr: string)
    ensures Evaluate(table, RemoveSpaces(expr)) == Evaluate(table, expr)
  {
    NormalizeIgnoresSpaces(expr);
  }

  /** A string of ASCII digits evaluates to the integer it spells. */
  lemma EvaluateDigits(table: FunctionTable, d: string)
    requires IsDigits(d)
    ensures Evaluate(table, d) == Ok(IntN(DigitsValue(d)))
  {
    TokenizeDigits(table, d);
  }

  /** `evaluate(str(n)) == n` for every natural number n. */
  lemma EvaluateDecimal(table: FunctionTable, n: nat)
    ensures Evaluate(table, Decimal(n)) == Ok(IntN(n))
  {
    EvaluateDigits(table, Decimal(n));
    DigitsValueDecimal(n);
  }

  lemma ElemsNumAlternating(ns: seq<nat>, ops: seq<string>)
    requires Wellformed(ns, ops)
    ensures NumAlternating(Elems(ns, ops))
  {
  }

  /** An expression of natural numbers and the seven operators, written without
      parentheses, evaluates as Python evaluates it: `+ -` below `* / // %` below
      `**`, the first two left associative and `**` right associative, operands
      left to right, with the same first error. */
  lemma EvaluateRendered(table: FunctionTable, ns: seq<nat>, ops: seq<string>)
    requires Wellformed(ns, ops)
    ensures Evaluate(table, Render(ns, ops)) == Value(Elems(ns, ops), 0)
  {
    TokenizeRenderElems(table, ns, ops);
    ElemsNumAlternating(ns, ops);
    ResolverAgrees(table, Elems(ns, ops));
  }

  /** The same, for the expression written with spaces anywhere. */
  lemma EvaluateSpaced(table: FunctionTable, expr: string, ns: seq<nat>, ops: seq<string>)
    requires Wellformed(ns, ops) && RemoveSpaces(expr) == Render(ns, ops)
    ensures Evaluate(table, expr) == Value(Elems(ns, ops), 0)
  {
    EvaluateIgnoresSpaces(table, expr);
    EvaluateRendered(table, ns, ops);
  }
}
