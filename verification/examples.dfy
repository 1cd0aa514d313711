/** The library's documented examples, as instances of the general theorems. Any
    function table will do: none of these texts calls a function. Each example is
    split into the text's shape, its reference value, and the theorem applied. */
module Examples {
  import opened Errors
  import opened Operators
  import opened Types
  import opened Lexical
  import opened Precedence
  import opened Reference
  import opened Rendering
  import opened StrMath
  import opened Grouping

  // ----- the reference value of the shapes used below -----

  /** A lone number is its own value. */
  lemma SingleValue(n: Number)
    ensures Value([Num(n)], 0) == Ok(n)
  {
    assert Value([Num(n)], 2) == OperandValue(Num(n));
    NoTierOps([Num(n)], 0);
    NoTierOps([Num(n)], 1);
  }

  lemma ValueOfOne(a: Number, op: string, b: Number)
    requires op in OperatorSymbols
    ensures Value([Num(a), Op(op), Num(b)], 0) == Combine(Ok(a), op, Ok(b))
  {
    ValueOfTriple([Num(a), Op(op), Num(b)]);
  }

  /** `a + b * c` is `a + (b * c)`. */
  lemma ValueAddThenMul(a: Number, op1: string, b: Number, op2: string, c: Number)
    requires op1 in AddTier && op2 in MulTier
    ensures Value([Num(a), Op(op1), Num(b), Op(op2), Num(c)], 0)
         == Combine(Ok(a), op1, Combine(Ok(b), op2, Ok(c)))
  {
    var e := [Num(a), Op(op1), Num(b), Op(op2), Num(c)];
    SplitAtAdd(e, 1);
    assert e[..1] == [Num(a)] && e[2..] == [Num(b), Op(op2), Num(c)];
    SingleValue(a);
    ValueOfOne(b, op2, c);
  }

  /** `a - b - c` is `(a - b) - c`. */
  lemma ValueAddThenAdd(a: Number, op1: string, b: Number, op2: string, c: Number)
    requires op1 in AddTier && op2 in AddTier
    ensures Value([Num(a), Op(op1), Num(b), Op(op2), Num(c)], 0)
         == Combine(Combine(Ok(a), op1, Ok(b)), op2, Ok(c))
  {
    var e := [Num(a), Op(op1), Num(b), Op(op2), Num(c)];
    SplitAtAdd(e, 3);
    assert e[..3] == [Num(a), Op(op1), Num(b)] && e[4..] == [Num(c)];
    ValueOfOne(a, op1, b);
    SingleValue(c);
  }

  /** `a ** b ** c` is `a ** (b ** c)`. */
  lemma ValuePowPow(a: Number, b: Number, c: Number)
    ensures Value([Num(a), Op("**"), Num(b), Op("**"), Num(c)], 0)
         == Combine(Ok(a), "**", Combine(Ok(b), "**", Ok(c)))
  {
    var e := [Num(a), Op("**"), Num(b), Op("**"), Num(c)];
    SplitAtPow(e);
    assert e[..1] == [Num(a)] && e[2..] == [Num(b), Op("**"), Num(c)];
    SingleValue(a);
    ValueOfOne(b, "**", c);
  }

  /** Multiplication binds tighter than addition. */
  lemma MultiplicationFirst(table: FunctionTable)
    ensures Evaluate(table, "2 + 3 * 4") == Ok(IntN(14))
  {
    MultiplicationFirstText();
    MultiplicationFirstValue();
    EvaluateSpaced(table, "2 + 3 * 4", [2, 3, 4], ["+", "*"]);
  }

  lemma MultiplicationFirstText()
    ensures RemoveSpaces("2 + 3 * 4") == Render([2, 3, 4], ["+", "*"])
  {
    MultiplicationFirstSpaces();
    MultiplicationFirstRendering();
  }

  lemma MultiplicationFirstSpaces()
    ensures RemoveSpaces("2 + 3 * 4") == "2+3*4"
  {
    assert "2+" + "3*4" == "2+3*4";
    assert "2 + 3 * 4" == "2 + " + "3 * 4";
    assert RemoveSpaces("2 + ") == "2+" && RemoveSpaces("3 * 4") == "3*4";
    RemoveSpacesConcat("2 + ", "3 * 4");
  }



  lemma MultiplicationFirstRendering()
    ensures Render([2, 3, 4], ["+", "*"]) == "2+3*4"
  {
    assert Decimal(2) == "2" && Decimal(3) == "3" && Decimal(4) == "4";
  }

  lemma MultiplicationFirstValue()
    ensures Value(Elems([2, 3, 4], ["+", "*"]), 0) == Ok(IntN(14))
  {
    assert Elems([2, 3, 4], ["+", "*"]) == [Num(IntN(2)), Op("+"), Num(IntN(3)), Op("*"), Num(IntN(4))];
    ValueAddThenMul(IntN(2), "+", IntN(3), "*", IntN(4));
    assert Combine(Ok(IntN(3)), "*", Ok(IntN(4))) == Ok(IntN(12));
    assert Combine(Ok(IntN(2)), "+", Ok(IntN(12))) == Ok(IntN(14));
  }


  /** Exponentiation groups to the right: 2 ** (3 ** 2). */
  lemma PowerRightAssociative(table: FunctionTable)
    ensures Evaluate(table, "2 ** 3 ** 2") == Ok(IntN(512))
  {
    PowerRightAssociativeText();
    PowerRightAssociativeValue();
    EvaluateSpaced(table, "2 ** 3 ** 2", [2, 3, 2], ["**", "**"]);
  }

  lemma PowerRightAssociativeText()
    ensures RemoveSpaces("2 ** 3 ** 2") == Render([2, 3, 2], ["**", "**"])
  {
    PowerRightAssociativeSpaces();
    PowerRightAssociativeRendering();
  }

  lemma PowerRightAssociativeSpaces()
    ensures RemoveSpaces("2 ** 3 ** 2") == "2**3**2"
  {
    assert "2**" + "3**2" == "2**3**2";
    assert "2 ** 3 ** 2" == "2 ** " + "3 ** 2";
    assert RemoveSpaces("2 ** ") == "2**" && RemoveSpaces("3 ** 2") == "3**2";
    RemoveSpacesConcat("2 ** ", "3 ** 2");
  }



  lemma PowerRightAssociativeRendering()
    ensures Render([2, 3, 2], ["**", "**"]) == "2**3**2"
  {
    assert Decimal(2) == "2" && Decimal(3) == "3";
  }

  lemma PowerRightAssociativeValue()
    ensures Value(Elems([2, 3, 2], ["**", "**"]), 0) == Ok(IntN(512))
  {
    assert Elems([2, 3, 2], ["**", "**"]) == [Num(IntN(2)), Op("**"), Num(IntN(3)), Op("**"), Num(IntN(2))];
    ValuePowPow(IntN(2), IntN(3), IntN(2));
    assert Pow(3, 2) == 9 && Pow(2, 9) == 512;
    assert Combine(Ok(IntN(3)), "**", Ok(IntN(2))) == Ok(IntN(9));
    assert Combine(Ok(IntN(2)), "**", Ok(IntN(9))) == Ok(IntN(512));
  }


  /** Subtraction groups to the left: (9 - 3) - 4, not 9 - (3 - 4). */
  lemma SubtractionLeftAssociative(table: FunctionTable)
    ensures Evaluate(table, "9 - 3 - 4") == Ok(IntN(2))
  {
    SubtractionLeftAssociativeText();
    SubtractionLeftAssociativeValue();
    EvaluateSpaced(table, "9 - 3 - 4", [9, 3, 4], ["-", "-"]);
  }

  lemma SubtractionLeftAssociativeText()
    ensures RemoveSpaces("9 - 3 - 4") == Render([9, 3, 4], ["-", "-"])
  {
    SubtractionLeftAssociativeSpaces();
    SubtractionLeftAssociativeRendering();
  }

  lemma SubtractionLeftAssociativeSpaces()
    ensures RemoveSpaces("9 - 3 - 4") == "9-3-4"
  {
    assert "9-" + "3-4" == "9-3-4";
    assert "9 - 3 - 4" == "9 - " + "3 - 4";
    assert RemoveSpaces("9 - ") == "9-" && RemoveSpaces("3 - 4") == "3-4";
    RemoveSpacesConcat("9 - ", "3 - 4");
  }



  lemma SubtractionLeftAssociativeRendering()
    ensures Render([9, 3, 4], ["-", "-"]) == "9-3-4"
  {
    assert Decimal(9) == "9" && Decimal(3) == "3" && Decimal(4) == "4";
  }

  lemma SubtractionLeftAssociativeValue()
    ensures Value(Elems([9, 3, 4], ["-", "-"]), 0) == Ok(IntN(2))
  {
    assert Elems([9, 3, 4], ["-", "-"]) == [Num(IntN(9)), Op("-"), Num(IntN(3)), Op("-"), Num(IntN(4))];
    ValueAddThenAdd(IntN(9), "-", IntN(3), "-", IntN(4));
    assert Combine(Ok(IntN(9)), "-", Ok(IntN(3))) == Ok(IntN(6));
    assert Combine(Ok(IntN(6)), "-", Ok(IntN(4))) == Ok(IntN(2));
  }


  /** Floor division and remainder of positive integers. */
  lemma FloorDivisionAndRemainder(table: FunctionTable)
    ensures Evaluate(table, "10 // 3") == Ok(IntN(3))
    ensures Evaluate(table, "10 % 3") == Ok(IntN(1))
  {
    FloorDivisionText();
    FloorDivisionValue();
    EvaluateSpaced(table, "10 // 3", [10, 3], ["//"]);
    RemainderText();
    RemainderValue();
    EvaluateSpaced(table, "10 % 3", [10, 3], ["%"]);
  }

  lemma FloorDivisionText()
    ensures RemoveSpaces("10 // 3") == Render([10, 3], ["//"])
  {
  }

  lemma FloorDivisionValue()
    ensures Value(Elems([10, 3], ["//"]), 0) == Ok(IntN(3))
  {
    assert Elems([10, 3], ["//"]) == [Num(IntN(10)), Op("//"), Num(IntN(3))];
    ValueOfOne(IntN(10), "//", IntN(3));
  }


  lemma RemainderText()
    ensures RemoveSpaces("10 % 3") == Render([10, 3], ["%"])
  {
  }

  lemma RemainderValue()
    ensures Value(Elems([10, 3], ["%"]), 0) == Ok(IntN(1))
  {
    assert Elems([10, 3], ["%"]) == [Num(IntN(10)), Op("%"), Num(IntN(3))];
    ValueOfOne(IntN(10), "%", IntN(3));
  }


  /** Dividing by zero is reported as such. */
  lemma DivisionByZeroReported(table: FunctionTable)
    ensures Evaluate(table, "2 / 0") == Err(DivisionByZero)
  {
    DivisionByZeroText();
    DivisionByZeroValue();
    EvaluateSpaced(table, "2 / 0", [2, 0], ["/"]);
  }

  lemma DivisionByZeroText()
    ensures RemoveSpaces("2 / 0") == Render([2, 0], ["/"])
  {
  }

  lemma DivisionByZeroValue()
    ensures Value(Elems([2, 0], ["/"]), 0) == Err(DivisionByZero)
  {
    assert Elems([2, 0], ["/"]) == [Num(IntN(2)), Op("/"), Num(IntN(0))];
    ValueOfOne(IntN(2), "/", IntN(0));
  }


  /** A parenthesised group is one operand: (2 + 3) * 4 is 20, not 14. */
  lemma GroupFirst(table: FunctionTable)
    ensures Evaluate(table, "(2 + 3) * 4") == Ok(IntN(20))
  {
    var xs, ops := [Paren([2, 3], ["+"]), Lit(4)], ["*"];
    assert GroupedWellformed(xs, ops);
    GroupFirstText();
    GroupFirstValue();
    EvaluateGroupedSpaced(table, "(2 + 3) * 4", xs, ops);
  }

  lemma GroupFirstText()
    ensures RemoveSpaces("(2 + 3) * 4") == RenderGrouped([Paren([2, 3], ["+"]), Lit(4)], ["*"])
  {
    GroupFirstSpaces();
    GroupFirstRendering();
  }

  lemma GroupFirstSpaces()
    ensures RemoveSpaces("(2 + 3) * 4") == "(2+3)*4"
  {
    assert "(2+" + "3)*4" == "(2+3)*4";
    assert "(2 + 3) * 4" == "(2 + " + "3) * 4";
    assert RemoveSpaces("(2 + ") == "(2+";
    assert RemoveSpaces("(2 + ") == "(2+" && RemoveSpaces("3) * 4") == "3)*4";
    RemoveSpacesConcat("(2 + ", "3) * 4");
  }



  lemma GroupFirstRendering()
    ensures RenderGrouped([Paren([2, 3], ["+"]), Lit(4)], ["*"]) == "(2+3)*4"
  {
    var xs := [Paren([2, 3], ["+"]), Lit(4)];
    assert Decimal(2) == "2" && Decimal(3) == "3" && Decimal(4) == "4";
    assert Render([2, 3], ["+"]) == "2+3";
    assert OperandText(xs[0]) == "(2+3)" && OperandText(xs[1]) == "4";
    assert OperandTexts(xs) == ["(2+3)", "4"];
  }

  lemma GroupFirstValue()
    ensures Value(RefElems([Paren([2, 3], ["+"]), Lit(4)], ["*"]), 0) == Ok(IntN(20))
  {
    var inner := [Num(IntN(2)), Op("+"), Num(IntN(3))];
    assert Elems([2, 3], ["+"]) == inner;
    var outer := [Group(inner), Op("*"), Num(IntN(4))];
    assert RefElems([Paren([2, 3], ["+"]), Lit(4)], ["*"]) == outer;
    ValueOfOne(IntN(2), "+", IntN(3));
    assert Combine(Ok(IntN(2)), "+", Ok(IntN(3))) == Ok(IntN(5));
    assert OperandValue(Group(inner)) == Ok(IntN(5));
    ValueOfTriple(outer);
    assert Combine(Ok(IntN(5)), "*", Ok(IntN(4))) == Ok(IntN(20));
  }

  /** A float in the middle of an expression does not stop its evaluation: 1 / 2 is
      a float, and 1 // 0 then raises ZeroDivisionError. */
  lemma FloatThenDivisionByZero(table: FunctionTable)
    ensures Evaluate(table, "1 / 2 + 1 // 0") == Err(DivisionByZero)
  {
    FloatThenDivisionByZeroText();
    FloatThenDivisionByZeroValue();
    EvaluateSpaced(table, "1 / 2 + 1 // 0", [1, 2, 1, 0], ["/", "+", "//"]);
  }

  lemma FloatThenDivisionByZeroText()
    ensures RemoveSpaces("1 / 2 + 1 // 0") == Render([1, 2, 1, 0], ["/", "+", "//"])
  {
    FloatThenDivisionByZeroSpaces();
    FloatThenDivisionByZeroRendering();
  }

  lemma FloatThenDivisionByZeroSpaces()
    ensures RemoveSpaces("1 / 2 + 1 // 0") == "1/2+1//0"
  {
    assert "1/2+" + "1//0" == "1/2+1//0";
    assert "1 / 2 + 1 // 0" == "1 / 2 + " + "1 // 0";
    FloatThenDivisionByZeroLeft();
    assert RemoveSpaces("1 / 2 + ") == "1/2+" && RemoveSpaces("1 // 0") == "1//0";
    RemoveSpacesConcat("1 / 2 + ", "1 // 0");
  }



  lemma FloatThenDivisionByZeroLeft()
    ensures RemoveSpaces("1 / 2 + ") == "1/2+"
  {
  }

  lemma FloatThenDivisionByZeroRendering()
    ensures Render([1, 2, 1, 0], ["/", "+", "//"]) == "1/2+1//0"
  {
    var ns, ops := [1, 2, 1, 0], ["/", "+", "//"];
    assert "1/2+" + "1" == "1/2+1" && "1/2+1" + "//" + "0" == "1/2+1//0";
    assert Decimal(0) == "0" && Decimal(1) == "1" && Decimal(2) == "2";
    assert ns[..2] == [1, 2] && ops[..1] == ["/"];
    assert Render([1, 2], ["/"]) == "1/2";
    assert ns[..3] == [1, 2, 1] && ops[..2] == ["/", "+"];
    assert Render([1, 2, 1], ["/", "+"]) == "1/2+" + "1";
    assert Render(ns, ops) == "1/2+1" + "//" + "0";
  }

  lemma FloatThenDivisionByZeroValue()
    ensures Value(Elems([1, 2, 1, 0], ["/", "+", "//"]), 0) == Err(DivisionByZero)
  {
    var e := [Num(IntN(1)), Op("/"), Num(IntN(2)), Op("+"), Num(IntN(1)), Op("//"), Num(IntN(0))];
    assert Elems([1, 2, 1, 0], ["/", "+", "//"]) == e;
    SplitAtAdd(e, 3);
    assert e[..3] == [Num(IntN(1)), Op("/"), Num(IntN(2))] && e[4..] == [Num(IntN(1)), Op("//"), Num(IntN(0))];
    ValueOfOne(IntN(1), "/", IntN(2));
    ValueOfOne(IntN(1), "//", IntN(0));
    FloatThenDivisionByZeroSteps();
  }

  lemma FloatThenDivisionByZeroSteps()
    ensures Combine(Ok(IntN(1)), "/", Ok(IntN(2))) == Ok(FloatN)
    ensures Combine(Ok(IntN(1)), "//", Ok(IntN(0))) == Err(DivisionByZero)
    ensures Combine(Ok(FloatN), "+", Err(DivisionByZero)) == Err(DivisionByZero)
  {
  }
}
