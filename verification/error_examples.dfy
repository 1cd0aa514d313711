/** The failures the library documents for `evaluate`, derived step by step from
    the tokenizer's loop. Which characters can start a function name depends on the
    table; the library's names (the `math` builtins, abs, int, float, round, pow)
    are all words, and that is all these examples need of it. */
module ErrorExamples {
  import opened Errors
  import opened Enums
  import opened Operators
  import opened Types
  import opened Lexical
  import opened Tokenization
  import opened TokenizerFacts
  import opened Rendering
  import opened Reference
  import opened StrMath

  /** Every supported function name is made of word characters. */
  predicate WordNames(table: FunctionTable) {
    forall f :: f in table ==> forall i :: 0 <= i < |f| ==> IsWordChar(f[i])
  }

  /** A text that starts with a non-word character begins no function name. */
  lemma NotNamePrefix(table: FunctionTable, tok: string)
    requires WordNames(table) && |tok| > 0 && !IsWordChar(tok[0])
    ensures !IsNamePrefix(table.Keys, tok)
  {
    forall f | f in table.Keys
      ensures !(tok <= f)
    {
    }
  }

  // ----- how a failure reaches `evaluate` -----

  /** A text with its spaces removed and no whitespace at its ends is what the
      tokenizer reads. */
  lemma NormalizeTo(x: string, s: string)
    requires RemoveSpaces(x) == s && |s| > 0 && !IsPyWhitespace(s[0]) && !IsPyWhitespace(s[|s| - 1])
    ensures Normalize(x) == s
  {
  }

  /** A failure during the scan is the result of the tokenizer and of `evaluate`. */
  lemma ScanFails(table: FunctionTable, x: string, s: string, e: Error)
    requires Normalize(x) == s && Scan(table, s, 0, Start) == Err(e)
    ensures Tokenize(table, x) == Err(e)
    ensures Evaluate(table, x) == Err(e)
  {
    assert TokenizeClean(table, s) == Err(e);
    assert Tokenize(table, x) == Err(e);
  }

  /** A failure at the end of the scan is the result of `evaluate`. */
  lemma FinishFails(table: FunctionTable, x: string, s: string, st: ScanState, e: Error)
    requires Normalize(x) == s && Scan(table, s, 0, Start) == Ok(st) && Finish(st) == Err(e)
    ensures Evaluate(table, x) == Err(e)
  {
    assert TokenizeClean(table, s) == Err(e);
    assert Tokenize(table, x) == Err(e);
  }

  // ----- groups -----

  // ----- "(2 + 3" -----

  lemma UnclosedGroupText()
    ensures Normalize("(2 + 3") == "(2+3"
  {
    NormalizeTo("(2 + 3", "(2+3");
  }

  lemma UnclosedGroupScan(table: FunctionTable)
    ensures Scan(table, "(2+3", 0, Start) == Ok(Gathering([], "(2+3"))
  {
    var s := "(2+3";
    GatherGroup(table, s, 0, 4, Start);
    assert s[0..4] == s && Emitted(Start) == [];
  }

  /** A group that is never closed is a brace mismatch, reported at the end. */
  lemma UnclosedGroup(table: FunctionTable)
    ensures Evaluate(table, "(2 + 3") == Err(BracesMismatch)
  {
    UnclosedGroupText();
    UnclosedGroupScan(table);
    FinishFails(table, "(2 + 3", "(2+3", Gathering([], "(2+3"), BracesMismatch);
  }

  // ----- "(2 + 3) .3" -----

  lemma GroupText()
    ensures RemoveSpaces("(2 + 3)") == "(2+3)"
  {
  }

  lemma DotThreeText()
    ensures RemoveSpaces(" .3") == ".3"
  {
  }

  lemma GroupThenDotText()
    ensures Normalize("(2 + 3) .3") == "(2+3).3"
  {
    assert "(2 + 3) .3" == "(2 + 3)" + " .3";
    RemoveSpacesConcat("(2 + 3)", " .3");
    GroupText();
    DotThreeText();
    assert "(2+3)" + ".3" == "(2+3).3";
    NormalizeTo("(2 + 3) .3", "(2+3).3");
  }

  /** A rendered expression holds no parentheses and tokenizes. */
  lemma RenderedInner(table: FunctionTable, ns: seq<nat>, ops: seq<string>)
    requires Wellformed(ns, ops)
    ensures forall k :: 0 <= k < |Render(ns, ops)| ==> Render(ns, ops)[k] != '(' && Render(ns, ops)[k] != ')'
    ensures Tokenize(table, Render(ns, ops)).Ok?
  {
    var inner := Render(ns, ops);
    RenderChars(ns, ops);
    forall k | 0 <= k < |inner|
      ensures inner[k] != '(' && inner[k] != ')'
    {
      assert IsDigit(inner[k]) || [inner[k]] in OperatorSymbols;
    }
    TokenizeRenderElems(table, ns, ops);
    ElemsNumAlternating(ns, ops);
    ResolverAgrees(table, Elems(ns, ops));
  }

  /** A group that tokenizes, then a '.': the '.' is unexpected. */
  lemma GroupThenDotScanChars(table: FunctionTable, inner: string, rest: string, s: string)
    requires forall k :: 0 <= k < |inner| ==> inner[k] != '(' && inner[k] != ')'
    requires Tokenize(table, inner).Ok? && s == "(" + inner + ")" + ("." + rest)
    ensures Scan(table, s, 0, Start) == Err(UnexpectedToken("."))
  {
    assert s[0..|inner| + 2] == "(" + inner + ")" && Emitted(Start) == [];
    ScanGroup(table, s, 0, Start, inner);
    var st := ScanState([Nested(Tokenize(table, inner).value)], "", Some(Expression), 0, false, false, false);
    assert s[|inner| + 2] == '.';
    DotAfterGroup(table, s, |inner| + 2, st);
  }

  /** A '.' right after a closed group fails the scan. */
  lemma DotAfterGroup(table: FunctionTable, s: string, i: nat, st: ScanState)
    requires i < |s| && s[i] == '.' && Bounded(st, i) && TopLevel(st) && st.kind == Some(Expression) && st.acc == ""
    ensures Scan(table, s, i, st) == Err(UnexpectedToken("."))
  {
    StepDot(table, i, st);
    ScanStepFails(table, s, i, st);
  }

  /** A group around an expression of numbers and operators, then a '.': the '.' is
      unexpected. */
  lemma GroupThenDotScanGeneral(table: FunctionTable, ns: seq<nat>, ops: seq<string>, rest: string, s: string)
    requires Wellformed(ns, ops) && s == "(" + Render(ns, ops) + ")" + ("." + rest)
    ensures Scan(table, s, 0, Start) == Err(UnexpectedToken("."))
  {
    RenderedInner(table, ns, ops);
    GroupThenDotScanChars(table, Render(ns, ops), rest, s);
  }

  lemma GroupThenDotPieces()
    ensures "(" + Render([2, 3], ["+"]) + ")" + ("." + "3") == "(2+3).3"
  {
    assert Render([2, 3], ["+"]) == "2+3";
  }

  lemma GroupThenDotScan(table: FunctionTable, s: string)
    requires s == "(2+3).3"
    ensures Scan(table, s, 0, Start) == Err(UnexpectedToken("."))
  {
    GroupThenDotPieces();
    GroupThenDotScanGeneral(table, [2, 3], ["+"], "3", s);
  }

  /** Right after a closed group only an operator may follow: the '.' is unexpected. */
  lemma GroupThenDot(table: FunctionTable)
    ensures Evaluate(table, "(2 + 3) .3") == Err(UnexpectedToken("."))
  {
    GroupThenDotText();
    GroupThenDotScan(table, "(2+3).3");
    ScanFails(table, "(2 + 3) .3", "(2+3).3", UnexpectedToken("."));
  }

  // ----- "2 +* 3" -----

  /** After a digit and an operator character, the number is emitted and the
      operator is pending. */
  lemma ScanDigitOperator(table: FunctionTable, s: string)
    requires |s| >= 2 && IsDigit(s[0]) && [s[1]] in OperatorSymbols
    ensures Bounded(Start.(out := [Text([s[0]])], acc := [s[1]], kind := Some(Operator)), 2)
    ensures Scan(table, s, 0, Start) == Scan(table, s, 2, Start.(out := [Text([s[0]])], acc := [s[1]], kind := Some(Operator)))
  {
    StepDigit(table, 0, Start, s[0]);
    var st1 := Start.(acc := [s[0]], kind := Some(Number));
    assert Start.acc + [s[0]] == [s[0]];
    ScanStep(table, s, 0, Start);
    assert IsDigits(st1.acc);
    StepOperatorAfterNumber(table, 1, st1, s[1]);
    assert st1.out + [Text(st1.acc)] == [Text([s[0]])];
    ScanStep(table, s, 1, st1);
  }

  /** Digit, two operator characters that make no operator, digit: the pair is an
      invalid token. */
  lemma OperatorPairScan(table: FunctionTable, s: string)
    requires |s| >= 4 && IsDigit(s[0]) && [s[1]] in OperatorSymbols && [s[2]] in OperatorSymbols
    requires IsDigit(s[3]) && Classify(table.Keys, [s[1], s[2]]).Err?
    ensures Scan(table, s, 0, Start) == Err(InvalidToken([s[1], s[2]]))
  {
    ScanDigitOperator(table, s);
    var st2 := Start.(out := [Text([s[0]])], acc := [s[1]], kind := Some(Operator));
    StepOperatorRun(table, 2, st2, s[2]);
    assert [s[1]] + [s[2]] == [s[1], s[2]];
    ScanStep(table, s, 2, st2);
    var st3 := st2.(acc := [s[1], s[2]]);
    assert IsDigits([s[3]]);
    assert ClassifyChar(table.Keys, s[3]) == Ok(Number);
    StepFlushValidates(table, 3, st3, s[3]);
  }

  lemma DoubleOperatorText()
    ensures Normalize("2 +* 3") == "2+*3"
  {
    NormalizeTo("2 +* 3", "2+*3");
  }

  lemma DoubleOperatorScan(table: FunctionTable)
    requires WordNames(table)
    ensures Scan(table, "2+*3", 0, Start) == Err(InvalidToken("+*"))
  {
    var s := "2+*3";
    NotNamePrefix(table, "+*");
    assert Classify(table.Keys, "+*").Err?;
    assert [s[1], s[2]] == "+*";
    OperatorPairScan(table, s);
  }

  /** Operator characters in a row are read as one token, which "+*" is not. */
  lemma DoubleOperator(table: FunctionTable)
    requires WordNames(table)
    ensures Evaluate(table, "2 +* 3") == Err(InvalidToken("+*"))
  {
    DoubleOperatorText();
    DoubleOperatorScan(table);
    ScanFails(table, "2 +* 3", "2+*3", InvalidToken("+*"));
  }

  // ----- "(2 += 3) * 60" -----

  lemma AssignmentGroupText()
    ensures RemoveSpaces("(2 += 3)") == "(2+=3)"
  {
    assert "(2" + "+=3)" == "(2+=3)";
    assert "(2 += 3)" == "(2 " + "+= 3)";
    assert RemoveSpaces("(2 ") == "(2" && RemoveSpaces("+= 3)") == "+=3)";
    RemoveSpacesConcat("(2 ", "+= 3)");
  }

  lemma TimesSixtyText()
    ensures RemoveSpaces(" * 60") == "*60"
  {
  }

  lemma AssignmentText()
    ensures Normalize("(2 += 3) * 60") == "(2+=3)*60"
  {
    assert "(2 += 3) * 60" == "(2 += 3)" + " * 60";
    RemoveSpacesConcat("(2 += 3)", " * 60");
    AssignmentGroupText();
    TimesSixtyText();
    assert "(2+=3)" + "*60" == "(2+=3)*60";
    NormalizeTo("(2 += 3) * 60", "(2+=3)*60");
  }

  /** Digit, operator character, then a character the classifier rejects. */
  lemma RejectedAfterOperatorScan(table: FunctionTable, s: string)
    requires |s| >= 3 && IsDigit(s[0]) && [s[1]] in OperatorSymbols
    requires s[2] != '(' && s[2] != ')' && ClassifyChar(table.Keys, s[2]).Err?
    ensures Scan(table, s, 0, Start) == Err(InvalidToken([s[2]]))
  {
    ScanDigitOperator(table, s);
  }

  lemma InnerAssignmentScan(table: FunctionTable)
    requires WordNames(table)
    ensures Scan(table, "2+=3", 0, Start) == Err(InvalidToken("="))
  {
    var s := "2+=3";
    NotNamePrefix(table, "=");
    assert ClassifyChar(table.Keys, s[2]).Err?;
    RejectedAfterOperatorScan(table, s);
    assert [s[2]] == "=";
  }

  /** "+=" is not an operator: the '=' is rejected by the classifier as soon as the
      group is tokenized, so no `InvalidOperator` is ever raised. */
  lemma InnerAssignment(table: FunctionTable)
    requires WordNames(table)
    ensures Tokenize(table, "2+=3") == Err(InvalidToken("="))
  {
    NormalizeTo("2+=3", "2+=3");
    InnerAssignmentScan(table);
    ScanFails(table, "2+=3", "2+=3", InvalidToken("="));
  }

  lemma AssignmentScan(table: FunctionTable)
    requires WordNames(table)
    ensures Scan(table, "(2+=3)*60", 0, Start) == Err(InvalidToken("="))
  {
    var s := "(2+=3)*60";
    NotNamePrefix(table, "=");
    assert ClassifyChar(table.Keys, s[3]).Err?;
    RejectedInGroupScan(table, s);
    assert [s[3]] == "=";
  }

  /** A digit, an operator character, a rejected character and a digit, tokenized on
      their own: the rejected character is reported. */
  lemma RejectedInner(table: FunctionTable, inner: string)
    requires |inner| == 4 && IsDigit(inner[0]) && [inner[1]] in OperatorSymbols
    requires inner[2] != '(' && inner[2] != ')' && inner[2] != ' ' && ClassifyChar(table.Keys, inner[2]).Err?
    requires IsDigit(inner[3])
    ensures forall k :: 0 <= k < |inner| ==> inner[k] != '(' && inner[k] != ')'
    ensures Tokenize(table, inner) == Err(InvalidToken([inner[2]]))
  {
    OperatorCharNotSpace(inner[1]);
    assert inner == [inner[0], inner[1], inner[2], inner[3]];
    NormalizeFixes(inner);
    RejectedAfterOperatorScan(table, inner);
    ScanFails(table, inner, inner, InvalidToken([inner[2]]));
  }

  /** "(", a digit, an operator character, a rejected character, a digit, ")": the
      group's own tokenization fails on the rejected character, and so does the
      whole scan. */
  lemma RejectedInGroupScan(table: FunctionTable, s: string)
    requires |s| >= 6 && s[0] == '(' && IsDigit(s[1]) && [s[2]] in OperatorSymbols
    requires s[3] != '(' && s[3] != ')' && s[3] != ' ' && ClassifyChar(table.Keys, s[3]).Err?
    requires IsDigit(s[4]) && s[5] == ')'
    ensures Scan(table, s, 0, Start) == Err(InvalidToken([s[3]]))
  {
    var inner := s[1..5];
    SplitGroup(s, 5);
    RejectedInner(table, inner);
    GroupFails(table, inner, s[6..], InvalidToken([s[3]]), s);
  }

  lemma SplitGroup(s: string, j: nat)
    requires 0 < j < |s| && s[0] == '(' && s[j] == ')'
    ensures s == "(" + s[1..j] + ")" + s[j + 1..]
  {
    assert s == s[..1] + s[1..j] + s[j..j + 1] + s[j + 1..];
  }

  /** A group whose inside fails to tokenize fails the scan the same way. */
  lemma GroupFails(table: FunctionTable, inner: string, rest: string, e: Error, s: string)
    requires forall k :: 0 <= k < |inner| ==> inner[k] != '(' && inner[k] != ')'
    requires Tokenize(table, inner) == Err(e) && s == "(" + inner + ")" + rest
    ensures Scan(table, s, 0, Start) == Err(e)
  {
    assert s[0..|inner| + 2] == "(" + inner + ")" && Emitted(Start) == [];
    ScanGroup(table, s, 0, Start, inner);
  }

  lemma Assignment(table: FunctionTable)
    requires WordNames(table)
    ensures Evaluate(table, "(2 += 3) * 60") == Err(InvalidToken("="))
  {
    AssignmentText();
    AssignmentScan(table);
    ScanFails(table, "(2 += 3) * 60", "(2+=3)*60", InvalidToken("="));
  }
}
