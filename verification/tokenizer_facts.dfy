/** What one step of the tokenizer does in the situations the library documents,
    and how scans compose; with these, tokenizing a digit string yields its
    integer. */
module TokenizerFacts {
  import opened Errors
  import opened Enums
  import opened Operators
  import opened Types
  import opened Lexical
  import opened Precedence
  import opened Tokenization

  /** Outside every group and function call. */
  predicate TopLevel(st: ScanState) {
    st.depth == 0 && !st.inGroup && !st.inFunc && !st.inArgs
  }

  // ----- the three UnexpectedToken positions -----

  /** A '.' is accepted only right after a digit; anywhere else it is reported
      together with the pending text. */
  lemma StepDot(table: FunctionTable, i: nat, st: ScanState)
    requires Bounded(st, i) && TopLevel(st)
    ensures Step(table, i, st, '.').Err? <==> st.kind != Some(Number)
    ensures st.kind != Some(Number) ==> Step(table, i, st, '.') == Err(UnexpectedToken(st.acc + "."))
  {
    assert ClassifyChar(table.Keys, '.') == Ok(Dot);
  }

  /** Right after a closed group only an operator may follow; it starts a new pending
      text, and anything else is unexpected. */
  lemma StepAfterGroup(table: FunctionTable, i: nat, st: ScanState, c: char)
    requires Bounded(st, i) && TopLevel(st) && st.kind == Some(Expression)
    requires c != '(' && c != ')' && ClassifyChar(table.Keys, c).Ok?
    ensures ClassifyChar(table.Keys, c).value == Operator ==>
              Step(table, i, st, c) == Ok(st.(acc := [c], kind := Some(Operator)))
    ensures ClassifyChar(table.Keys, c).value != Operator ==>
              Step(table, i, st, c) == Err(UnexpectedToken(st.acc + [c]))
  {
  }

  /** A function name may only start where nothing is pending or after an operator. */
  lemma StepFunctionAfterOperand(table: FunctionTable, i: nat, st: ScanState, c: char)
    requires Bounded(st, i) && TopLevel(st)
    requires c != '(' && c != ')' && ClassifyChar(table.Keys, c) == Ok(Function)
    ensures st.kind.None? ==> Step(table, i, st, c).Ok?
    ensures st.kind.Some? && st.kind != Some(Operator) ==>
              Step(table, i, st, c) == Err(UnexpectedToken(st.acc + [c]))
    ensures Step(table, i, st, c).Ok? ==> Step(table, i, st, c).value.inFunc
  {
  }

  // ----- braces -----

  /** A ')' with no open group and no function being read is a mismatch. */
  lemma StepCloseUnderflow(table: FunctionTable, i: nat, st: ScanState)
    requires Bounded(st, i) && TopLevel(st)
    ensures Step(table, i, st, ')') == Err(BracesMismatch)
  {
  }

  /** The ')' that closes a top-level group replaces the whole group by exactly one
      element, the tokenized inner text (without the opening parenthesis), or
      fails as that inner tokenization does. */
  lemma StepGroupClose(table: FunctionTable, i: nat, st: ScanState)
    requires Bounded(st, i) && st.inGroup && st.depth == 1 && !st.inFunc
    ensures Tokenize(table, Drop1(st.acc)).Err? ==>
              Step(table, i, st, ')') == Err(Tokenize(table, Drop1(st.acc)).error)
    ensures Tokenize(table, Drop1(st.acc)).Ok? ==>
              Step(table, i, st, ')')
              == Ok(st.(out := st.out + [Nested(Tokenize(table, Drop1(st.acc)).value)],
                        acc := "", depth := 0, inGroup := false))
  {
  }

  /** While a function name or its arguments are read every character other than a
      parenthesis is kept verbatim, unclassified. */
  lemma StepInsideFunction(table: FunctionTable, i: nat, st: ScanState, c: char)
    requires Bounded(st, i) && st.inFunc && !st.inGroup && c != '(' && c != ')'
    requires !(st.depth == 0 && st.inArgs)
    ensures Step(table, i, st, c) == Ok(st.(acc := st.acc + [c]))
  {
  }

  /** The ')' that brings the depth of a function's argument list back to zero emits
      the whole call text as one piece. */
  lemma StepFunctionClose(table: FunctionTable, i: nat, st: ScanState)
    requires Bounded(st, i) && st.inFunc && st.inArgs && !st.inGroup && st.depth == 1
    ensures Step(table, i, st, ')')
         == Ok(st.(out := st.out + [Text(st.acc + ")")], acc := "", depth := 0, inFunc := false, inArgs := false))
  {
  }

  // ----- merging and validation -----

  /** Operator characters in a row build one pending text ("//", "**", but also "+*"). */
  lemma StepOperatorRun(table: FunctionTable, i: nat, st: ScanState, c: char)
    requires Bounded(st, i) && TopLevel(st) && st.kind == Some(Operator)
    requires [c] in OperatorSymbols
    ensures Step(table, i, st, c) == Ok(st.(acc := st.acc + [c]))
  {
    assert c != '(' && c != ')';
  }

  /** When a character of another kind ends a pending text, that text is validated
      first; a run of operator characters that is not one of the seven symbols (and
      no function name prefix) is an invalid token. */
  lemma StepFlushValidates(table: FunctionTable, i: nat, st: ScanState, c: char)
    requires Bounded(st, i) && TopLevel(st) && c != '(' && c != ')'
    requires ClassifyChar(table.Keys, c).Ok?
    requires !Unexpected(ClassifyChar(table.Keys, c).value, st.kind, false)
    requires !Merges(ClassifyChar(table.Keys, c).value, st.kind)
    requires st.kind != Some(Expression) && st.acc != ""
    ensures Classify(table.Keys, st.acc).Err? ==> Step(table, i, st, c) == Err(InvalidToken(st.acc))
    ensures Classify(table.Keys, st.acc).Ok? ==>
              Step(table, i, st, c)
              == Ok(st.(out := st.out + [Text(st.acc)], acc := [c],
                        kind := Some(ClassifyChar(table.Keys, c).value),
                        inFunc := ClassifyChar(table.Keys, c).value == Function))
  {
  }

  // ----- composing scans -----

  /** One iteration of the loop, when the character is accepted. */
  lemma ScanStep(table: FunctionTable, s: string, i: nat, st: ScanState)
    requires i < |s| && Bounded(st, i) && Step(table, i, st, s[i]).Ok?
    ensures Scan(table, s, i, st) == Scan(table, s, i + 1, Step(table, i, st, s[i]).value)
  {
  }

  /** One iteration of the loop, when the character is refused. */
  lemma ScanStepFails(table: FunctionTable, s: string, i: nat, st: ScanState)
    requires i < |s| && Bounded(st, i) && Step(table, i, st, s[i]).Err?
    ensures Scan(table, s, i, st) == Err(Step(table, i, st, s[i]).error)
  {
  }

  /** Scanning a longer text goes through the same states while it reads the shared
      prefix. */
  lemma {:induction false} ScanPrefix(table: FunctionTable, p: string, q: string, i: nat, st: ScanState)
    requires i <= |p| && Bounded(st, i)
    ensures Scan(table, p, i, st).Err? ==> Scan(table, p + q, i, st) == Scan(table, p, i, st)
    ensures Scan(table, p, i, st).Ok? ==>
              Scan(table, p + q, i, st) == Scan(table, p + q, |p|, Scan(table, p, i, st).value)
    decreases |p| - i
  {
    if i < |p| {
      assert (p + q)[i] == p[i];
      var r := Step(table, i, st, p[i]);
      if r.Ok? {
        ScanPrefix(table, p, q, i + 1, r.value);
      }
    }
  }

  /** Digits read after digits (or at the very start) extend the pending number. */
  lemma StepDigit(table: FunctionTable, i: nat, st: ScanState, c: char)
    requires Bounded(st, i) && TopLevel(st) && (st.kind.None? || st.kind == Some(Number))
    requires IsDigit(c)
    ensures Step(table, i, st, c) == Ok(st.(acc := st.acc + [c], kind := Some(Number)))
  {
    assert IsDigits([c]);
    assert ClassifyChar(table.Keys, c) == Ok(Number);
  }

  /** A run of digits is read into the pending text without emitting anything. */
  lemma {:induction false} ScanDigitRun(table: FunctionTable, s: string, i: nat, j: nat, st: ScanState)
    requires i < j <= |s| && Bounded(st, i) && TopLevel(st)
    requires st.kind.None? || st.kind == Some(Number)
    requires forall k :: i <= k < j ==> IsDigit(s[k])
    ensures Bounded(st.(acc := st.acc + s[i..j], kind := Some(Number)), j)
    ensures Scan(table, s, i, st) == Scan(table, s, j, st.(acc := st.acc + s[i..j], kind := Some(Number)))
    decreases j - i
  {
    StepDigit(table, i, st, s[i]);
    var st1 := st.(acc := st.acc + [s[i]], kind := Some(Number));
    if i + 1 < j {
      ScanDigitRun(table, s, i + 1, j, st1);
      assert st1.acc + s[i + 1..j] == st.acc + s[i..j];
    } else {
      assert s[i..j] == [s[i]];
    }
  }

  /** The characters of a digit string are no whitespace, so normalising leaves it
      unchanged. */
  lemma NormalizeDigits(d: string)
    requires IsDigits(d)
    ensures Normalize(d) == d
  {
    NormalizeFixes(d);
  }

  /** Digit strings are whole words, so they never look like a function call. */
  lemma DigitsNotCall(d: string)
    requires IsDigits(d)
    ensures !FunctionRegexMatch(d)
  {
    assert LeadingWord(d) == |d|;
  }

  lemma ScanDigits(table: FunctionTable, d: string)
    requires IsDigits(d)
    ensures Scan(table, d, 0, Start) == Ok(Start.(acc := d, kind := Some(Number)))
  {
    ScanDigitRun(table, d, 0, |d|, Start);
    assert Start.acc + d[0..|d|] == d;
    var st := Start.(acc := d, kind := Some(Number));
    assert Scan(table, d, |d|, st) == Ok(st);
  }

  lemma ConvertDigits(table: FunctionTable, bound: nat, d: string)
    requires IsDigits(d) && |d| <= bound
    ensures ConvertAll(table, bound, [Text(d)]) == Ok([Num(IntN(DigitsValue(d)))])
  {
    DigitsNotCall(d);
    assert ConvertRaw(table, bound, Text(d)) == Ok(Num(IntN(DigitsValue(d))));
    assert [Text(d)][1..] == [];
    assert ConvertAll(table, bound, []) == Ok([]);
    assert [Num(IntN(DigitsValue(d)))] + [] == [Num(IntN(DigitsValue(d)))];
  }

  /** A digit string tokenizes to its integer value, whatever the function table. */
  lemma TokenizeDigits(table: FunctionTable, d: string)
    requires IsDigits(d)
    ensures Tokenize(table, d) == Ok(Num(IntN(DigitsValue(d))))
  {
    NormalizeDigits(d);
    ScanDigits(table, d);
    var st := Start.(acc := d, kind := Some(Number));
    assert Finish(st) == Ok([Text(d)]);
    ConvertDigits(table, |d|, d);
  }

  /** Inside a group every character other than a parenthesis is kept verbatim. */
  lemma StepInsideGroup(table: FunctionTable, i: nat, st: ScanState, c: char)
    requires Bounded(st, i) && st.inGroup && st.depth > 0 && c != '(' && c != ')'
    ensures Step(table, i, st, c) == Ok(st.(acc := st.acc + [c]))
  {
  }

  // ----- reading a group -----

  /** The output once the pending text is emitted, as a '(' at top level does. */
  function Emitted(st: ScanState): seq<Raw> {
    st.out + if st.acc != "" then [Text(st.acc)] else []
  }

  /** Inside a group opened at top level: the output before it, and the group's text
      so far, its '(' included. */
  function Gathering(out: seq<Raw>, acc: string): ScanState {
    ScanState(out, acc, Some(Expression), 1, true, false, false)
  }

  /** A '(' at top level emits the pending text, unvalidated, and opens a group. */
  lemma StepOpenGroup(table: FunctionTable, i: nat, st: ScanState)
    requires Bounded(st, i) && TopLevel(st)
    ensures Step(table, i, st, '(') == Ok(Gathering(Emitted(st), "("))
  {
    assert Braces(st, '(') == Gathering(Emitted(st), "");
    assert "" + ['('] == "(";
  }

  /** Gathering a group's characters verbatim, from its '(' at position p up to
      position j. */
  lemma {:induction false} GatherGroup(table: FunctionTable, s: string, p: nat, j: nat, st: ScanState)
    requires p < j <= |s| && s[p] == '(' && Bounded(st, p) && TopLevel(st)
    requires forall k :: p < k < j ==> s[k] != '(' && s[k] != ')'
    ensures Bounded(Gathering(Emitted(st), s[p..j]), j)
    ensures Scan(table, s, p, st) == Scan(table, s, j, Gathering(Emitted(st), s[p..j]))
    decreases j
  {
    if j == p + 1 {
      assert s[p..p + 1] == "(";
      StepOpenGroup(table, p, st);
      ScanStep(table, s, p, st);
    } else {
      GatherGroup(table, s, p, j - 1, st);
      var g := Gathering(Emitted(st), s[p..j - 1]);
      StepInsideGroup(table, j - 1, g, s[j - 1]);
      assert s[p..j - 1] + [s[j - 1]] == s[p..j];
      ScanStep(table, s, j - 1, g);
    }
  }

  /** The ')' closing a group being gathered, with the scan continuing after it. */
  lemma ScanGroupClose(table: FunctionTable, s: string, j: nat, out: seq<Raw>, inner: string)
    requires j < |s| && s[j] == ')' && Bounded(Gathering(out, "(" + inner), j)
    ensures Tokenize(table, inner).Err? ==>
              Scan(table, s, j, Gathering(out, "(" + inner)) == Err(Tokenize(table, inner).error)
    ensures Tokenize(table, inner).Ok? ==>
              Bounded(ScanState(out + [Nested(Tokenize(table, inner).value)], "", Some(Expression), 0, false, false, false), j + 1)
              && Scan(table, s, j, Gathering(out, "(" + inner))
                 == Scan(table, s, j + 1, ScanState(out + [Nested(Tokenize(table, inner).value)], "",
                                                    Some(Expression), 0, false, false, false))
  {
    var g := Gathering(out, "(" + inner);
    assert Drop1(g.acc) == inner;
    StepGroupClose(table, j, g);
    if Tokenize(table, inner).Ok? {
      ScanStep(table, s, j, g);
    } else {
      ScanStepFails(table, s, j, g);
    }
  }

  /** A parenthesised text with no parentheses inside, read at top level: the
      pending text is emitted, nothing else is emitted while the group is read, and
      at its ')' the inside is tokenized on its own. */
  lemma ScanGroup(table: FunctionTable, s: string, p: nat, st: ScanState, inner: string)
    requires Bounded(st, p) && TopLevel(st)
    requires p + |inner| + 2 <= |s| && s[p..p + |inner| + 2] == "(" + inner + ")"
    requires forall k :: 0 <= k < |inner| ==> inner[k] != '(' && inner[k] != ')'
    ensures Tokenize(table, inner).Err? ==> Scan(table, s, p, st) == Err(Tokenize(table, inner).error)
    ensures Tokenize(table, inner).Ok? ==>
              Bounded(ScanState(Emitted(st) + [Nested(Tokenize(table, inner).value)], "",
                                Some(Expression), 0, false, false, false), p + |inner| + 2)
              && Scan(table, s, p, st)
                 == Scan(table, s, p + |inner| + 2,
                         ScanState(Emitted(st) + [Nested(Tokenize(table, inner).value)], "",
                                   Some(Expression), 0, false, false, false))
  {
    var j := p + |inner| + 1;
    var out := Emitted(st);
    GroupChars(s, p, inner);
    GatherGroup(table, s, p, j, st);
    assert Gathering(out, s[p..j]) == Gathering(out, "(" + inner);
    ScanGroupClose(table, s, j, out, inner);
  }

  lemma GroupChars(s: string, p: nat, inner: string)
    requires p + |inner| + 2 <= |s| && s[p..p + |inner| + 2] == "(" + inner + ")"
    requires forall k :: 0 <= k < |inner| ==> inner[k] != '(' && inner[k] != ')'
    ensures s[p] == '(' && s[p + |inner| + 1] == ')' && s[p..p + |inner| + 1] == "(" + inner
    ensures forall k :: p < k < p + |inner| + 1 ==> s[k] != '(' && s[k] != ')'
  {
    var t := s[p..p + |inner| + 2];
    forall k | p < k < p + |inner| + 1
      ensures s[k] != '(' && s[k] != ')'
    {
      assert s[k] == t[k - p] == inner[k - p - 1];
    }
    assert s[p] == t[0];
    assert s[p + |inner| + 1] == t[|inner| + 1];
    assert s[p..p + |inner| + 1] == t[..|inner| + 1];
  }
}
