/** Function calls written out as text: a supported name, '(' , argument pieces
    separated by commas, ')'. Each piece is a digit string or empty; an empty piece
    tokenizes to `None`, which is passed to the function as it is ("round(7,)" calls
    `round(7, None)`). `EvaluateCall` proves that `evaluate` on such a text is what
    the table's function replies to the argument values. */
module Calls {
  import opened Errors
  import opened Enums
  import opened Operators
  import opened Types
  import opened Lexical
  import opened Precedence
  import opened Tokenization
  import opened TokenizerFacts
  import opened Evaluation
  import opened Rendering
  import opened StrMath

  /** A name the function pattern accepts and the tokenizer starts reading as a
      function: 2 to 10 word characters, the first not a digit. */
  predicate CallableName(table: FunctionTable, name: string) {
    name in table && 2 <= |name| <= 10 && !IsDigit(name[0])
    && forall i :: 0 <= i < |name| ==> IsWordChar(name[i])
  }

  /** An argument piece: a digit string, or nothing at all. */
  predicate SimplePiece(p: string) {
    p == "" || IsDigits(p)
  }

  predicate SimplePieces(pieces: seq<string>) {
    forall i :: 0 <= i < |pieces| ==> SimplePiece(pieces[i])
  }

  /** The value a piece is passed as: its integer, or `None` when it is empty. */
  function PieceValue(p: string): (v: ArgValue)
    requires SimplePiece(p)
    ensures v.NoneArg? <==> p == ""
  {
    if p == "" then NoneArg else NumArg(IntN(DigitsValue(p)))
  }

  function PieceValues(pieces: seq<string>): (vs: seq<ArgValue>)
    requires SimplePieces(pieces)
    ensures |vs| == |pieces|
  {
    seq(|pieces|, i requires 0 <= i < |pieces| => PieceValue(pieces[i]))
  }

  /** The element a piece tokenizes to. */
  function PieceElem(p: string): Elem
    requires SimplePiece(p)
  {
    if p == "" then Nothing else Num(IntN(DigitsValue(p)))
  }

  function PieceElems(pieces: seq<string>): (es: seq<Elem>)
    requires SimplePieces(pieces)
    ensures |es| == |pieces|
  {
    seq(|pieces|, i requires 0 <= i < |pieces| => PieceElem(pieces[i]))
  }

  /** `name(p1,p2,...)`. */
  function CallText(name: string, pieces: seq<string>): string
    requires |pieces| >= 1
  {
    name + "(" + Join(pieces, ',') + ")"
  }

  /** What `Function.evaluate` makes of the function's reply. */
  function Outcome(name: string, reply: Reply): Result<Number> {
    match reply
    case Returned(v) => Ok(v)
    case RaisedTypeError => Err(InvalidFunction(name))
    case RaisedZeroDivision => Err(DivisionByZero)
    case RaisedOther => Err(HostCrash)
  }

  // ----- the characters of a call -----

  lemma {:induction false} JoinChars(pieces: seq<string>)
    requires |pieces| >= 1 && SimplePieces(pieces)
    ensures forall k :: 0 <= k < |Join(pieces, ',')| ==>
              IsDigit(Join(pieces, ',')[k]) || Join(pieces, ',')[k] == ','
    decreases |pieces|
  {
    if |pieces| > 1 {
      JoinChars(pieces[1..]);
      var p, j := pieces[0], Join(pieces[1..], ',');
      assert Join(pieces, ',') == p + [','] + j;
      forall k | 0 <= k < |Join(pieces, ',')|
        ensures IsDigit(Join(pieces, ',')[k]) || Join(pieces, ',')[k] == ','
      {
        if k < |p| {
          assert Join(pieces, ',')[k] == p[k];
        } else if k > |p| {
          assert Join(pieces, ',')[k] == j[k - |p| - 1];
        }
      }
    }
  }

  /** The longest word at the start of a word followed by a non-word character is
      that word. */
  lemma {:induction false} LeadingWordOf(w: string, rest: string)
    requires forall i :: 0 <= i < |w| ==> IsWordChar(w[i])
    requires |rest| > 0 && !IsWordChar(rest[0])
    ensures LeadingWord(w + rest) == |w|
    decreases |w|
  {
    if |w| > 0 {
      assert (w + rest)[1..] == w[1..] + rest;
      LeadingWordOf(w[1..], rest);
    } else {
      assert w + rest == rest;
    }
  }

  /** A call text matches the function pattern, and splits back into its name and
      its argument text. */
  lemma CallTextParts(name: string, a: string)
    requires 2 <= |name| <= 10 && forall i :: 0 <= i < |name| ==> IsWordChar(name[i])
    requires |a| >= 1 && forall k :: 0 <= k < |a| ==> IsDigit(a[k]) || a[k] == ','
    ensures FunctionRegexMatch(name + "(" + a + ")")
    ensures FunctionName(name + "(" + a + ")") == name
    ensures ArgumentText(name + "(" + a + ")") == a
  {
    var s := name + "(" + a + ")";
    LeadingWordOf(name, "(" + a + ")");
    assert s == name + ("(" + a + ")");
    var k := |name|;
    assert s[k] == '(';
    var j := |s| - 1;
    assert s[j] == ')';
    forall m | k < m < j
      ensures s[m] != '\n'
    {
      assert s[m] == a[m - k - 1];
    }
    assert s[..k] == name;
    assert s[k + 1..|s| - 1] == a;
  }

  // ----- reading a call -----

  /** The state while a function's name or arguments are gathered. */
  function Reading(acc: string, depth: int, inArgs: bool): ScanState {
    ScanState([], acc, Some(Function), depth, false, true, inArgs)
  }

  /** The first letter of a supported name starts the function. */
  lemma StepNameStart(table: FunctionTable, name: string)
    requires CallableName(table, name)
    ensures Step(table, 0, Start, name[0]) == Ok(Reading([name[0]], 0, false))
  {
    var c := name[0];
    assert name[..1] == [c];
    assert [c] <= name;
    assert IsNamePrefix(table.Keys, [c]);
    assert !IsDigits([c]);
    assert [c] !in OperatorSymbols;
    assert LeadingDigits([c]) == 0;
    assert ClassifyChar(table.Keys, c) == Ok(Function);
    assert c != '(' && c != ')';
    assert Braces(Start, c) == Start;
    assert !Unexpected(Function, Start.kind, false) && Merges(Function, Start.kind);
    assert Start.acc + [c] == [c];
    assert Classified(table.Keys, Start, c) == Ok(Reading([c], 0, false));
  }

  /** While a call is gathered, characters other than parentheses are kept, from
      position i up to position j. */
  lemma {:induction false} GatherCall(table: FunctionTable, s: string, i: nat, j: nat, acc: string, depth: nat, inArgs: bool)
    requires i <= j <= |s| && |acc| <= i && !(depth == 0 && inArgs)
    requires forall k :: i <= k < j ==> s[k] != '(' && s[k] != ')'
    ensures Bounded(Reading(acc + s[i..j], depth, inArgs), j)
    ensures Scan(table, s, i, Reading(acc, depth, inArgs))
         == Scan(table, s, j, Reading(acc + s[i..j], depth, inArgs))
    decreases j - i
  {
    if i < j {
      var st := Reading(acc, depth, inArgs);
      StepInsideFunction(table, i, st, s[i]);
      ScanStep(table, s, i, st);
      GatherCall(table, s, i + 1, j, acc + [s[i]], depth, inArgs);
      assert acc + [s[i]] + s[i + 1..j] == acc + s[i..j];
    } else {
      assert acc + s[i..j] == acc;
    }
  }

  /** Reading the name of a call, up to its '('. */
  lemma ScanName(table: FunctionTable, name: string, s: string)
    requires CallableName(table, name) && |name| < |s| && s[..|name|] == name
    ensures Bounded(Reading(name, 0, false), |name|)
    ensures Scan(table, s, 0, Start) == Scan(table, s, |name|, Reading(name, 0, false))
  {
    var n := |name|;
    assert s[0] == name[0];
    StepNameStart(table, name);
    ScanStep(table, s, 0, Start);
    forall k | 1 <= k < n
      ensures s[k] != '(' && s[k] != ')'
    {
      assert s[k] == name[k];
    }
    GatherCall(table, s, 1, n, [name[0]], 0, false);
    assert [name[0]] + s[1..n] == name;
  }

  /** Reading the '(' after the name and the argument text up to the closing ')'. */
  lemma ScanArguments(table: FunctionTable, name: string, a: string, s: string)
    requires s == name + "(" + a + ")" && |name| > 0
    requires forall k :: 0 <= k < |a| ==> IsDigit(a[k]) || a[k] == ','
    requires Bounded(Reading(name, 0, false), |name|)
    ensures Bounded(Reading(name + "(" + a, 1, true), |s| - 1)
    ensures Scan(table, s, |name|, Reading(name, 0, false))
         == Scan(table, s, |s| - 1, Reading(name + "(" + a, 1, true))
  {
    var n := |name|;
    assert s[n] == '(';
    assert Step(table, n, Reading(name, 0, false), '(') == Ok(Reading(name + "(", 1, true));
    ScanStep(table, s, n, Reading(name, 0, false));
    forall k | n + 1 <= k < |s| - 1
      ensures s[k] != '(' && s[k] != ')'
    {
      assert s[k] == a[k - n - 1];
    }
    GatherCall(table, s, n + 1, |s| - 1, name + "(", 1, true);
    assert s[n + 1..|s| - 1] == a;
  }

  /** Reading a whole call text leaves exactly one piece, the text itself. */
  lemma ScanCall(table: FunctionTable, name: string, a: string)
    requires CallableName(table, name)
    requires forall k :: 0 <= k < |a| ==> IsDigit(a[k]) || a[k] == ','
    ensures var s := name + "(" + a + ")";
            Scan(table, s, 0, Start)
            == Ok(ScanState([Text(s)], "", Some(Function), 0, false, false, false))
  {
    var s := name + "(" + a + ")";
    assert s[..|name|] == name;
    ScanName(table, name, s);
    ScanArguments(table, name, a, s);
    var st := Reading(name + "(" + a, 1, true);
    assert s[|s| - 1] == ')';
    StepFunctionClose(table, |s| - 1, st);
    ScanStep(table, s, |s| - 1, st);
    var done := ScanState([Text(s)], "", Some(Function), 0, false, false, false);
    assert st.acc + ")" == s;
    assert st.out + [Text(s)] == [Text(s)];
    assert Step(table, |s| - 1, st, s[|s| - 1]) == Ok(done);
    assert Scan(table, s, |s|, done) == Ok(done);
  }

  lemma NormalizeCall(name: string, a: string)
    requires forall i :: 0 <= i < |name| ==> IsWordChar(name[i])
    requires |name| > 0 && forall k :: 0 <= k < |a| ==> IsDigit(a[k]) || a[k] == ','
    ensures Normalize(name + "(" + a + ")") == name + "(" + a + ")"
  {
    var s := name + "(" + a + ")";
    forall k | 0 <= k < |s|
      ensures s[k] != ' '
    {
      if k < |name| {
        assert s[k] == name[k];
      } else if |name| < k < |s| - 1 {
        assert s[k] == a[k - |name| - 1];
      }
    }
    assert s[0] == name[0];
    NormalizeFixes(s);
  }

  // ----- tokenizing the arguments -----

  /** The empty text tokenizes to `None`. */
  lemma TokenizeEmpty(table: FunctionTable, s: string)
    requires |s| == 0
    ensures Tokenize(table, s) == Ok(Nothing)
  {
    NormalizeFixes(s);
    TokenizeCleanEmpty(table, s);
  }

  lemma TokenizeCleanEmpty(table: FunctionTable, s: string)
    requires |s| == 0
    ensures TokenizeClean(table, s) == Ok(Nothing)
  {
    assert Scan(table, s, 0, Start) == Ok(Start);
    assert Finish(Start) == Ok([]);
    assert ConvertAll(table, 0, []) == Ok([]);
    TokenizeCleanSteps(table, s, Start, [], []);
    ApplyOrderEmpty();
  }

  lemma ApplyOrderEmpty()
    ensures ApplyOrder([]) == Ok(Nothing)
  {
    assert SplitPoint([]) == NoCut;
  }

  lemma TokenizePiece(table: FunctionTable, p: string)
    requires SimplePiece(p)
    ensures Tokenize(table, p) == Ok(PieceElem(p))
  {
    if p == "" {
      TokenizeEmpty(table, p);
    } else {
      TokenizeDigits(table, p);
    }
  }

  /** Results that all succeed are collected into their values. */
  lemma CollectedAllOk<T>(toks: seq<Result<T>>, r: Result<seq<T>>, vs: seq<T>)
    requires Collected(toks, r) && |vs| == |toks|
    requires forall j :: 0 <= j < |toks| ==> toks[j] == Ok(vs[j])
    ensures r == Ok(vs)
  {
    assert r.value == vs;
  }

  lemma TokenizeSimpleArgs(table: FunctionTable, bound: nat, pieces: seq<string>)
    requires SimplePieces(pieces) && forall j :: 0 <= j < |pieces| ==> |pieces[j]| < bound
    ensures TokenizeArgs(table, bound, pieces) == Ok(PieceElems(pieces))
  {
    var toks := Separately(table, pieces);
    TokenizeArgsEach(table, bound, pieces);
    forall j | 0 <= j < |pieces|
      ensures toks[j] == Ok(PieceElems(pieces)[j])
    {
      TokenizePiece(table, pieces[j]);
    }
    CollectedAllOk(toks, TokenizeArgs(table, bound, pieces), PieceElems(pieces));
  }

  /** The arguments' values, passed on as they are. */
  lemma EvalPieceArgs(table: FunctionTable, pieces: seq<string>)
    requires SimplePieces(pieces)
    ensures EvalArgs(table, PieceElems(pieces)) == Ok(PieceValues(pieces))
  {
    var es := PieceElems(pieces);
    forall i | 0 <= i < |es|
      ensures EvalArg(table, es[i]) == Ok(PieceValue(pieces[i]))
    {
    }
    assert EvalArgs(table, es).value == PieceValues(pieces);
  }

  /** The call text tokenizes to the call of the name on the pieces' elements. */
  lemma TokenizeCall(table: FunctionTable, name: string, pieces: seq<string>)
    requires CallableName(table, name)
    requires |pieces| >= 1 && SimplePieces(pieces) && |Join(pieces, ',')| >= 1
    ensures Tokenize(table, CallText(name, pieces)) == Ok(Call(name, PieceElems(pieces)))
  {
    var a := Join(pieces, ',');
    var s := CallText(name, pieces);
    JoinChars(pieces);
    NormalizeCall(name, a);
    ScanCall(table, name, a);
    var st := ScanState([Text(s)], "", Some(Function), 0, false, false, false);
    assert Finish(st) == Ok([Text(s)]);
    ConvertCall(table, name, pieces);
    ConvertAllOne(table, |s|, Text(s), Call(name, PieceElems(pieces)));
  }

  /** The call text converts to the call. */
  lemma ConvertCall(table: FunctionTable, name: string, pieces: seq<string>)
    requires CallableName(table, name)
    requires |pieces| >= 1 && SimplePieces(pieces) && |Join(pieces, ',')| >= 1
    ensures ConvertRaw(table, |CallText(name, pieces)|, Text(CallText(name, pieces)))
         == Ok(Call(name, PieceElems(pieces)))
  {
    var a := Join(pieces, ',');
    var s := CallText(name, pieces);
    JoinChars(pieces);
    CallTextParts(name, a);
    assert forall i :: 0 <= i < |pieces| ==> ',' !in pieces[i];
    SplitJoin(pieces, ',');
    TokenizeSimpleArgs(table, |s|, Split(ArgumentText(s), ','));
  }

  lemma ConvertAllOne(table: FunctionTable, bound: nat, raw: Raw, e: Elem)
    requires RawOk(raw, bound) && ConvertRaw(table, bound, raw) == Ok(e)
    ensures ConvertAll(table, bound, [raw]) == Ok([e])
  {
    assert [raw][0] == raw && [raw][1..] == [];
    assert ConvertAll(table, bound, []) == Ok([]);
    assert [e] + [] == [e];
  }

  /** `evaluate` on a call of a supported function with digit and empty arguments
      gives what the function replies to their values: its number, or its
      `TypeError` as an invalid function, its `ZeroDivisionError` as it is, any
      other exception as a crash. */
  lemma EvaluateCall(table: FunctionTable, name: string, pieces: seq<string>)
    requires CallableName(table, name)
    requires |pieces| >= 1 && SimplePieces(pieces) && |Join(pieces, ',')| >= 1
    ensures Evaluate(table, CallText(name, pieces)) == Outcome(name, table[name].apply(PieceValues(pieces)))
  {
    TokenizeCall(table, name, pieces);
    EvalPieceArgs(table, pieces);
  }

  // ----- an empty argument -----

  /** "round(7,)" calls `round(7, None)`: the empty piece after the comma is passed
      as `None`, and the outcome is whatever `round` does with it. */
  lemma RoundTrailingComma(table: FunctionTable)
    requires "round" in table
    ensures Evaluate(table, "round(7,)") == Outcome("round", table["round"].apply([NumArg(IntN(7)), NoneArg]))
  {
    var pieces := ["7", ""];
    RoundName(table);
    RoundText();
    RoundValues();
    EvaluateCall(table, "round", pieces);
  }

  lemma RoundName(table: FunctionTable)
    requires "round" in table
    ensures CallableName(table, "round")
  {
  }

  lemma RoundText()
    ensures SimplePieces(["7", ""]) && Join(["7", ""], ',') == "7,"
    ensures CallText("round", ["7", ""]) == "round(7,)"
  {
    assert Join([""], ',') == "";
    assert Join(["7", ""], ',') == "7" + [','] + Join([""], ',');
  }

  lemma RoundValues()
    ensures SimplePieces(["7", ""]) && PieceValues(["7", ""]) == [NumArg(IntN(7)), NoneArg]
  {
    assert DigitsValue("7") == 10 * DigitsValue("") + DigitValue('7');
  }
}
