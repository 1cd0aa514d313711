/** The tokenizer `tokenize`: one left-to-right pass over the normalised text that
    keeps an accumulator, the kind of the last classified character, a brace depth
    and three mode flags (inside a parenthesised group, inside a function name,
    inside a function's argument list). A top-level group is tokenized recursively
    when it closes; the flat list of pieces is then converted element by element
    (`convert_token`) and handed to the precedence resolver.

    The pass is a fold of `Step` over the characters. Every step may fail, and the
    first failure is the result, as a raised exception is in Python. */
module Tokenization {
  import opened Errors
  import opened Enums
  import opened Operators
  import opened Types
  import opened Lexical
  import opened Precedence

  /** A piece of the flat list before conversion: accumulated text, or the result of
      tokenizing a parenthesised group. */
  datatype Raw = Text(t: string) | Nested(e: Elem)

  /** The loop's local variables: `tokenized`, `cached_token`, `cached_token_type`,
      `braces`, `gathering_expression`, `gathering_func`, `gathering_func_args`. */
  datatype ScanState = ScanState(
    out: seq<Raw>,
    acc: string,
    kind: Option<TokKind>,
    depth: int,
    inGroup: bool,
    inFunc: bool,
    inArgs: bool)

  const Start: ScanState := ScanState([], "", None, 0, false, false, false)

  /** A piece whose text is at most m long, or a nested result of the tokenizer's shape. */
  ghost predicate RawOk(raw: Raw, m: nat) {
    match raw
    case Text(t) => |t| <= m
    case Nested(e) => WellShaped(e)
  }

  /** After i characters nothing accumulated is longer than i. */
  ghost predicate Bounded(st: ScanState, i: nat) {
    |st.acc| <= i && forall j :: 0 <= j < |st.out| ==> RawOk(st.out[j], i)
  }

  lemma BoundedWeaken(st: ScanState, i: nat, m: nat)
    requires Bounded(st, i) && i <= m
    ensures Bounded(st, m)
  {
  }

  lemma BoundedAppend(st: ScanState, i: nat, raw: Raw, acc: string)
    requires Bounded(st, i) && RawOk(raw, i + 1) && |acc| <= i + 1
    ensures Bounded(st.(out := st.out + [raw], acc := acc), i + 1)
  {
  }

  /** The failures the tokenizer can report: its own four kinds, an unknown function
      name, and a crash of the host language. Arithmetic failures cannot occur before
      evaluation. */
  predicate ParseError(e: Error) {
    e.InvalidToken? || e.UnexpectedToken? || e.BracesMismatch? || e.IncompleteFunction?
    || e.InvalidFunction? || e.HostCrash?
  }

  /** `cached_token[1:]`, which is empty for an empty string. */
  function Drop1(s: string): (r: string)
    ensures |r| == if |s| == 0 then 0 else |s| - 1
  {
    if |s| == 0 then "" else s[1..]
  }

  // ----- the pieces of one step -----

  /** The brace bookkeeping done for every character first. A '(' outside a group and
      outside a function opens a group: the pending text is moved to the output
      unvalidated and the kind becomes `Expression`. A '(' after a function name opens
      its argument list. A ')' only lowers the depth. */
  function Braces(st: ScanState, c: char): (r: ScanState)
    ensures c != '(' && c != ')' ==> r == st
    ensures c == '(' ==> r.depth == st.depth + 1
    ensures c == ')' ==> r == st.(depth := st.depth - 1)
    ensures c == '(' && !st.inGroup && !st.inFunc ==>
              r.inGroup && r.acc == "" && r.kind == Some(Expression)
              && r.out == st.out + (if st.acc != "" then [Text(st.acc)] else [])
    ensures c == '(' && st.inFunc ==> r == st.(depth := st.depth + 1, inArgs := true)
  {
    if c == '(' then
      var st1 := st.(depth := st.depth + 1);
      if !st1.inGroup && !st1.inFunc then
        st1.(inGroup := true, kind := Some(Expression),
             out := if st1.acc != "" then st1.out + [Text(st1.acc)] else st1.out,
             acc := "")
      else if st1.inFunc then st1.(inArgs := true)
      else st1
    else if c == ')' then st.(depth := st.depth - 1)
    else st
  }

  lemma BracesBounded(st: ScanState, i: nat, c: char)
    requires Bounded(st, i)
    ensures Bounded(Braces(st, c), i)
    ensures |Braces(st, c).out| <= |st.out| + 1
  {
  }

  /** The three conditions under which the classified character is rejected with
      `UnexpectedToken`: a '.' not right after a digit, anything but an operator right
      after a closed group, and a function letter after a token that is not an
      operator. */
  predicate Unexpected(tk: TokKind, kind: Option<TokKind>, inFunc: bool) {
    (tk == Dot && kind != Some(Number))
    || (kind == Some(Expression) && tk != Operator)
    || (kind.Some? && kind != Some(Operator) && tk == Function && !inFunc)
  }

  /** The character extends the pending text: same kind, nothing pending yet, or
      digits and dots of one number. */
  predicate Merges(tk: TokKind, kind: Option<TokKind>) {
    kind == Some(tk) || kind.None? || (tk == Dot && kind == Some(Number))
    || (tk == Number && kind == Some(Dot))
  }

  /** A character outside groups and function calls: classify it, reject it if it is
      out of place, else either extend the pending text or validate and emit the
      pending text and start a new one. A function letter switches to gathering the
      function's name and arguments verbatim. */
  function Classified(names: set<string>, st: ScanState, c: char): (r: Result<ScanState>)
    ensures ClassifyChar(names, c).Err? ==> r == Err(ClassifyChar(names, c).error)
    ensures ClassifyChar(names, c).Ok? && Unexpected(ClassifyChar(names, c).value, st.kind, st.inFunc) ==>
              r == Err(UnexpectedToken(st.acc + [c]))
    ensures r.Ok? ==> r.value.kind == Some(ClassifyChar(names, c).value)
    ensures r.Ok? ==> r.value.depth == st.depth && r.value.inGroup == st.inGroup
    ensures r.Ok? && Merges(ClassifyChar(names, c).value, st.kind) ==> r.value.out == st.out
    ensures r.Ok? && Merges(ClassifyChar(names, c).value, st.kind) ==> r.value.acc == st.acc + [c]
    ensures r.Ok? && !Merges(ClassifyChar(names, c).value, st.kind) ==> r.value.acc == [c]
    ensures r.Err? && ClassifyChar(names, c).Ok? && !Unexpected(ClassifyChar(names, c).value, st.kind, st.inFunc) ==>
              r == Err(InvalidToken(st.acc))
    ensures r.Err? ==> ParseError(r.error)
  {
    var tk :- ClassifyChar(names, c);
    if Unexpected(tk, st.kind, st.inFunc) then Err(UnexpectedToken(st.acc + [c]))
    else
      var st1 :-
        if Merges(tk, st.kind) then Ok(st.(acc := st.acc + [c]))
        else if st.kind != Some(Expression) && st.acc != "" then
          var _ :- Classify(names, st.acc);
          Ok(st.(out := st.out + [Text(st.acc)], acc := [c]))
        else Ok(st.(acc := [c]));
      Ok(st1.(inFunc := st1.inFunc || tk == Function, kind := Some(tk)))
  }

  lemma ClassifiedBounded(names: set<string>, st: ScanState, i: nat, c: char)
    requires Bounded(st, i)
    ensures Classified(names, st, c).Ok? ==> Bounded(Classified(names, st, c).value, i + 1)
  {
  }

  // ----- the tokenizer proper -----

  /** `tokenize(x)`: remove every space and strip the ends, then tokenize what is left. */
  function Tokenize(table: FunctionTable, x: string): (r: Result<Elem>)
    ensures r.Ok? ==> WellShaped(r.value)
    ensures r.Err? ==> ParseError(r.error)
    decreases |x|, 4, 0
  {
    TokenizeClean(table, Normalize(x))
  }

  /** The scan, the end-of-input checks, the conversion and the resolver. */
  function TokenizeClean(table: FunctionTable, s: string): (r: Result<Elem>)
    ensures r.Ok? ==> WellShaped(r.value)
    ensures r.Err? ==> ParseError(r.error)
    decreases |s|, 3, 0
  {
    var st :- Scan(table, s, 0, Start);
    var raws :- Finish(st);
    BoundedWeaken(st, |s|, |s|);
    var elems :- ConvertAll(table, |s|, raws);
    ApplyOrderWellShaped(elems);
    ApplyOrder(elems)
  }

  /** The loop over the characters of s from position i on. */
  function Scan(table: FunctionTable, s: string, i: nat, st: ScanState): (r: Result<ScanState>)
    requires i <= |s| && Bounded(st, i)
    ensures r.Ok? ==> Bounded(r.value, |s|)
    ensures r.Err? ==> ParseError(r.error)
    decreases |s|, 2, |s| - i
  {
    if i == |s| then Ok(st)
    else
      var st1 :- Step(table, i, st, s[i]);
      Scan(table, s, i + 1, st1)
  }

  /** One iteration of the loop, for the character at position i. */
  function Step(table: FunctionTable, i: nat, st: ScanState, c: char): (r: Result<ScanState>)
    requires Bounded(st, i)
    ensures r.Ok? ==> Bounded(r.value, i + 1)
    ensures r.Err? ==> ParseError(r.error)
    decreases i + 1, 1, 0
  {
    BracesBounded(st, i, c);
    var st1 := Braces(st, c);
    if st1.depth == 0 && st1.inGroup then
      var inner :- Tokenize(table, Drop1(st1.acc));
      BoundedAppend(st1, i, Nested(inner), "");
      Ok(st1.(out := st1.out + [Nested(inner)], inGroup := false, acc := ""))
    else if st1.depth == 0 && st1.inFunc && st1.inArgs then
      BoundedAppend(st1, i, Text(st1.acc + [c]), "");
      Ok(st1.(out := st1.out + [Text(st1.acc + [c])], acc := "", inFunc := false, inArgs := false))
    else if st1.depth > 0 || st1.inFunc then
      Ok(st1.(acc := st1.acc + [c]))
    else if st1.depth < 0 then
      Err(BracesMismatch)
    else
      ClassifiedBounded(table.Keys, st1, i, c);
      Classified(table.Keys, st1, c)
  }

  /** After the loop: an unfinished function is reported first, then unclosed braces;
      otherwise the pending text is emitted, unvalidated. */
  function Finish(st: ScanState): (r: Result<seq<Raw>>)
    ensures r == Err(IncompleteFunction(st.acc)) <==> st.inFunc
    ensures r == Err(BracesMismatch) <==> !st.inFunc && st.depth > 0
    ensures r.Ok? ==> |st.out| <= |r.value| <= |st.out| + 1 && r.value[..|st.out|] == st.out
    ensures r.Ok? ==> (|r.value| > |st.out| <==> st.acc != "")
    ensures r.Ok? && st.acc != "" ==> r.value[|st.out|] == Text(st.acc)
    ensures r.Err? ==> ParseError(r.error)
  {
    if st.inFunc then Err(IncompleteFunction(st.acc))
    else if st.depth > 0 then Err(BracesMismatch)
    else if st.acc != "" then Ok(st.out + [Text(st.acc)])
    else Ok(st.out)
  }

  // ----- convert_token -----

  /** `[convert_token(t) for t in tokenized]`: converted in order, the first failure
      is the result. */
  function ConvertAll(table: FunctionTable, bound: nat, raws: seq<Raw>): (r: Result<seq<Elem>>)
    requires forall j :: 0 <= j < |raws| ==> RawOk(raws[j], bound)
    ensures r.Ok? ==> |r.value| == |raws|
    ensures r.Ok? ==> forall j :: 0 <= j < |raws| ==> ConvertRaw(table, bound, raws[j]) == Ok(r.value[j])
    ensures r.Ok? ==> forall j :: 0 <= j < |r.value| ==> WellShaped(r.value[j])
    ensures r.Err? ==> exists j :: 0 <= j < |raws| && ConvertRaw(table, bound, raws[j]) == Err(r.error)
                                   && forall k :: 0 <= k < j ==> ConvertRaw(table, bound, raws[k]).Ok?
    ensures r.Err? ==> ParseError(r.error)
    decreases bound, 2, |raws|
  {
    if |raws| == 0 then Ok([])
    else
      var e :- ConvertRaw(table, bound, raws[0]);
      var rest :- ConvertAll(table, bound, raws[1..]);
      Ok([e] + rest)
  }

  /** `convert_token`. A nested group result passes through when it is a list; any
      other nested value (a number or `None`, from a group such as "(5)" holding a
      single operand) reaches `re.match`, which raises. Text matching the function
      pattern is looked up by the name before its first '(' and its argument text is
      split at every ',' and each piece tokenized. Other text is classified: digits
      become an integer, an operator symbol an operator, a float literal a float
      (`float()` raising for text such as "1.5.3"); a lone dot or a function-name
      prefix is an invalid token. */
  function ConvertRaw(table: FunctionTable, bound: nat, raw: Raw): (r: Result<Elem>)
    requires RawOk(raw, bound)
    ensures raw.Nested? ==> r == if raw.e.Group? then Ok(raw.e) else Err(HostCrash)
    ensures raw.Text? && FunctionRegexMatch(raw.t) && FunctionName(raw.t) !in table ==>
              r == Err(InvalidFunction(FunctionName(raw.t)))
    ensures raw.Text? && FunctionRegexMatch(raw.t) && r.Ok? ==>
              r.value.Call? && r.value.name == FunctionName(raw.t) && r.value.name in table
    ensures raw.Text? && FunctionRegexMatch(raw.t) && FunctionName(raw.t) in table ==>
              var args := TokenizeArgs(table, bound, Split(ArgumentText(raw.t), ','));
              (r.Ok? <==> args.Ok?)
              && (args.Ok? ==> r.value == Call(FunctionName(raw.t), args.value))
              && (args.Err? ==> r.error == args.error)
    ensures raw.Text? && !FunctionRegexMatch(raw.t) ==>
              (IsDigits(raw.t) ==> r == Ok(Num(IntN(DigitsValue(raw.t)))))
              && (raw.t in OperatorSymbols ==> r == Ok(Op(raw.t)))
              && (Classify(table.Keys, raw.t).Err? ==> r == Err(InvalidToken(raw.t)))
              && (raw.t == "." ==> r == Err(InvalidToken(raw.t)))
    ensures r.Ok? ==> WellShaped(r.value)
    ensures r.Err? ==> ParseError(r.error)
    decreases bound, 1, 0
  {
    match raw
    case Nested(e) => if e.Group? then Ok(e) else Err(HostCrash)
    case Text(t) =>
      if FunctionRegexMatch(t) then
        var name := FunctionName(t);
        if name !in table then Err(InvalidFunction(name))
        else
          var pieces := Split(ArgumentText(t), ',');
          var args :- TokenizeArgs(table, bound, pieces);
          Ok(Call(name, args))
      else
        var kind :- Classify(table.Keys, t);
        match kind
        case Number => Ok(Num(IntN(DigitsValue(t))))
        case Operator => Ok(Op(t))
        case Float => if IsFloatLiteral(t) then Ok(Num(FloatN)) else Err(HostCrash)
        case _ => Err(InvalidToken(t))
  }

  /** The arguments of a call, each piece tokenized in order. */
  function TokenizeArgs(table: FunctionTable, bound: nat, pieces: seq<string>): (r: Result<seq<Elem>>)
    requires forall j :: 0 <= j < |pieces| ==> |pieces[j]| < bound
    ensures r.Ok? ==> |r.value| == |pieces|
    ensures r.Ok? ==> forall j :: 0 <= j < |r.value| ==> WellShaped(r.value[j])
    ensures r.Err? ==> ParseError(r.error)
    decreases bound, 0, |pieces|
  {
    if |pieces| == 0 then Ok([])
    else
      var e :- Tokenize(table, pieces[0]);
      var rest :- TokenizeArgs(table, bound, pieces[1..]);
      Ok([e] + rest)
  }

  /** `r` collects the results `toks` in order: on success one value per result, each
      that result's value; on failure, the failure of the first one that fails. */
  predicate Collected<T(==)>(toks: seq<Result<T>>, r: Result<seq<T>>) {
    (r.Ok? ==> |r.value| == |toks| && forall j :: 0 <= j < |toks| ==> toks[j] == Ok(r.value[j]))
    && (r.Err? ==> exists j :: 0 <= j < |toks| && toks[j] == Err(r.error)
                             && forall k :: 0 <= k < j ==> toks[k].Ok?)
  }

  /** Each piece tokenized on its own, as a whole expression. */
  function Separately(table: FunctionTable, pieces: seq<string>): (toks: seq<Result<Elem>>)
    ensures |toks| == |pieces|
  {
    seq(|pieces|, j requires 0 <= j < |pieces| => Tokenize(table, pieces[j]))
  }

  /** The arguments of a call are the pieces tokenized separately; a failure is the
      failure of the first piece that fails. */
  lemma {:induction false} TokenizeArgsEach(table: FunctionTable, bound: nat, pieces: seq<string>)
    requires forall j :: 0 <= j < |pieces| ==> |pieces[j]| < bound
    ensures Collected(Separately(table, pieces), TokenizeArgs(table, bound, pieces))
    decreases |pieces|
  {
    if |pieces| > 0 {
      var toks := Separately(table, pieces);
      TokenizeArgsEach(table, bound, pieces[1..]);
      assert Separately(table, pieces[1..]) == toks[1..];
      CollectedCons(toks, TokenizeArgs(table, bound, pieces[1..]));
    }
  }

  lemma CollectedCons<T>(toks: seq<Result<T>>, t: Result<seq<T>>)
    requires |toks| > 0 && Collected(toks[1..], t)
    ensures Collected(toks, if toks[0].Err? then Err(toks[0].error)
                            else if t.Err? then Err(t.error) else Ok([toks[0].value] + t.value))
  {
    if toks[0].Ok? && t.Err? {
      var j :| 0 <= j < |toks| - 1 && toks[1..][j] == Err(t.error)
               && forall k :: 0 <= k < j ==> toks[1..][k].Ok?;
      assert toks[j + 1] == Err(t.error);
      forall k | 0 <= k < j + 1
        ensures toks[k].Ok?
      {
        if k > 0 {
          assert toks[k] == toks[1..][k - 1];
        }
      }
    }
  }
}
