/** Character classes, the lexical classifier `get_token_type`, and the string
    helpers the tokenizer relies on: space removal and `strip()`, the two regular
    expressions, `str.split(",")` and `int()` on digit strings.

    Characters are classified over ASCII: `str.isnumeric` and the `\d`, `\w`
    classes of Python's `re` also accept other Unicode digits and letters, which
    this model does not. */
module Lexical {
  import opened Errors
  import opened Enums
  import opened Operators

  predicate IsDigit(c: char) {
    '0' <= c <= '9'
  }

  /** `str.isnumeric()`: non-empty and made of digits only. */
  predicate IsDigits(s: string) {
    |s| > 0 && forall i :: 0 <= i < |s| ==> IsDigit(s[i])
  }

  /** The `\w` class: letters, digits and underscore. */
  predicate IsWordChar(c: char) {
    IsDigit(c) || ('a' <= c <= 'z') || ('A' <= c <= 'Z') || c == '_'
  }

  /** Length of the longest prefix of s whose characters all satisfy the class. */
  function LeadingDigits(s: string): (k: nat)
    ensures k <= |s|
    ensures forall i :: 0 <= i < k ==> IsDigit(s[i])
    ensures k < |s| ==> !IsDigit(s[k])
  {
    if |s| == 0 || !IsDigit(s[0]) then 0 else 1 + LeadingDigits(s[1..])
  }

  function LeadingWord(s: string): (k: nat)
    ensures k <= |s|
    ensures forall i :: 0 <= i < k ==> IsWordChar(s[i])
    ensures k < |s| ==> !IsWordChar(s[k])
  {
    if |s| == 0 || !IsWordChar(s[0]) then 0 else 1 + LeadingWord(s[1..])
  }

  /** `re.match(r"\d+\.\d+", s)`: s starts with digits, a dot and a digit. */
  predicate FloatPrefix(s: string) {
    var k := LeadingDigits(s);
    1 <= k && k + 1 < |s| && s[k] == '.' && IsDigit(s[k + 1])
  }

  /** `float(s)` succeeds on a digits-and-dots string exactly when it is digits, one
      dot, digits. */
  predicate IsFloatLiteral(s: string) {
    var k := LeadingDigits(s);
    1 <= k < |s| && s[k] == '.' && IsDigits(s[k + 1..])
  }

  /** Some supported function name starts with tok. */
  predicate IsNamePrefix(names: set<string>, tok: string) {
    exists f | f in names :: tok <= f
  }

  /** `get_token_type`: the checks are made in this order, and the first that holds
      decides the kind. */
  function Classify(names: set<string>, tok: string): (r: Result<TokKind>)
    ensures r == Ok(Dot) <==> tok == "."
    ensures r == Ok(Number) <==> IsDigits(tok)
    ensures r == Ok(Operator) <==> tok in OperatorSymbols
    ensures r == Ok(Float) <==> FloatPrefix(tok)
    ensures r == Ok(Function) <==>
              IsNamePrefix(names, tok) && tok != "." && !IsDigits(tok)
              && tok !in OperatorSymbols && !FloatPrefix(tok)
    ensures r.Err? <==>
              !(tok == "." || IsDigits(tok) || tok in OperatorSymbols || FloatPrefix(tok)
                || IsNamePrefix(names, tok))
    ensures r.Err? ==> r.error == InvalidToken(tok)
    ensures r != Ok(Expression)
  {
    ClassesDisjoint(tok);
    if tok == "." then Ok(Dot)
    else if IsDigits(tok) then Ok(Number)
    else if tok in OperatorSymbols then Ok(Operator)
    else if FloatPrefix(tok) then Ok(Float)
    else if IsNamePrefix(names, tok) then Ok(Function)
    else Err(InvalidToken(tok))
  }

  /** The first four classes exclude each other, so the order of those checks
      decides nothing between them. */
  lemma ClassesDisjoint(tok: string)
    ensures tok == "." ==> !IsDigits(tok) && tok !in OperatorSymbols && !FloatPrefix(tok)
    ensures IsDigits(tok) ==> tok !in OperatorSymbols && !FloatPrefix(tok)
    ensures tok in OperatorSymbols ==> !FloatPrefix(tok)
  {
    if tok == "." {
      assert !IsDigit(tok[0]);
    }
    if tok in OperatorSymbols {
      assert !IsDigit(tok[0]);
      assert LeadingDigits(tok) == 0;
    }
  }

  /** The classifier applied to one character. */
  function ClassifyChar(names: set<string>, c: char): Result<TokKind> {
    Classify(names, [c])
  }

  // ----- whitespace -----

  /** The characters `str.isspace()` accepts, which `strip()` removes. */
  predicate IsPyWhitespace(c: char) {
    c == ' ' || ('\t' <= c <= '\r') || ('\U{1c}' <= c <= '\U{1f}') || c == '\U{85}'
    || c == '\U{a0}' || c == '\U{1680}' || ('\U{2000}' <= c <= '\U{200a}')
    || c == '\U{2028}' || c == '\U{2029}' || c == '\U{202f}' || c == '\U{205f}' || c == '\U{3000}'
  }

  /** `s.replace(" ", "")`. */
  function RemoveSpaces(s: string): (r: string)
    ensures |r| <= |s|
    ensures forall i :: 0 <= i < |r| ==> r[i] != ' '
  {
    if |s| == 0 then ""
    else if s[0] == ' ' then RemoveSpaces(s[1..])
    else [s[0]] + RemoveSpaces(s[1..])
  }

  /** Removing spaces leaves a space-free string alone, so doing it twice is doing it once. */
  lemma {:induction false} RemoveSpacesFixesSpaceFree(s: string)
    requires forall i :: 0 <= i < |s| ==> s[i] != ' '
    ensures RemoveSpaces(s) == s
  {
    if |s| > 0 {
      RemoveSpacesFixesSpaceFree(s[1..]);
    }
  }

  lemma RemoveSpacesIdempotent(s: string)
    ensures RemoveSpaces(RemoveSpaces(s)) == RemoveSpaces(s)
  {
    RemoveSpacesFixesSpaceFree(RemoveSpaces(s));
  }

  /** Removing spaces piece by piece. */
  lemma {:induction false} RemoveSpacesConcat(a: string, b: string)
    ensures RemoveSpaces(a + b) == RemoveSpaces(a) + RemoveSpaces(b)
    decreases |a|
  {
    if |a| > 0 {
      assert (a + b)[0] == a[0];
      assert (a + b)[1..] == a[1..] + b;
      RemoveSpacesConcat(a[1..], b);
      if a[0] == ' ' {
        assert RemoveSpaces(a + b) == RemoveSpaces(a[1..] + b);
        assert RemoveSpaces(a) == RemoveSpaces(a[1..]);
      } else {
        assert RemoveSpaces(a + b) == [a[0]] + RemoveSpaces(a[1..] + b);
        assert RemoveSpaces(a) == [a[0]] + RemoveSpaces(a[1..]);
        assert [a[0]] + (RemoveSpaces(a[1..]) + RemoveSpaces(b))
            == ([a[0]] + RemoveSpaces(a[1..])) + RemoveSpaces(b);
      }
    } else {
      assert a + b == b;
    }
  }

  function StripLeft(s: string): (r: string)
    ensures |r| <= |s| && r == s[|s| - |r|..]
    ensures forall i :: 0 <= i < |s| - |r| ==> IsPyWhitespace(s[i])
    ensures |r| > 0 ==> !IsPyWhitespace(r[0])
  {
    if |s| > 0 && IsPyWhitespace(s[0]) then StripLeft(s[1..]) else s
  }

  function StripRight(s: string): (r: string)
    ensures |r| <= |s| && r == s[..|r|]
    ensures forall i :: |r| <= i < |s| ==> IsPyWhitespace(s[i])
    ensures |r| > 0 ==> !IsPyWhitespace(r[|r| - 1])
  {
    if |s| > 0 && IsPyWhitespace(s[|s| - 1]) then StripRight(s[..|s| - 1]) else s
  }

  /** `s.strip()`: no whitespace left at either end, and a string that has none
      there is returned unchanged. */
  function Strip(s: string): (r: string)
    ensures |r| <= |s|
    ensures |r| > 0 ==> !IsPyWhitespace(r[0]) && !IsPyWhitespace(r[|r| - 1])
    ensures (|s| == 0 || (!IsPyWhitespace(s[0]) && !IsPyWhitespace(s[|s| - 1]))) ==> r == s
  {
    StripRight(StripLeft(s))
  }

  /** The tokenizer's first line: `expr.replace(" ", "").strip()`. */
  function Normalize(s: string): (r: string)
    ensures |r| <= |s|
  {
    Strip(RemoveSpaces(s))
  }

  /** A string without spaces and without whitespace at its ends is already normal. */
  lemma {:induction false} NormalizeFixes(s: string)
    requires forall i :: 0 <= i < |s| ==> s[i] != ' '
    requires |s| > 0 ==> !IsPyWhitespace(s[0]) && !IsPyWhitespace(s[|s| - 1])
    ensures Normalize(s) == s
  {
    RemoveSpacesFixesSpaceFree(s);
  }

  /** Normalising ignores spaces: removing them first changes nothing. */
  lemma NormalizeIgnoresSpaces(s: string)
    ensures Normalize(RemoveSpaces(s)) == Normalize(s)
  {
    RemoveSpacesIdempotent(s);
  }

  // ----- function-call tokens -----

  /** `re.match(r"\w{2,10}\(.+\)", t)`: 2 to 10 word characters, '(' right after
      them, then at least one character other than a newline before some ')'. */
  predicate FunctionRegexMatch(t: string) {
    var k := LeadingWord(t);
    2 <= k <= 10 && k < |t| && t[k] == '('
    && exists j | k + 2 <= j < |t| :: t[j] == ')' && forall m | k < m < j :: t[m] != '\n'
  }

  /** `t.split("(", 1)[0]` for a function-call token: the word before the first '('. */
  function FunctionName(t: string): (name: string)
    requires FunctionRegexMatch(t)
    ensures 2 <= |name| < |t| && t[..|name|] == name && t[|name|] == '('
    ensures forall i :: 0 <= i < |name| ==> name[i] != '('
  {
    t[..LeadingWord(t)]
  }

  /** `t.replace(name, "", 1)[1:-1]`: the text between the '(' after the name and the
      token's last character. */
  function ArgumentText(t: string): (a: string)
    requires FunctionRegexMatch(t)
    ensures |a| < |t|
    ensures t == FunctionName(t) + "(" + a + [t[|t| - 1]]
  {
    var k := LeadingWord(t);
    assert t == t[..k] + "(" + t[k + 1..|t| - 1] + [t[|t| - 1]];
    t[k + 1..|t| - 1]
  }

  // ----- str.split(",") -----

  /** `s.split(sep)`: the maximal pieces between separators, at least one. */
  function Split(s: string, sep: char): (pieces: seq<string>)
    ensures |pieces| >= 1
    ensures forall i :: 0 <= i < |pieces| ==> |pieces[i]| <= |s| && sep !in pieces[i]
  {
    if |s| == 0 then [""]
    else
      var rest := Split(s[1..], sep);
      if s[0] == sep then [""] + rest
      else [[s[0]] + rest[0]] + rest[1..]
  }

  /** `sep.join(pieces)`. */
  function Join(pieces: seq<string>, sep: char): string
    requires |pieces| >= 1
  {
    if |pieces| == 1 then pieces[0] else pieces[0] + [sep] + Join(pieces[1..], sep)
  }

  /** Splitting loses nothing: joining the pieces back gives the original text. */
  lemma {:induction false} JoinSplit(s: string, sep: char)
    ensures Join(Split(s, sep), sep) == s
  {
    if |s| > 0 {
      JoinSplit(s[1..], sep);
      var rest := Split(s[1..], sep);
      if s[0] != sep && |rest| > 1 {
        assert Join(rest, sep) == rest[0] + [sep] + Join(rest[1..], sep);
        assert Join(Split(s, sep), sep) == [s[0]] + rest[0] + [sep] + Join(rest[1..], sep);
      }
    }
  }

  /** Pieces that hold no separator come back unchanged from a join and a split. */
  lemma {:induction false} SplitJoin(pieces: seq<string>, sep: char)
    requires |pieces| >= 1
    requires forall i :: 0 <= i < |pieces| ==> sep !in pieces[i]
    ensures Split(Join(pieces, sep), sep) == pieces
    decreases |pieces|, |pieces[0]|
  {
    var p := pieces[0];
    if |pieces| == 1 {
      SplitOfSeparatorFree(p, sep);
    } else if |p| == 0 {
      SplitJoin(pieces[1..], sep);
      assert Join(pieces, sep) == [sep] + Join(pieces[1..], sep);
      assert Join(pieces, sep)[1..] == Join(pieces[1..], sep);
    } else {
      var shorter := [p[1..]] + pieces[1..];
      assert sep !in p[1..] && p[0] != sep;
      SplitJoin(shorter, sep);
      assert [p[0]] + p[1..] == p;
      assert Join(pieces, sep) == [p[0]] + Join(shorter, sep);
      assert Join(pieces, sep)[1..] == Join(shorter, sep);
    }
  }

  lemma {:induction false} SplitOfSeparatorFree(s: string, sep: char)
    requires sep !in s
    ensures Split(s, sep) == [s]
  {
    if |s| > 0 {
      SplitOfSeparatorFree(s[1..], sep);
      assert [s[0]] + s[1..] == s;
    }
  }

  // ----- int() on digit strings -----

  function DigitValue(c: char): nat
    requires IsDigit(c)
  {
    (c as int) - ('0' as int)
  }

  /** `int(s)` for a string of decimal digits (leading zeros allowed). */
  function DigitsValue(s: string): nat
    requires forall i :: 0 <= i < |s| ==> IsDigit(s[i])
  {
    if |s| == 0 then 0 else 10 * DigitsValue(s[..|s| - 1]) + DigitValue(s[|s| - 1])
  }

  /** The canonical decimal spelling of a natural number, as `str(n)` gives it. */
  function Decimal(n: nat): (s: string)
    ensures IsDigits(s)
  {
    if n < 10 then [('0' as int + n) as char] else Decimal(n / 10) + [('0' as int + n % 10) as char]
  }

  /** `int(str(n)) == n`. */
  lemma {:induction false} DigitsValueDecimal(n: nat)
    ensures DigitsValue(Decimal(n)) == n
  {
    if n >= 10 {
      DigitsValueDecimal(n / 10);
      var s := Decimal(n);
      assert s[..|s| - 1] == Decimal(n / 10);
    }
  }
}
