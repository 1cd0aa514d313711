# strmath in Dafny

strmath evaluates arithmetic text such as `"2 + 3 * (4 - 1) ** 2"` without Python's
`eval`. It works in four stages:

1. **Lexical classifier.** `get_token_type` decides what kind of token a piece of text
   is: a dot, a number, an operator, a float, or a prefix of a supported function name.
2. **Tokenizer.** `tokenize` removes spaces and strips the text. It then makes one
   left-to-right pass over the characters. The pass keeps:
   - the pending text and its kind;
   - the brace depth;
   - three flags: gathering a group, gathering a function, gathering its arguments.

   A parenthesised group is tokenized recursively once it closes. A function call is
   gathered verbatim. At the end, every piece of text is converted (`convert_token`)
   and the flat list goes to the precedence resolver.
3. **Precedence resolver.** `apply_order` splits a list into `[left, op, right]`. It
   splits at the rightmost `+`/`-`, else at the rightmost `*` `/` `//` `%`, else at
   the leftmost `**`. Both sides are resolved recursively.
4. **Tree builder and evaluator.** `build_evaluation_tree` turns the nested lists into
   `EvaluationTreeNode`s. Function calls are evaluated while the tree is built.
   `EvaluationTreeNode.evaluate` evaluates both subtrees, then applies the operator
   (`Operator.evaluate`).

`evaluate(expr)` runs the four stages in order.

The model follows the code. Each Python exception is an `Err` outcome of a `Result`.
The supported functions are a table passed as a parameter. Integers are exact.
A float is an opaque value that flows through evaluation. A float divisor or a float in a power
gives the opaque outcome `FloatArithmetic`, because there the outcome depends on the float's value.

The code disagrees with its documentation in one place. The docstring of `evaluate`
(`src/strmath/__init__.py:21`) says `"(2 += 3) * 60"` raises `InvalidOperator`.
The code raises `InvalidToken("=")` instead: the group's inner text is tokenized, and
`=` is neither a digit, an operator, a dot nor a function letter.
`ErrorExamples.Assignment` proves the code's behaviour.

A note on the data model:

- `src/strmath/errors.py` defines no `IncompleteFunction` or `InvalidFunction`.
- `src/strmath/enums.py` has no `FUNCTION` member.
- The tokenizer and the evaluator use all three.

The model adds them (`Errors.Error`, `Enums.TokKind`).

Modules, in pipeline order:

| module | file | contents |
|---|---|---|
| `Errors`, `Enums`, `Types` | errors.dfy, enums.dfy, types.dfy | the error kinds with the `Result` type, the token kinds, and the tokenized elements |
| `Operators` | operators.dfy | Python's floor division, modulo and power on integers; `Operator.evaluate` |
| `Lexical` | lexical.dfy | the character classes, `get_token_type`, whitespace removal, the function-call regex, the argument split, and decimal digits |
| `Precedence` | precedence.dfy | `apply_order`, both as a terminating model and as a literal transliteration with fuel |
| `Tokenization` | tokenization.dfy | the tokenizer's state machine, `convert_token` and `tokenize` |
| `TokenizerFacts` | tokenizer_facts.dfy | what one step of the tokenizer does in each situation |
| `Evaluation` | evaluation.dfy | `build_evaluation_tree`, `EvaluationTreeNode.evaluate`, `Function.evaluate` |
| `Reference` | reference.dfy | an independent value of an operator chain by Python's precedence, and its agreement with resolver, builder and evaluator |
| `Rendering` | rendering.dfy | expressions of numbers and operators written out as text, and what the tokenizer makes of them |
| `StrMath` | strmath.dfy | `evaluate` and its end-to-end theorems |
| `Grouping` | grouping.dfy | expressions whose operands may be parenthesised groups, as the test generator writes them, and their value |
| `Calls` | calls.dfy | function calls written out as text, and what `evaluate` makes of them |
| `Examples`, `ErrorExamples` | examples.dfy, error_examples.dfy | the documented examples and error cases, derived from the general theorems |

## Model

| member | source | states |
|---|---|---|
| Operators.FloorDiv | src/strmath/operators.py:30-31 | Python's `a // b` rounds toward negative infinity. For a positive divisor, `b*q <= a < b*q + b`; for a negative divisor, the mirror image. |
| Operators.FloorMod | src/strmath/operators.py:26-27 | Python's `a % b` satisfies `a == b*(a//b) + r`. The remainder has the divisor's sign and is smaller than the divisor in magnitude. |
| Operators.FloorDivModUnique | src/strmath/operators.py:26-31 | Any `q`, `r` that satisfy the division identity, with `r` in the divisor's range, are exactly `a // b` and `a % b`. This links the two definitions to their characterisation. |
| Operators.PowAdd | src/strmath/operators.py:28-29 | The integer power with a non-negative exponent satisfies `a**(m+n) == a**m * a**n`. |
| Operators.Apply | src/strmath/operators.py:16-32 | `Operator.evaluate`:<br>- an unknown symbol gives `InvalidOperator`, and only an unknown symbol does;<br>- `+ - *` are exact on integers and give a float when a float takes part;<br>- a zero divisor of `/ // %` gives `ZeroDivisionError`;<br>- a non-zero `/` gives a float;<br>- `//` and `%` floor as above;<br>- `**` with a non-negative exponent is the integer power;<br>- a negative exponent gives `ZeroDivisionError` on base 0 and a float otherwise;<br>- a float dividend with an integer divisor gives a float or `ZeroDivisionError`, like an integer one;<br>- a float divisor or a float in a power gives `FloatArithmetic`, because there the outcome depends on the float's value;<br>- an integer is taken to convert to a float without overflow (see Left out). |
| Lexical.Classify | src/strmath/tokenization.py:36-48 | `get_token_type` returns each kind exactly when its check holds and no earlier check does: dot, all digits, operator symbol, `\d+\.\d+` prefix, function-name prefix. It raises `InvalidToken(token)` exactly when no check holds. It never returns `EXPRESSION`. |
| Lexical.ClassesDisjoint | src/strmath/tokenization.py:37-44 | The dot, number, operator and float checks never overlap. Only the function-prefix check is shadowed by the order. |
| Lexical.RemoveSpaces | src/strmath/tokenization.py:81 | `replace(" ", "")` leaves no space and never lengthens the text. |
| Lexical.RemoveSpacesFixesSpaceFree | src/strmath/tokenization.py:81 | A text without spaces is unchanged by the replace. |
| Lexical.RemoveSpacesIdempotent | src/strmath/tokenization.py:81 | Removing spaces twice is the same as removing them once. |
| Lexical.Strip | src/strmath/tokenization.py:81 | `strip()` leaves a text that neither starts nor ends with whitespace. A text that already does neither is unchanged. |
| Lexical.NormalizeFixes | src/strmath/tokenization.py:81 | The tokenizer's clean-up leaves a space-free, stripped text as it is. |
| Lexical.NormalizeIgnoresSpaces | src/strmath/tokenization.py:81 | Removing spaces first makes no difference to the clean-up. |
| Lexical.FunctionName | src/strmath/tokenization.py:54-55 | The name of a call token is the non-empty word before its first `(`. That word is a prefix of the token and contains no `(`. |
| Lexical.ArgumentText | src/strmath/tokenization.py:60 | The token is the name, then `(`, then the argument text, then one final character. So the argument text is exactly what the call encloses. |
| Lexical.Split | src/strmath/tokenization.py:60 | `split(",")` gives at least one piece, and no piece contains a comma. |
| Lexical.JoinSplit | src/strmath/tokenization.py:60 | Joining the pieces of `split(",")` with commas gives back the argument text. |
| Lexical.SplitJoin | src/strmath/tokenization.py:60 | Splitting a comma-join of comma-free pieces gives back the pieces. |
| Lexical.SplitOfSeparatorFree | src/strmath/tokenization.py:60 | An argument text without commas is a single argument. |
| Lexical.DigitsValueDecimal | src/strmath/tokenization.py:64-65 | `int(str(n)) == n`: the decimal digits of a natural number read back as that number. |
| Precedence.Rightmost | src/strmath/tokenization.py:169-171 | The scan from the end finds an operator of the tier that has no operator of the tier after it. It finds nothing exactly when the tier is absent. |
| Precedence.Leftmost | src/strmath/tokenization.py:173-175 | The scan from the start finds an operator of the tier that has no operator of the tier before it. It finds nothing exactly when the tier is absent. |
| Precedence.SplitPointSpec | src/strmath/tokenization.py:167-175 | The split is made:<br>- at the rightmost `+`/`-` if there is one;<br>- otherwise at the rightmost `*` `/` `//` `%`;<br>- otherwise at the leftmost `**`.<br>No split is made exactly when the list holds no operator. |
| Precedence.ApplyOrder | src/strmath/tokenization.py:162-175 | The resolver's only failure is a host crash. That is the endless recursion on a list that ends in a left-associative operator. |
| Precedence.ModelStepOk | src/strmath/tokenization.py:167-175 | A list that is split becomes `[resolved left, op, resolved right]`. Here `left ++ [op] ++ right` is the input, cut at the split point. |
| Precedence.ApplyOrderFuelReturns | src/strmath/tokenization.py:162-175 | The literal transliteration, including the `expr[-0:]` slice, returns the same value as the model whenever the model returns. It needs one more call than the list is long. |
| Precedence.ApplyOrderFuelDiverges | src/strmath/tokenization.py:171 | Whenever the model reports the crash, the literal transliteration runs out of any fuel. For example, `"2+3+"` recurses without end. |
| Precedence.ApplyOrderWellShaped | src/strmath/tokenization.py:162-175 | The resolver introduces only three-element lists, so each well-shaped list resolves to a well-shaped element. |
| Precedence.ApplyOrderFlatten | src/strmath/tokenization.py:162-175 | An alternating list of operands and operators always resolves. Taking the result apart gives back the input: the resolver only adds grouping and never reorders or drops an element. |
| Tokenization.Braces | src/strmath/tokenization.py:90-101 | `(` and `)` move the depth by one, and any other character leaves the state alone. An opening brace outside groups and functions starts a group and emits the pending text. An opening brace inside a function marks its arguments. |
| Tokenization.Classified | src/strmath/tokenization.py:122-151 | The top-level branch:<br>- the character's own `InvalidToken`;<br>- `UnexpectedToken(pending + c)` in exactly the three out-of-place positions;<br>- otherwise the character merges with the pending text, or the pending text is validated and emitted and `c` starts new pending text;<br>- validation failure is `InvalidToken(pending)`. |
| Tokenization.Step | src/strmath/tokenization.py:89-151 | One character of the pass. Every failure is a parse error, and the pending text never outgrows the characters read. |
| Tokenization.Finish | src/strmath/tokenization.py:153-158 | At the end of input:<br>- an unfinished function gives `IncompleteFunction(pending)`, and only then;<br>- otherwise leftover depth gives `BracesMismatch`, and only then;<br>- otherwise the output is the emitted pieces plus the pending text when it is non-empty. |
| Tokenization.ConvertRaw | src/strmath/tokenization.py:51-70 | `convert_token`:<br>- a group is kept, and a non-list group result crashes the host;<br>- a call token with an unknown name gives `InvalidFunction(name)`, and a known one becomes a call whose arguments are exactly the tokenized comma pieces of its argument text, or fails with their error;<br>- digits become their integer and operator symbols become operators;<br>- unclassifiable text and a lone `.` give `InvalidToken`. |
| Tokenization.ConvertAll | src/strmath/tokenization.py:159 | Converting the list succeeds exactly when every piece converts, and then yields each piece's conversion in order. A failure is the failure of the first piece that fails: every piece before it converts. |
| Tokenization.TokenizeArgsEach | src/strmath/tokenization.py:60-61 | The arguments of a call are the comma pieces, each tokenized on its own as a whole expression. On failure, the error is that of the first piece that fails. |
| Tokenization.Tokenize | src/strmath/tokenization.py:80-159 | `tokenize` returns an element of the resolver's shape or fails with a parse error. It never fails with an operator or arithmetic error. |
| TokenizerFacts.StepDot | src/strmath/tokenization.py:122-136 | A `.` at top level is rejected exactly when the pending text is not a number. The error is `UnexpectedToken(pending + ".")`. |
| TokenizerFacts.StepAfterGroup | src/strmath/tokenization.py:123-136 | After a closed group, an operator character starts new pending text. Any other valid character is `UnexpectedToken`. |
| TokenizerFacts.StepFunctionAfterOperand | src/strmath/tokenization.py:129-150 | A function letter is accepted at the start and switches to gathering the function. After a number, dot, float or group it is `UnexpectedToken`. |
| TokenizerFacts.StepCloseUnderflow | src/strmath/tokenization.py:100-120 | A `)` at depth 0, outside a function, raises `BracesMismatch`. |
| TokenizerFacts.StepGroupClose | src/strmath/tokenization.py:103-107 | Closing a top-level group replaces its text by exactly one element: the recursive tokenization of its inner text. The inner text's error propagates. |
| TokenizerFacts.StepInsideGroup | src/strmath/tokenization.py:116-118 | Inside an open group, any character other than a brace is appended verbatim. |
| TokenizerFacts.StepInsideFunction | src/strmath/tokenization.py:116-118 | While a function is being gathered, characters are appended verbatim. Only the first letter of a name is ever classified. |
| TokenizerFacts.StepFunctionClose | src/strmath/tokenization.py:109-114 | The `)` that closes a call's arguments emits the gathered call text, including that brace, and leaves function mode. |
| TokenizerFacts.StepOperatorRun | src/strmath/tokenization.py:137-143 | Adjacent operator characters merge into one pending text. |
| TokenizerFacts.StepFlushValidates | src/strmath/tokenization.py:144-148 | When the kind changes, the pending text is validated as a whole (`InvalidToken` for runs such as `+*`) and then emitted. |
| TokenizerFacts.TokenizeDigits | src/strmath/tokenization.py:80-164 | A digit string tokenizes to its integer value. |
| Evaluation.Build | src/strmath/evaluation.py:47-77 | `build_evaluation_tree`:<br>- a number is a leaf;<br>- a function call is evaluated now, and its value is the leaf; its failure is the result;<br>- a one-element list is its element;<br>- a triple is a node of the built first element, the middle element as it is, and the built third element; the first element's failure comes first;<br>- an operator or `None` crashes the host;<br>- a tokenizer-shaped input never fails with `InvalidOperator`. |
| Evaluation.BuildList | src/strmath/evaluation.py:64-77 | An empty list crashes, and a one-element list is its element. A list of two or more is a node: the built first element, the second element as it is, and the built rest (the third element of a triple, else the list from the third element on). The first element's failure is reported first, then the rest's. |
| Evaluation.CallFunction | src/strmath/evaluation.py:20-30 | `Function.evaluate`:<br>- the arguments are evaluated first, in order, and their failure propagates;<br>- an unknown name gives `InvalidFunction(name)`;<br>- then the function is called on the argument values as they are, `None` included, with no check of its own;<br>- its `TypeError` gives `InvalidFunction(name)`, its `ZeroDivisionError` passes through, any other exception crashes the host;<br>- a success is exactly the number it returns. |
| Evaluation.EvalArgs | src/strmath/evaluation.py:21-26 | Arguments are evaluated in order. A success holds each argument's value. A failure is the failure of the first argument that fails. |
| Evaluation.EvalArg | src/strmath/evaluation.py:23-26 | A number, operator or `None` argument is passed as it is. A list argument is built and evaluated: its value when it builds to a node, its build or evaluation error otherwise, and a crash when it builds to a bare number. A nested function call ends in `.evaluate()` on a number and crashes the host. |
| Evaluation.EvalTree | src/strmath/evaluation.py:39-44 | `EvaluationTreeNode.evaluate`: a leaf is its number. The left subtree is evaluated before the right one, and the first failure is the one reported. A tokenizer-shaped tree never fails with `InvalidOperator`. |
| Evaluation.EvalInPlace | src/strmath/evaluation.py:39-44 | The in-place version, which overwrites each evaluated subtree by its value, returns the same result. The tree it leaves behind evaluates to the same value. |
| Reference.ResolverAgrees | src/strmath/tokenization.py:162-175 | For every alternating list of numbers and operators, resolving, building and evaluating gives the independently defined value. That value is:<br>- a left fold over `+ -` of left folds over `* / // %`;<br>- of right-nested `**` chains. |
| Reference.ValueAtSplit | src/strmath/tokenization.py:167-175 | The reference value splits at the resolver's chosen operator, which justifies one resolver step. |
| Reference.AgreesOnTriple | src/strmath/evaluation.py:66-71 | A three-element list is resolved as it is, and its tree evaluates to the reference value. |
| Rendering.ScanRender | src/strmath/tokenization.py:89-151 | The pass over an expression written as numbers and operators without spaces ends with:<br>- every number and operator emitted in order;<br>- the last number pending;<br>- no error. |
| Rendering.TokenizeRenderElems | src/strmath/tokenization.py:80-159 | Tokenizing such a text gives the resolver's result on the list of its numbers and operators. |
| StrMath.Evaluate | src/strmath/__init__.py:10-29 | `evaluate` reports the tokenizer's error first. A success is the tree's value. It never reports `InvalidOperator`, because only the seven symbols get past the tokenizer. |
| StrMath.EvaluateIgnoresSpaces | src/strmath/tokenization.py:81 | Spaces anywhere in the text do not change the result. |
| StrMath.EvaluateDigits | src/strmath/__init__.py:26-29 | A digit string evaluates to the integer it spells. |
| StrMath.EvaluateDecimal | src/strmath/__init__.py:26-29 | `evaluate(str(n)) == n` for every natural number `n`. |
| StrMath.EvaluateRendered | tests/test_expressions.py:26-32 | An expression of natural numbers and the seven operators, without parentheses, evaluates to its value by Python's precedence and associativity. Errors match too, including the first `ZeroDivisionError`, also after a float intermediate. |
| StrMath.EvaluateSpaced | tests/test_expressions.py:26-32 | The same holds with spaces around the operators, as the generator writes them. |
| Grouping.ResolvedGroup | src/strmath/tokenization.py:103-107 | The inside of a group, two or more operators long, tokenizes to the resolver's triple for it. That triple builds, and its tree evaluates to the reference value of the inside. |
| Grouping.ScanJoined | src/strmath/tokenization.py:89-151 | Reading operands joined by operators, where each operand is a number or a parenthesised group: every operand and operator is emitted in order, each group as its inner tokenization, and only a final number is left pending. |
| Grouping.TokenizeGrouped | src/strmath/tokenization.py:80-159 | Tokenizing such a text gives the resolver's result on the list of its operands (each group already resolved) and operators. |
| Grouping.GroupedStandsFor | src/strmath/tokenization.py:103-107 | Each resolved group in that list builds to a tree whose value is the reference value of the group's inside. |
| Grouping.EvaluateGrouped | tests/test_expressions.py:26-44 | An expression whose operands are numbers and parenthesised expressions of numbers evaluates by Python's rules: each group is one operand with the value of its inside. |
| Grouping.EvaluateGroupedSpaced | tests/test_expressions.py:26-44 | The same with spaces anywhere. This covers every expression the test generator writes with its default complexity. |
| Reference.ResolverAgreesWith | src/strmath/tokenization.py:162-175 | An alternating list whose operands stand for reference operands (numbers, or groups whose tree has the group's value) resolves, builds and evaluates to the reference value. |
| TokenizerFacts.ScanGroup | src/strmath/tokenization.py:90-118 | A parenthesised text with no parentheses inside, read at top level: the pending text is emitted, and at the `)` the inside is tokenized on its own. Its error is the result, or its list is emitted as one element. |
| Calls.EvaluateCall | src/strmath/evaluation.py:20-30 | `evaluate` on a call of a supported function, with digit or empty arguments, is what the function replies to their values: its number, its `TypeError` as `InvalidFunction`, its `ZeroDivisionError` as it is, anything else as a crash. |
| Calls.RoundTrailingComma | src/strmath/evaluation.py:27-30 | `"round(7,)"` calls `round(7, None)` and gives whatever `round` gives for it. |
| Lexical.RemoveSpacesConcat | src/strmath/tokenization.py:81 | Removing spaces from two texts joined is removing them from each and joining the results. |
| Examples.MultiplicationFirst | src/strmath/tokenization.py:30 | `"2 + 3 * 4"` evaluates to 14. |
| Examples.PowerRightAssociative | src/strmath/tokenization.py:173-175 | `"2 ** 3 ** 2"` evaluates to 512, that is `2 ** (3 ** 2)`. |
| Examples.SubtractionLeftAssociative | src/strmath/tokenization.py:169-171 | `"9 - 3 - 4"` evaluates to 2, that is `(9 - 3) - 4`. |
| Examples.FloorDivisionAndRemainder | src/strmath/operators.py:26-31 | `"10 // 3"` is 3 and `"10 % 3"` is 1. |
| Examples.DivisionByZeroReported | src/strmath/operators.py:22-23 | `"2 / 0"` raises `ZeroDivisionError`. |
| Examples.GroupFirst | tests/test_expressions.py:35-40 | `"(2 + 3) * 4"` evaluates to 20: a group is one operand. |
| Examples.FloatThenDivisionByZero | src/strmath/evaluation.py:39-44 | `"1 / 2 + 1 // 0"` raises `ZeroDivisionError`: the float `0.5` does not stop the evaluation of the right side. |
| ErrorExamples.GroupThenDot | src/strmath/__init__.py:18 | `"(2 + 3) .3"` raises `UnexpectedToken(".")`, as documented. |
| ErrorExamples.GroupThenDotScanGeneral | src/strmath/tokenization.py:123-136 | Any parenthesised number-and-operator expression followed by a `.` fails with `UnexpectedToken(".")` at the dot. |
| ErrorExamples.Assignment | src/strmath/__init__.py:21 | `"(2 += 3) * 60"` raises `InvalidToken("=")` from inside the group. The docstring names a different error. |
| ErrorExamples.GroupFails | src/strmath/tokenization.py:103-107 | A group whose inner text fails to tokenize makes the whole pass fail with that error. |
| ErrorExamples.DoubleOperator | src/strmath/tokenization.py:145-147 | `"2 +* 3"` raises `InvalidToken("+*")`: the merged operator run is rejected when flushed. |
| ErrorExamples.OperatorPairScan | src/strmath/tokenization.py:137-147 | Between two digits, any two operator characters that do not form a symbol are rejected together. |
| ErrorExamples.UnclosedGroup | src/strmath/tokenization.py:155-156 | `"(2 + 3"` raises `BracesMismatch` at the end of input. |
| ErrorExamples.ScanFails | src/strmath/__init__.py:26 | A failure of the character pass is the result of `evaluate`. |

## Left out

- Floating point: a float is the opaque value `FloatN`, which flows through evaluation like any number. No float value is computed, because IEEE arithmetic is out of scope. Where the outcome depends on the float's value (a float divisor that may be `0.0`, a power with a float in it) the model reports `FloatArithmetic` and stops.
- Operators.Apply: `OverflowError` from a float power, and the value-dependent float outcomes above, are not told apart; all are `FloatArithmetic`.
- Operators.Apply: converting an integer to a float raises `OverflowError` in Python once the integer is 2**1024 or more in magnitude. That happens in `/` on two integers, in a negative power, and in `+ - * / // %` with a float on one side (`10**400/1`, `(10**400)**(0-1)`, `1/2+10**400`). The model gives `Ok(FloatN)` there, because `FloatN` carries no magnitude to test.
- Function values: `math` functions, `abs`, `int`, `float`, `round` and `pow` are found by reflection in Python. Here they are a table parameter: each entry is the function's reply to every list of argument values.
- Evaluation.CallFunction: a reply is a number or an exception. Functions that return something else, such as the tuples of `math.frexp` and `math.modf`, are not modelled, because the tree evaluator only combines numbers.
- ErrorExamples.DoubleOperator, ErrorExamples.DoubleOperatorScan, ErrorExamples.Assignment, ErrorExamples.AssignmentScan, ErrorExamples.InnerAssignment and ErrorExamples.InnerAssignmentScan (and their helper ErrorExamples.NotNamePrefix): assume that every supported name is a word (`WordNames`), as the `math` names are. Without that assumption, `=` or `+*` could be the prefix of some name.
- Exception messages and class hierarchy: only the error kind and the offending token are kept. `TypeError`, `AttributeError`, `IndexError`, `ValueError` and `RecursionError` that escape the library are one outcome, `HostCrash`.
- StrMath.EvaluateDigits: Python 3.11 and later refuse by default to convert a string of more than 4300 digits with `int()` (a `ValueError` in `src/strmath/tokenization.py:65`, which escapes as a crash). The model reads digit strings of every length.
- StrMath.EvaluateDecimal: holds for every natural number here; under the default 4300-digit limit of Python 3.11 and later it holds only for numbers of at most 4300 digits.
- Lexical.DigitsValueDecimal: the same 4300-digit limit of `int()` is not modelled.
- Lexical.IsDigits: `str.isnumeric()` and `\d`/`\w` are modelled for ASCII only. Other Unicode digits and letters are classified as invalid.
- The recursion limit: the terminating model reports the endless `apply_order` recursion as `HostCrash`. The literal transliteration carries fuel. Deep but finite recursion that Python would stop is not modelled.
- `__str__` and `__repr__` of `Function`, `Operator` and `EvaluationTreeNode`: display only.
- The benchmark in `tests/test_expressions.py`: comparisons with other libraries, timing and printing.
- Grouping.EvaluateGroupedSpaced: covers one level of parentheses, with at least one operator inside each group. That is what the generator writes at its default complexity 3. Groups inside groups (complexity 4 or more) and a group around a lone number are not covered.
- Evaluation.EvalArg: a nested function call as an argument crashes the host in the code. The model proves that it fails, but does not prove its value beyond that.
- `validate_token` re-raises what `get_token_type` raises. It is modelled by calling `Classify` directly.
- Line 153 of `src/strmath/tokenization.py` tests `gathering_func` twice. An unfinished group still ends in `BracesMismatch` through the depth check, and the model keeps that behaviour.
- `types.py`, which defines `Number`, `Operator` and `Tokenized`, is not part of this model. Those types are `Types.Elem` and `Operators.Number`.
