/** The values that flow between the tokenizer, the precedence resolver and the tree
    builder (the package's `Tokenized` structure), and the abstract table of
    supported functions. */
module Types {
  import opened Operators

  /** One element of a tokenized expression.
      - `Num`: an `int` or `float` converted from a literal;
      - `Op`: an `Operator` wrapping its symbol;
      - `Call`: a `Function` with the name it was looked up by and its argument
        expressions, each already tokenized;
      - `Group`: a Python list, that is a parenthesised group or a split made by the
        precedence resolver;
      - `Nothing`: Python's `None`, which the resolver returns when it finds no way to
        split a list. */
  datatype Elem =
    | Num(n: Number)
    | Op(sym: string)
    | Call(name: string, args: seq<Elem>)
    | Group(items: seq<Elem>)
    | Nothing

  /** A value passed to a supported function: a number, Python's `None` (the value of
      an empty argument such as the one after the comma in "round(7,)"), or an
      `Operator` object (an argument that is a bare operator symbol). */
  datatype ArgValue = NumArg(n: Number) | NoneArg | OperatorArg(sym: string)

  /** What calling a supported function does: it returns a number, or raises
      `TypeError` (wrong argument count or kind), `ZeroDivisionError`, or another
      exception (`ValueError` for a math domain error, `OverflowError`). */
  datatype Reply = Returned(v: Number) | RaisedTypeError | RaisedZeroDivision | RaisedOther

  /** A supported function: its behaviour on every argument list. */
  datatype MathFn = MathFn(apply: seq<ArgValue> -> Reply)

  /** Supported functions by name (the `math` builtins plus abs, int, float, round and pow). */
  type FunctionTable = map<string, MathFn>

  /** The shape every tokenizer result has: operators carry one of the seven symbols,
      and every list is a triple. */
  ghost predicate WellShaped(e: Elem) {
    match e
    case Op(sym) => sym in OperatorSymbols
    case Group(xs) => |xs| == 3 && forall i :: 0 <= i < |xs| ==> WellShaped(xs[i])
    case Call(_, args) => forall i :: 0 <= i < |args| ==> WellShaped(args[i])
    case Num(_) => true
    case Nothing => true
  }
}
