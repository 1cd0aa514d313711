/** Token kinds the tokenizer assigns to characters and accumulated text.
    `Function` has no member in the enumeration as shipped, although the tokenizer
    uses it; it is added here. */
module Enums {

  datatype TokKind = Number | Operator | Expression | Dot | Float | Function
}
