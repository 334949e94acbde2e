/** The values the evaluator produces. */
module Values {
  import opened JsNumbers

  datatype RuntimeVal = NullVal | NumberVal(n: JsNumber) | BoolVal(b: bool)

  /** The `type` tag every runtime value carries. */
  datatype ValueType = NullType | NumberType | BooleanType

  function TypeOf(v: RuntimeVal): ValueType {
    match v
    case NullVal => NullType
    case NumberVal(_) => NumberType
    case BoolVal(_) => BooleanType
  }
}
