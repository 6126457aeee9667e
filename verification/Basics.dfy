/** Values shared by every module: options, IEEE-style doubles, protobuf values and status codes. */
module Basics {
  datatype Option<+T> = None | Some(value: T) {
    function GetOr(default: T): T {
      match this
      case Some(v) => v
      case None => default
    }
  }

  /** A C++ double up to rounding: finite values are exact reals, the special values are explicit. */
  datatype Double = Finite(r: real) | NaN | PosInf | NegInf {
    /** The C++ operator <, which is false whenever an operand is NaN. */
    predicate Less(other: Double) {
      match (this, other)
      case (Finite(a), Finite(b)) => a < b
      case (NaN, _) => false
      case (_, NaN) => false
      case (NegInf, o) => o != NegInf
      case (_, PosInf) => this != PosInf
      case (_, _) => false
    }
  }

  /** A protobuf `Value`; `OtherValue` stands for every type the device code never accepts. */
  datatype Value =
    | DoubleValue(d: Double)
    | Int64Value(i: int)
    | BoolValue(b: bool)
    | StringValue(s: string)
    | OtherValue

  type Args = map<string, Value>

  function ArgBool(args: Args, key: string): Option<bool> {
    if key in args && args[key].BoolValue? then Some(args[key].b) else None
  }

  function ArgInt64(args: Args, key: string): Option<int> {
    if key in args && args[key].Int64Value? then Some(args[key].i) else None
  }

  function ArgDouble(args: Args, key: string): Option<Double> {
    if key in args && args[key].DoubleValue? then Some(args[key].d) else None
  }

  function ArgString(args: Args, key: string): Option<string> {
    if key in args && args[key].StringValue? then Some(args[key].s) else None
  }

  /** The ADPP status codes that device calls and the runtime gates produce. */
  datatype Code =
    CodeOk | CodeInvalidArgument | CodeNotFound | CodeFailedPrecondition | CodeOutOfRange | CodeUnavailable

  function Clamp(v: real, lo: real, hi: real): real {
    var low := if v < hi then v else hi;
    if low < lo then lo else low
  }
}
