/** The few pieces of JavaScript semantics the nhdfs layer relies on:
    its values, their truthiness and `typeof`, property reads, the errors
    it raises or passes on, and `Buffer.prototype.slice(0, end)`. */
module Js {

  datatype Option<T> = None | Some(value: T)

  /** A synchronous call that returns or throws, or a promise that resolves or rejects. */
  datatype Result<T> = Ok(value: T) | Err(error: Error)

  /** The error values that reach a caller. */
  datatype Error =
    | Native(message: string)                    // a native error passed as its message string (reads, file-system calls)
    | NativeObject(message: string, errno: int)  // a native error passed as an object (the writer's calls)
    | InvalidData                                // `new Error('Invalid data')`, raised for a write payload that is not a Buffer
    | OptionsNotObject                           // `new Error('options must be an object')`, raised by getOptions
    | NullishProperty                            // the TypeError raised when a property of null or undefined is read
    | SizeNotNumber                              // the TypeError `Buffer.alloc` raises for a size that is not a number
    | SizeOutOfRange                             // the RangeError `Buffer.alloc` raises for a negative size

  type byte = b: int | 0 <= b < 256

  /** `if (err)` on a callback's first argument. A native error that arrives as
      its message string is falsy when the message is empty; one that arrives as
      an object, and the layer's own Error objects, are always truthy. */
  predicate Raised(err: Option<Error>) {
    err.Some? && (err.value.Native? ==> err.value.message != "")
  }

  /** A JavaScript value; numbers are the finite ones (NaN and the infinities are left out). */
  datatype Value =
    | Undefined
    | Null
    | Boolean(b: bool)
    | Number(n: real)
    | Str(s: string)
    | Func
    | Obj(props: map<string, Value>)

  /** The value converted by `if (v)` or `!v`. */
  predicate Truthy(v: Value) {
    match v
    case Undefined => false
    case Null => false
    case Boolean(b) => b
    case Number(n) => n != 0.0
    case Str(s) => s != ""
    case Func => true
    case Obj(_) => true
  }

  /** The `typeof` operator; null answers "object", as in JavaScript. */
  function TypeOf(v: Value): (t: string)
    ensures t == "object" <==> v.Null? || v.Obj?
    ensures t == "function" <==> v.Func?
    ensures t == "undefined" <==> v.Undefined?
  {
    match v
    case Undefined => "undefined"
    case Null => "object"
    case Boolean(_) => "boolean"
    case Number(_) => "number"
    case Str(_) => "string"
    case Func => "function"
    case Obj(_) => "object"
  }

  /** `Number.isInteger(v)`. */
  predicate IsInteger(v: Value) {
    v.Number? && v.n.Floor as real == v.n
  }

  /** `Number.isInteger(v) && v > 0`. */
  predicate IsPositiveInteger(v: Value) {
    IsInteger(v) && v.n > 0.0
  }

  /** The property read `v.key`. Reading from null or undefined throws; an
      object answers its own property or undefined; the primitives answer
      undefined (their built-in properties, such as a string's `length`,
      are not modelled: the layer only reads `maxPathLength` and `replication`). */
  function Property(v: Value, key: string): (r: Result<Value>)
    ensures r.Err? <==> v.Undefined? || v.Null?
    ensures r.Err? ==> r.error == NullishProperty
    ensures r.Ok? && r.value != Undefined ==> v.Obj? && key in v.props && v.props[key] == r.value
  {
    match v
    case Undefined => Err(NullishProperty)
    case Null => Err(NullishProperty)
    case Obj(props) => Ok(if key in props then props[key] else Undefined)
    case _ => Ok(Undefined)
  }

  /** A destructuring default: `x = d` takes `d` only when `x` is undefined. */
  function WithDefault(v: Value, d: Value): (r: Value)
    ensures v.Undefined? ==> r == d
    ensures !v.Undefined? ==> r == v
  {
    if v == Undefined then d else v
  }

  /** `Buffer.alloc(size)`: a size that is not a number throws a TypeError, a
      negative one a RangeError; otherwise the buffer holds the size's integer
      part of zero bytes. */
  function Alloc(size: Value): (r: Result<nat>)
    ensures r.Ok? <==> size.Number? && size.n >= 0.0
    ensures !size.Number? ==> r == Err(SizeNotNumber)
    ensures size.Number? && size.n < 0.0 ==> r == Err(SizeOutOfRange)
    ensures r.Ok? ==> r.value as real <= size.n < r.value as real + 1.0
  {
    if !size.Number? then Err(SizeNotNumber)
    else if size.n < 0.0 then Err(SizeOutOfRange)
    else Ok(size.n.Floor as nat)
  }

  /** `buf.slice(0, end)`: a negative end counts back from the length,
      and the end is clamped to the buffer. */
  function Slice<T>(buf: seq<T>, end: int): (r: seq<T>)
    ensures |r| <= |buf| && r == buf[..|r|]
    ensures 0 <= end <= |buf| ==> |r| == end
    ensures end >= |buf| ==> r == buf
    ensures end < 0 ==> |r| == if |buf| + end < 0 then 0 else |buf| + end
  {
    var stop := if end < 0 then (if |buf| + end < 0 then 0 else |buf| + end)
                else if end > |buf| then |buf|
                else end;
    buf[..stop]
  }
}
