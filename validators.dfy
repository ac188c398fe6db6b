/** The primitive validators: each checks the runtime kind of an untyped
    value and returns it unchanged, or an error that says what was expected
    and what was found. */
module Validators {
  import opened Dynamic

  /** Where a validation failed, what it expected there, and the JSON text
      of what it found. */
  datatype ParseError = ParseError(path: string, expected: string, found: string)

  datatype Result<T> = Ok(value: T) | Err(error: ParseError)

  /** The error record a validator reports for the value found. */
  function Pe(path: string, expected: string, found: Value): (e: ParseError)
    ensures e.path == path && e.expected == expected && e.found == Render(found)
  {
    ParseError(path, expected, Render(found))
  }

  /** r is the error a primitive validator reports on x: at the root
      (empty path), naming the kind it expected, and showing x. */
  predicate RejectsAtRoot<T>(r: Result<T>, expected: string, x: Value) {
    r.Err? && r.error.path == "" && r.error.expected == expected && r.error.found == Render(x)
  }

  function String(x: Value): (r: Result<string>)
    ensures r.Ok? <==> x.Str?
    ensures r.Ok? ==> x == Str(r.value)
    ensures r.Err? ==> RejectsAtRoot(r, "string", x)
  {
    if x.Str? then Ok(x.s) else Err(Pe("", "string", x))
  }

  function Number(x: Value): (r: Result<int>)
    ensures r.Ok? <==> x.Num?
    ensures r.Ok? ==> x == Num(r.value)
    ensures r.Err? ==> RejectsAtRoot(r, "number", x)
  {
    if x.Num? then Ok(x.n) else Err(Pe("", "number", x))
  }

  function Boolean(x: Value): (r: Result<bool>)
    ensures r.Ok? <==> x.Bool?
    ensures r.Ok? ==> x == Bool(r.value)
    ensures r.Err? ==> RejectsAtRoot(r, "boolean", x)
  {
    if x.Bool? then Ok(x.b) else Err(Pe("", "boolean", x))
  }

  /** Accepts a mapping only: an array, null and every primitive fail. */
  function Object(x: Value): (r: Result<seq<(string, Value)>>)
    ensures r.Ok? <==> x.Obj?
    ensures r.Ok? ==> x == Obj(r.value)
    ensures r.Err? ==> RejectsAtRoot(r, "Object", x)
  {
    if x.Arr? || !x.Obj? then Err(Pe("", "Object", x)) else Ok(x.fields)
  }

  function Array(x: Value): (r: Result<seq<Value>>)
    ensures r.Ok? <==> x.Arr?
    ensures r.Ok? ==> x == Arr(r.value)
    ensures r.Err? ==> RejectsAtRoot(r, "Array", x)
  {
    if !x.Arr? then Err(Pe("", "Array", x)) else Ok(x.elems)
  }

  /** Accepts undefined only; null is rejected. */
  function UndefinedVal(x: Value): (r: Result<Value>)
    ensures r.Ok? <==> x == Undefined
    ensures r.Ok? ==> r.value == x
    ensures r.Err? ==> RejectsAtRoot(r, "undefined", x)
  {
    if x.Undefined? then Ok(x) else Err(Pe("", "undefined", x))
  }

  /** Accepts null only; undefined is rejected. */
  function NullVal(x: Value): (r: Result<Value>)
    ensures r.Ok? <==> x == Null
    ensures r.Ok? ==> r.value == x
    ensures r.Err? ==> RejectsAtRoot(r, "null", x)
  {
    if x.Null? then Ok(x) else Err(Pe("", "null", x))
  }

  /** How many of the seven validators accept x. */
  function Acceptances(x: Value): nat {
    (if String(x).Ok? then 1 else 0) + (if Number(x).Ok? then 1 else 0) +
    (if Boolean(x).Ok? then 1 else 0) + (if Object(x).Ok? then 1 else 0) +
    (if Array(x).Ok? then 1 else 0) + (if UndefinedVal(x).Ok? then 1 else 0) +
    (if NullVal(x).Ok? then 1 else 0)
  }

  /** The validators partition the dynamic values: every value is accepted
      by exactly one of them, so no two succeed on the same input (in
      particular Object and Array never both do). */
  lemma ExactlyOneAccepts(x: Value)
    ensures Acceptances(x) == 1
    ensures !(Object(x).Ok? && Array(x).Ok?)
  {
  }
}
