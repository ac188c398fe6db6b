/** The exception-based parser: type parsers check values with `assert*`
    functions that throw, nested parses push a path segment on a shared
    stack before they start and pop it when they return, and `Parser.parse`
    catches the first throw and prefixes its message with the stack, which
    still holds the path to the failure because the pops were skipped. */
module JsonParser {
  import opened Decimal
  import opened Dynamic

  /** The parser's own result: the data on success, a message on failure. */
  datatype Result<T> = Ok(data: T) | Err(error: string)

  /** How a call that may throw ends: it returns a value, or throws an
      Error carrying a message. */
  datatype Outcome<T> = Returned(value: T) | Threw(message: string)

  /** The data of an ok result; on an err result, a throw. */
  function Unwrap<T>(x: Result<T>): (o: Outcome<T>)
    ensures x.Ok? <==> o.Returned?
    ensures x.Ok? ==> o.value == x.data
    ensures x.Err? ==> o.message == "unwrap called on error: " + x.error
  {
    if x.Ok? then Returned(x.data) else Threw("unwrap called on error: " + x.error)
  }

  /** The message `fail` throws: the expectation, then the JSON text of the
      value found. */
  function FailText(msg: string, value: Value): string {
    msg + ", got: " + Render(value)
  }

  /** Throws an Error whose message names the expectation and the value. */
  function Fail<T>(msg: string, value: Value): (o: Outcome<T>)
    ensures o.Threw?
    ensures var found := Render(value);
      |o.message| == |msg| + 7 + |found| && o.message[..|msg|] == msg &&
      o.message[|msg|..|msg| + 7] == ", got: " && o.message[|msg| + 7..] == found
  {
    Threw(FailText(msg, value))
  }

  /** Returns a mapping; throws on an array and on every non-object. */
  function AssertObject(x: Value): (o: Outcome<seq<(string, Value)>>)
    ensures o.Returned? <==> x.Obj?
    ensures o.Returned? ==> x == Obj(o.value)
    ensures o.Threw? ==> o.message == FailText("Expected an Object", x)
  {
    if x.Arr? || !x.Obj? then Fail("Expected an Object", x) else Returned(x.fields)
  }

  function AssertArray(x: Value): (o: Outcome<seq<Value>>)
    ensures o.Returned? <==> x.Arr?
    ensures o.Returned? ==> x == Arr(o.value)
    ensures o.Threw? ==> o.message == FailText("Expected an array", x)
  {
    if !x.Arr? then Fail("Expected an array", x) else Returned(x.elems)
  }

  function AssertString(x: Value): (o: Outcome<string>)
    ensures o.Returned? <==> x.Str?
    ensures o.Returned? ==> x == Str(o.value)
    ensures o.Threw? ==> o.message == FailText("Expected a string", x)
  {
    if !x.Str? then Fail("Expected a string", x) else Returned(x.s)
  }

  function AssertNumber(x: Value): (o: Outcome<int>)
    ensures o.Returned? <==> x.Num?
    ensures o.Returned? ==> x == Num(o.value)
    ensures o.Threw? ==> o.message == FailText("Expected a number", x)
  {
    if !x.Num? then Fail("Expected a number", x) else Returned(x.n)
  }

  function AssertBoolean(x: Value): (o: Outcome<bool>)
    ensures o.Returned? <==> x.Bool?
    ensures o.Returned? ==> x == Bool(o.value)
    ensures o.Threw? ==> o.message == FailText("Expected a boolean", x)
  {
    if !x.Bool? then Fail("Expected a boolean", x) else Returned(x.b)
  }

  /** True of null and undefined only. */
  predicate IsEmpty(x: Value) {
    x == Null || x == Undefined
  }

  /** A type parser composed from the functions of this module. The leaves
      are the `assert*` checks; ArrayOf and ObjectOf check the kind and then
      parse every element or property value with assertArrayContents or
      assertObjectContents; Struct checks for an object and then builds a
      record from one assertMember call per member; Optional leaves null and
      undefined (isEmpty) as they are and parses anything else. */
  datatype Shape =
    | StringP
    | NumberP
    | BooleanP
    | ObjectP
    | ArrayP
    | ArrayOf(elem: Shape)
    | ObjectOf(elem: Shape)
    | Struct(members: seq<Member>)
    | Optional(inner: Shape)

  datatype Member = Member(name: string, parser: Shape)

  /** The meaning of running a type parser: the value it returns, or the
      stack segments left behind by the throw and the thrown message. */
  datatype Verdict<T> = Accepted(value: T) | Rejected(path: seq<string>, message: string)

  function Primitive<T>(o: Outcome<T>, x: Value): Verdict<Value> {
    match o
    case Returned(_) => Accepted(x)
    case Threw(m) => Rejected([], m)
  }

  /** What type parser s does with the value v. */
  function Eval(s: Shape, v: Value): Verdict<Value>
    decreases s, 1
  {
    match s
    case StringP => Primitive(AssertString(v), v)
    case NumberP => Primitive(AssertNumber(v), v)
    case BooleanP => Primitive(AssertBoolean(v), v)
    case ObjectP => Primitive(AssertObject(v), v)
    case ArrayP => Primitive(AssertArray(v), v)
    case ArrayOf(e) =>
      (match AssertArray(v)
       case Threw(m) => Rejected([], m)
       case Returned(es) =>
         match EvalElems(e, es, |es|)
         case Accepted(ws) => Accepted(Arr(ws))
         case Rejected(p, m) => Rejected(p, m))
    case ObjectOf(e) =>
      (match AssertObject(v)
       case Threw(m) => Rejected([], m)
       case Returned(fs) =>
         match EvalFields(e, fs, |fs|)
         case Accepted(out) => Accepted(Obj(out))
         case Rejected(p, m) => Rejected(p, m))
    case Struct(ms) =>
      (match AssertObject(v)
       case Threw(m) => Rejected([], m)
       case Returned(fs) =>
         match EvalMembers(ms, fs, |ms|)
         case Accepted(out) => Accepted(Obj(out))
         case Rejected(p, m) => Rejected(p, m))
    case Optional(e) => if IsEmpty(v) then Accepted(v) else Eval(e, v)
  }

  /** The parse of the first n elements with e, in index order, stopping at
      the first that throws and leaving its index on the path. */
  function EvalElems(e: Shape, es: seq<Value>, n: nat): Verdict<seq<Value>>
    requires n <= |es|
    decreases ArrayOf(e), 0, n
  {
    if n == 0 then Accepted([])
    else
      match EvalElems(e, es, n - 1)
      case Rejected(p, m) => Rejected(p, m)
      case Accepted(ws) =>
        match Eval(e, es[n - 1])
        case Accepted(w) => Accepted(ws + [w])
        case Rejected(p, m) => Rejected([NatToString(n - 1)] + p, m)
  }

  /** The parse of the values of the first n properties with e, in
      enumeration order, each value read back by its key. */
  function EvalFields(e: Shape, fs: seq<(string, Value)>, n: nat): Verdict<seq<(string, Value)>>
    requires n <= |fs|
    decreases ObjectOf(e), 0, n
  {
    if n == 0 then Accepted([])
    else
      var key := fs[n - 1].0;
      match EvalFields(e, fs, n - 1)
      case Rejected(p, m) => Rejected(p, m)
      case Accepted(out) =>
        match Eval(e, Lookup(fs, key))
        case Accepted(w) => Accepted(out + [(key, w)])
        case Rejected(p, m) => Rejected([key] + p, m)
  }

  /** The record built from the first n members. */
  function EvalMembers(ms: seq<Member>, fs: seq<(string, Value)>, n: nat): Verdict<seq<(string, Value)>>
    requires n <= |ms|
    decreases Struct(ms), 0, n
  {
    if n == 0 then Accepted([])
    else
      var m := ms[n - 1];
      match EvalMembers(ms, fs, n - 1)
      case Rejected(p, msg) => Rejected(p, msg)
      case Accepted(out) =>
        match Eval(m.parser, Lookup(fs, m.name))
        case Accepted(w) => Accepted(out + [(m.name, w)])
        case Rejected(p, msg) => Rejected([m.name] + p, msg)
  }

  /** The message prefix `parse` builds from the stack: the segments joined
      by dots and a colon, or nothing for an empty stack. */
  function StackPrefix(stack: seq<string>): (r: string)
    ensures stack == [] <==> r == ""
    ensures stack != [] ==> |r| >= 2 && r[|r| - 2..] == ": "
  {
    if |stack| > 0 then Join(stack, ".") + ": " else ""
  }

  /** Which values a type parser admits, stated directly on the value and
      independently of the push/pop evaluation order. */
  predicate Conforms(s: Shape, v: Value)
    decreases s
  {
    match s
    case StringP => v.Str?
    case NumberP => v.Num?
    case BooleanP => v.Bool?
    case ObjectP => v.Obj?
    case ArrayP => v.Arr?
    case ArrayOf(e) => v.Arr? && forall i :: 0 <= i < |v.elems| ==> Conforms(e, v.elems[i])
    case ObjectOf(e) => v.Obj? && forall i :: 0 <= i < |v.fields| ==> Conforms(e, Lookup(v.fields, v.fields[i].0))
    case Struct(ms) => v.Obj? && forall i :: 0 <= i < |ms| ==> Conforms(ms[i].parser, Lookup(v.fields, ms[i].name))
    case Optional(e) => IsEmpty(v) || Conforms(e, v)
  }

  /** m is the message of a failed `assert*` check on x, and x does fail
      that check. */
  predicate RejectionOf(m: string, x: Value) {
    (m == FailText("Expected an Object", x) && !x.Obj?) ||
    (m == FailText("Expected an array", x) && !x.Arr?) ||
    (m == FailText("Expected a string", x) && !x.Str?) ||
    (m == FailText("Expected a number", x) && !x.Num?) ||
    (m == FailText("Expected a boolean", x) && !x.Bool?)
  }

  /** Every Struct member name is distinct, as in an object literal. */
  predicate WellFormed(s: Shape)
    decreases s
  {
    match s
    case StringP => true
    case NumberP => true
    case BooleanP => true
    case ObjectP => true
    case ArrayP => true
    case ArrayOf(e) => WellFormed(e)
    case ObjectOf(e) => WellFormed(e)
    case Struct(ms) =>
      (forall i, j :: 0 <= i < j < |ms| ==> ms[i].name != ms[j].name) &&
      forall i :: 0 <= i < |ms| ==> WellFormed(ms[i].parser)
    case Optional(e) => WellFormed(e)
  }

  // Properties of the meaning of a type parser.

  /** The elements parse in order: the first n are accepted exactly when
      each of them is, and then the output has one parsed value per element,
      in the same order. */
  lemma {:induction false} ElemsAccepted(e: Shape, es: seq<Value>, n: nat)
    requires n <= |es|
    ensures EvalElems(e, es, n).Accepted? <==> forall i :: 0 <= i < n ==> Eval(e, es[i]).Accepted?
    ensures EvalElems(e, es, n).Accepted? ==>
              |EvalElems(e, es, n).value| == n &&
              forall i :: 0 <= i < n ==> Eval(e, es[i]) == Accepted(EvalElems(e, es, n).value[i])
  {
    if n > 0 {
      ElemsAccepted(e, es, n - 1);
    }
  }

  /** A failed element parse stops at the first failing index i: every
      earlier element was accepted, and the path is i's decimal text
      followed by the element's own failure path. */
  lemma {:induction false} ElemsFirstFailure(e: Shape, es: seq<Value>, n: nat)
    requires n <= |es|
    requires EvalElems(e, es, n).Rejected?
    ensures exists i :: 0 <= i < n && Eval(e, es[i]).Rejected? &&
              (forall j :: 0 <= j < i ==> Eval(e, es[j]).Accepted?) &&
              EvalElems(e, es, n).path == [NatToString(i)] + Eval(e, es[i]).path &&
              EvalElems(e, es, n).message == Eval(e, es[i]).message
  {
    if EvalElems(e, es, n - 1).Rejected? {
      ElemsFirstFailure(e, es, n - 1);
    } else {
      ElemsAccepted(e, es, n - 1);
      assert Eval(e, es[n - 1]).Rejected?;
    }
  }

  /** The properties parse in enumeration order: the first n are accepted
      exactly when the value of each of their keys is. */
  lemma {:induction false} FieldsAccepted(e: Shape, fs: seq<(string, Value)>, n: nat)
    requires n <= |fs|
    ensures EvalFields(e, fs, n).Accepted? <==>
              forall i :: 0 <= i < n ==> Eval(e, Lookup(fs, fs[i].0)).Accepted?
  {
    if n > 0 {
      FieldsAccepted(e, fs, n - 1);
    }
  }

  /** An accepted property parse has the input's keys, in order, each with
      the parse of that key's value. */
  lemma {:induction false} FieldsOutput(e: Shape, fs: seq<(string, Value)>, n: nat)
    requires n <= |fs|
    requires EvalFields(e, fs, n).Accepted?
    ensures |EvalFields(e, fs, n).value| == n
    ensures forall i :: 0 <= i < n ==>
              EvalFields(e, fs, n).value[i].0 == fs[i].0 &&
              Eval(e, Lookup(fs, fs[i].0)) == Accepted(EvalFields(e, fs, n).value[i].1)
  {
    if n > 0 {
      FieldsOutput(e, fs, n - 1);
      var prev := EvalFields(e, fs, n - 1).value;
      var out := EvalFields(e, fs, n).value;
      assert out[..n - 1] == prev;
    }
  }

  /** A failed property parse stops at the first failing key, which heads
      the path. */
  lemma {:induction false} FieldsFirstFailure(e: Shape, fs: seq<(string, Value)>, n: nat)
    requires n <= |fs|
    requires EvalFields(e, fs, n).Rejected?
    ensures exists i :: 0 <= i < n && Eval(e, Lookup(fs, fs[i].0)).Rejected? &&
              (forall j :: 0 <= j < i ==> Eval(e, Lookup(fs, fs[j].0)).Accepted?) &&
              EvalFields(e, fs, n).path == [fs[i].0] + Eval(e, Lookup(fs, fs[i].0)).path &&
              EvalFields(e, fs, n).message == Eval(e, Lookup(fs, fs[i].0)).message
  {
    if EvalFields(e, fs, n - 1).Rejected? {
      FieldsFirstFailure(e, fs, n - 1);
    } else {
      FieldsAccepted(e, fs, n - 1);
    }
  }

  /** The members parse in order: accepted exactly when each member's value
      is, and then the record has the member names, in order, each with the
      parse of that member's value. */
  lemma {:induction false} MembersAccepted(ms: seq<Member>, fs: seq<(string, Value)>, n: nat)
    requires n <= |ms|
    ensures EvalMembers(ms, fs, n).Accepted? <==>
              forall i :: 0 <= i < n ==> Eval(ms[i].parser, Lookup(fs, ms[i].name)).Accepted?
    ensures EvalMembers(ms, fs, n).Accepted? ==>
              var out := EvalMembers(ms, fs, n).value;
              |out| == n &&
              forall i :: 0 <= i < n ==> out[i].0 == ms[i].name && Eval(ms[i].parser, Lookup(fs, ms[i].name)) == Accepted(out[i].1)
  {
    if n > 0 {
      MembersAccepted(ms, fs, n - 1);
    }
  }

  /** A failed record parse stops at the first failing member, whose name
      heads the path. */
  lemma {:induction false} MembersFirstFailure(ms: seq<Member>, fs: seq<(string, Value)>, n: nat)
    requires n <= |ms|
    requires EvalMembers(ms, fs, n).Rejected?
    ensures exists i :: 0 <= i < n && Eval(ms[i].parser, Lookup(fs, ms[i].name)).Rejected? &&
              (forall j :: 0 <= j < i ==> Eval(ms[j].parser, Lookup(fs, ms[j].name)).Accepted?) &&
              EvalMembers(ms, fs, n).path == [ms[i].name] + Eval(ms[i].parser, Lookup(fs, ms[i].name)).path &&
              EvalMembers(ms, fs, n).message == Eval(ms[i].parser, Lookup(fs, ms[i].name)).message
  {
    if EvalMembers(ms, fs, n - 1).Rejected? {
      MembersFirstFailure(ms, fs, n - 1);
    } else {
      MembersAccepted(ms, fs, n - 1);
    }
  }

  /** A type parser returns normally exactly on the values that conform to
      it. */
  lemma {:induction false} AcceptsIffConforms(s: Shape, v: Value)
    ensures Eval(s, v).Accepted? <==> Conforms(s, v)
    decreases s
  {
    match s
    case ArrayOf(e) =>
      if v.Arr? {
        ElemsAccepted(e, v.elems, |v.elems|);
        forall i | 0 <= i < |v.elems| ensures Eval(e, v.elems[i]).Accepted? <==> Conforms(e, v.elems[i]) {
          AcceptsIffConforms(e, v.elems[i]);
        }
      }
    case ObjectOf(e) =>
      if v.Obj? {
        FieldsAccepted(e, v.fields, |v.fields|);
        forall i | 0 <= i < |v.fields|
          ensures Eval(e, Lookup(v.fields, v.fields[i].0)).Accepted? <==> Conforms(e, Lookup(v.fields, v.fields[i].0))
        {
          AcceptsIffConforms(e, Lookup(v.fields, v.fields[i].0));
        }
      }
    case Struct(ms) =>
      if v.Obj? {
        MembersAccepted(ms, v.fields, |ms|);
        forall i | 0 <= i < |ms|
          ensures Eval(ms[i].parser, Lookup(v.fields, ms[i].name)).Accepted? <==> Conforms(ms[i].parser, Lookup(v.fields, ms[i].name))
        {
          AcceptsIffConforms(ms[i].parser, Lookup(v.fields, ms[i].name));
        }
      }
    case Optional(e) =>
      if !IsEmpty(v) {
        AcceptsIffConforms(e, v);
      }
    case _ =>
  }

  /** The path a failure leaves on the stack is a chain of property accesses
      from the input to the value that failed, and the message is that of
      the `assert*` check the value failed, showing that value. */
  lemma {:induction false} FailureLocated(s: Shape, v: Value)
    requires Eval(s, v).Rejected?
    ensures RejectionOf(Eval(s, v).message, ValueAt(v, Eval(s, v).path))
    decreases s
  {
    var p := Eval(s, v).path;
    match s
    case ArrayOf(e) =>
      if v.Arr? {
        var es := v.elems;
        ElemsFirstFailure(e, es, |es|);
        var i :| 0 <= i < |es| && Eval(e, es[i]).Rejected? &&
                 p == [NatToString(i)] + Eval(e, es[i]).path &&
                 Eval(s, v).message == Eval(e, es[i]).message;
        NatToStringRoundTrip(i);
        assert Get(v, NatToString(i)) == es[i];
        assert p[1..] == Eval(e, es[i]).path;
        FailureLocated(e, es[i]);
      }
    case ObjectOf(e) =>
      if v.Obj? {
        var fs := v.fields;
        FieldsFirstFailure(e, fs, |fs|);
        var i :| 0 <= i < |fs| && Eval(e, Lookup(fs, fs[i].0)).Rejected? &&
                 p == [fs[i].0] + Eval(e, Lookup(fs, fs[i].0)).path &&
                 Eval(s, v).message == Eval(e, Lookup(fs, fs[i].0)).message;
        assert p[1..] == Eval(e, Lookup(fs, fs[i].0)).path;
        FailureLocated(e, Lookup(fs, fs[i].0));
      }
    case Struct(ms) =>
      if v.Obj? {
        var fs := v.fields;
        MembersFirstFailure(ms, fs, |ms|);
        var i :| 0 <= i < |ms| && Eval(ms[i].parser, Lookup(fs, ms[i].name)).Rejected? &&
                 p == [ms[i].name] + Eval(ms[i].parser, Lookup(fs, ms[i].name)).path &&
                 Eval(s, v).message == Eval(ms[i].parser, Lookup(fs, ms[i].name)).message;
        assert p[1..] == Eval(ms[i].parser, Lookup(fs, ms[i].name)).path;
        FailureLocated(ms[i].parser, Lookup(fs, ms[i].name));
      }
    case Optional(e) =>
      FailureLocated(e, v);
    case _ =>
  }

  /** Once a prefix of the elements is rejected, every longer prefix is
      rejected the same way: nothing after the first throw runs. */
  lemma {:induction false} ElemsRejectedStays(e: Shape, es: seq<Value>, n: nat, m: nat)
    requires n <= m <= |es|
    requires EvalElems(e, es, n).Rejected?
    ensures EvalElems(e, es, m) == EvalElems(e, es, n)
    decreases m
  {
    if m > n {
      ElemsRejectedStays(e, es, n, m - 1);
    }
  }

  lemma {:induction false} FieldsRejectedStays(e: Shape, fs: seq<(string, Value)>, n: nat, m: nat)
    requires n <= m <= |fs|
    requires EvalFields(e, fs, n).Rejected?
    ensures EvalFields(e, fs, m) == EvalFields(e, fs, n)
    decreases m
  {
    if m > n {
      FieldsRejectedStays(e, fs, n, m - 1);
    }
  }

  lemma {:induction false} MembersRejectedStays(ms: seq<Member>, fs: seq<(string, Value)>, n: nat, m: nat)
    requires n <= m <= |ms|
    requires EvalMembers(ms, fs, n).Rejected?
    ensures EvalMembers(ms, fs, m) == EvalMembers(ms, fs, n)
    decreases m
  {
    if m > n {
      MembersRejectedStays(ms, fs, n, m - 1);
    }
  }

  /** Parsing elements that each parse to themselves gives them back. */
  lemma {:induction false} ElemsFixed(e: Shape, ws: seq<Value>, n: nat)
    requires n <= |ws|
    requires forall i :: 0 <= i < n ==> Eval(e, ws[i]) == Accepted(ws[i])
    ensures EvalElems(e, ws, n) == Accepted(ws[..n])
  {
    if n > 0 {
      ElemsFixed(e, ws, n - 1);
      assert ws[..n - 1] + [ws[n - 1]] == ws[..n];
    }
  }

  lemma {:induction false} FieldsFixed(e: Shape, out: seq<(string, Value)>, n: nat)
    requires n <= |out|
    requires forall i :: 0 <= i < n ==> Eval(e, Lookup(out, out[i].0)) == Accepted(out[i].1)
    ensures EvalFields(e, out, n) == Accepted(out[..n])
  {
    if n > 0 {
      FieldsFixed(e, out, n - 1);
      assert out[..n - 1] + [out[n - 1]] == out[..n];
    }
  }

  lemma {:induction false} MembersFixed(ms: seq<Member>, out: seq<(string, Value)>, n: nat)
    requires n <= |ms| && n <= |out|
    requires forall i :: 0 <= i < n ==> out[i].0 == ms[i].name
    requires forall i :: 0 <= i < n ==> Eval(ms[i].parser, Lookup(out, ms[i].name)) == Accepted(out[i].1)
    ensures EvalMembers(ms, out, n) == Accepted(out[..n])
  {
    if n > 0 {
      MembersFixed(ms, out, n - 1);
      assert out[..n - 1] + [out[n - 1]] == out[..n];
    }
  }

  /** Round trip: what a type parser returns, parsed again by the same
      parser, comes back unchanged. Struct member names must be distinct,
      as they are in the object literal that builds the record. */
  lemma {:induction false} ParseOutputIsFixed(s: Shape, v: Value)
    requires WellFormed(s)
    requires Eval(s, v).Accepted?
    ensures Eval(s, Eval(s, v).value) == Eval(s, v)
    decreases s
  {
    match s
    case ArrayOf(e) =>
      var es := v.elems;
      ElemsAccepted(e, es, |es|);
      var ws := EvalElems(e, es, |es|).value;
      forall i | 0 <= i < |ws| ensures Eval(e, ws[i]) == Accepted(ws[i]) {
        ParseOutputIsFixed(e, es[i]);
      }
      ElemsFixed(e, ws, |ws|);
      assert ws[..|ws|] == ws;
    case ObjectOf(e) =>
      var fs := v.fields;
      FieldsOutput(e, fs, |fs|);
      var out := EvalFields(e, fs, |fs|).value;
      forall i | 0 <= i < |out| ensures Eval(e, Lookup(out, out[i].0)) == Accepted(out[i].1) {
        LookupKeyed(out, i);
        ParseOutputIsFixed(e, Lookup(fs, fs[i].0));
      }
      FieldsFixed(e, out, |out|);
      assert out[..|out|] == out;
    case Struct(ms) =>
      var fs := v.fields;
      MembersAccepted(ms, fs, |ms|);
      var out := EvalMembers(ms, fs, |ms|).value;
      forall i | 0 <= i < |ms| ensures Eval(ms[i].parser, Lookup(out, ms[i].name)) == Accepted(out[i].1) {
        LookupKeyed(out, i);
        ParseOutputIsFixed(ms[i].parser, Lookup(fs, ms[i].name));
      }
      MembersFixed(ms, out, |ms|);
      assert out[..|ms|] == out;
    case Optional(e) =>
      if !IsEmpty(v) && !IsEmpty(Eval(e, v).value) {
        ParseOutputIsFixed(e, v);
      }
    case _ =>
  }

  /** A failure two levels down: the record's member "a" is an array
      whose element 1 is a number, not a string. */
  lemma NestedFailureExample()
    ensures Eval(Struct([Member("a", ArrayOf(StringP))]), Obj([("a", Arr([Str("x"), Num(3)]))]))
            == Rejected(["a", "1"], "Expected a string, got: 3")
    ensures StackPrefix(["a", "1"]) == "a.1: "
  {
    var es := [Str("x"), Num(3)];
    assert NatToString(1) == "1";
    assert Render(Num(3)) == "3";
    assert EvalElems(StringP, es, 0) == Accepted([]);
    assert Eval(StringP, es[0]) == Accepted(Str("x"));
    assert [] + [Str("x")] == [Str("x")];
    assert EvalElems(StringP, es, 1) == Accepted([Str("x")]);
    assert [NatToString(1)] + [] == ["1"];
    assert EvalElems(StringP, es, 2) == Rejected(["1"], "Expected a string, got: 3");
    assert ["a"] + ["1"] == ["a", "1"];
  }

  // The running parser: a shared stack of path segments, and the functions
  // that push a segment before a nested parse and pop it after.

  /** The stack of path segments a parse shares with its nested parses. */
  class Stack {
    var items: seq<string>

    constructor()
      ensures items == []
    {
      items := [];
    }

    method Push(segment: string)
      modifies this
      ensures items == old(items) + [segment]
    {
      items := items + [segment];
    }

    /** Removes and returns the top segment; an empty stack stays empty. */
    method Pop() returns (top: Option<string>)
      modifies this
      ensures old(items) == [] ==> top == None && items == []
      ensures old(items) != [] ==> top == Some(old(items)[|old(items)| - 1]) &&
                                   items == old(items)[..|old(items)| - 1]
    {
      if items == [] {
        top := None;
      } else {
        top := Some(items[|items| - 1]);
        items := items[..|items| - 1];
      }
    }
  }

  /** A check that returns its input unchanged or throws. */
  function Checked<T>(o: Outcome<T>, x: Value): Outcome<Value> {
    match o
    case Returned(_) => Returned(x)
    case Threw(m) => Threw(m)
  }

  /** Runs type parser s on v: returns what it returns and leaves the stack
      as it found it, or throws and leaves the failure's path on top of the
      stack. */
  method RunParser(s: Shape, v: Value, stack: Stack) returns (o: Outcome<Value>)
    modifies stack
    decreases s, 1
    ensures Eval(s, v).Accepted? ==> o == Returned(Eval(s, v).value) && stack.items == old(stack.items)
    ensures Eval(s, v).Rejected? ==> o == Threw(Eval(s, v).message) &&
                                     stack.items == old(stack.items) + Eval(s, v).path
  {
    match s
    case StringP => o := Checked(AssertString(v), v);
    case NumberP => o := Checked(AssertNumber(v), v);
    case BooleanP => o := Checked(AssertBoolean(v), v);
    case ObjectP => o := Checked(AssertObject(v), v);
    case ArrayP => o := Checked(AssertArray(v), v);
    case ArrayOf(e) =>
      var a := AssertArray(v);
      if a.Threw? {
        return Threw(a.message);
      }
      var r := AssertArrayContents(a.value, stack, e);
      o := if r.Returned? then Returned(Arr(r.value)) else Threw(r.message);
    case ObjectOf(e) =>
      var obj := AssertObject(v);
      if obj.Threw? {
        return Threw(obj.message);
      }
      var r := AssertObjectContents(obj.value, stack, e);
      o := if r.Returned? then Returned(Obj(r.value)) else Threw(r.message);
    case Struct(ms) =>
      var obj := AssertObject(v);
      if obj.Threw? {
        return Threw(obj.message);
      }
      var record: seq<(string, Value)> := [];
      for i := 0 to |ms|
        invariant EvalMembers(ms, obj.value, i) == Accepted(record)
        invariant stack.items == old(stack.items)
      {
        var r := AssertMember(obj.value, ms[i].name, stack, ms[i].parser);
        if r.Threw? {
          MembersRejectedStays(ms, obj.value, i + 1, |ms|);
          return Threw(r.message);
        }
        record := record + [(ms[i].name, r.value)];
      }
      o := Returned(Obj(record));
    case Optional(e) =>
      if IsEmpty(v) {
        o := Returned(v);
      } else {
        o := RunParser(e, v, stack);
      }
  }

  /** Parses the member of obj named member with the member name pushed;
      the pop is skipped when the parse throws. */
  method AssertMember(obj: seq<(string, Value)>, member: string, stack: Stack, parse: Shape)
    returns (o: Outcome<Value>)
    modifies stack
    decreases parse, 2
    ensures Eval(parse, Lookup(obj, member)).Accepted? ==>
              o == Returned(Eval(parse, Lookup(obj, member)).value) && stack.items == old(stack.items)
    ensures Eval(parse, Lookup(obj, member)).Rejected? ==>
              o == Threw(Eval(parse, Lookup(obj, member)).message) &&
              stack.items == old(stack.items) + [member] + Eval(parse, Lookup(obj, member)).path
  {
    stack.Push(member);
    o := RunParser(parse, Lookup(obj, member), stack);
    if o.Returned? {
      var _ := stack.Pop();
    }
  }

  /** Parses every element in index order, each with its decimal index
      pushed; the first throw ends the walk with its index still pushed. */
  method AssertArrayContents(arr: seq<Value>, stack: Stack, parse: Shape) returns (o: Outcome<seq<Value>>)
    modifies stack
    decreases parse, 2
    ensures EvalElems(parse, arr, |arr|).Accepted? ==>
              o == Returned(EvalElems(parse, arr, |arr|).value) && stack.items == old(stack.items)
    ensures EvalElems(parse, arr, |arr|).Rejected? ==>
              o == Threw(EvalElems(parse, arr, |arr|).message) &&
              stack.items == old(stack.items) + EvalElems(parse, arr, |arr|).path
  {
    var results: seq<Value> := [];
    for i := 0 to |arr|
      invariant EvalElems(parse, arr, i) == Accepted(results)
      invariant stack.items == old(stack.items)
    {
      stack.Push(NatToString(i));
      var r := RunParser(parse, arr[i], stack);
      if r.Threw? {
        ElemsRejectedStays(parse, arr, i + 1, |arr|);
        return Threw(r.message);
      }
      var _ := stack.Pop();
      results := results + [r.value];
    }
    o := Returned(results);
  }

  /** Parses the value of every property in enumeration order, each with
      its key pushed, into a record with the same keys; the first throw ends
      the walk with its key still pushed. */
  method AssertObjectContents(obj: seq<(string, Value)>, stack: Stack, parse: Shape)
    returns (o: Outcome<seq<(string, Value)>>)
    modifies stack
    decreases parse, 2
    ensures EvalFields(parse, obj, |obj|).Accepted? ==>
              o == Returned(EvalFields(parse, obj, |obj|).value) && stack.items == old(stack.items)
    ensures EvalFields(parse, obj, |obj|).Rejected? ==>
              o == Threw(EvalFields(parse, obj, |obj|).message) &&
              stack.items == old(stack.items) + EvalFields(parse, obj, |obj|).path
  {
    var result: seq<(string, Value)> := [];
    for i := 0 to |obj|
      invariant EvalFields(parse, obj, i) == Accepted(result)
      invariant stack.items == old(stack.items)
    {
      var key := obj[i].0;
      stack.Push(key);
      var r := RunParser(parse, Lookup(obj, key), stack);
      if r.Threw? {
        FieldsRejectedStays(parse, obj, i + 1, |obj|);
        return Threw(r.message);
      }
      var _ := stack.Pop();
      result := result + [(key, r.value)];
    }
    o := Returned(result);
  }

  /** A parser for one type: `parse` runs the type parser on a fresh, empty
      stack and turns a throw into an error whose message is prefixed with
      the path the stack still holds. */
  class Parser {
    const typeParser: Shape

    constructor(typeParser: Shape)
      ensures this.typeParser == typeParser
    {
      this.typeParser := typeParser;
    }

    method Parse(data: Value) returns (r: Result<Value>)
      ensures Eval(typeParser, data).Accepted? ==> r == Ok(Eval(typeParser, data).value)
      ensures Eval(typeParser, data).Rejected? ==>
                r == Err(StackPrefix(Eval(typeParser, data).path) + Eval(typeParser, data).message)
      ensures r.Ok? <==> Conforms(typeParser, data)
      ensures r.Err? ==> exists path, m :: r.error == StackPrefix(path) + m && RejectionOf(m, ValueAt(data, path))
    {
      var stack := new Stack();
      var o := RunParser(typeParser, data, stack);
      AcceptsIffConforms(typeParser, data);
      if o.Returned? {
        r := Ok(o.value);
      } else {
        FailureLocated(typeParser, data);
        assert [] + Eval(typeParser, data).path == Eval(typeParser, data).path;
        r := Err(StackPrefix(stack.items) + o.message);
      }
    }
  }
}
