/** The untyped input every validator receives (TypeScript's `unknown`, as
    a JSON decoder produces it), its JSON text, and JavaScript property
    access on it. */
module Dynamic {
  import opened Decimal

  /** One dynamic value. An object is its list of own properties in the
      order JavaScript enumerates them. */
  datatype Value =
    | Str(s: string)
    | Num(n: int)
    | Bool(b: bool)
    | Null
    | Undefined
    | Arr(elems: seq<Value>)
    | Obj(fields: seq<(string, Value)>)

  /** The property keys of an object, in enumeration order. */
  function Keys(fields: seq<(string, Value)>): (ks: seq<string>)
    ensures |ks| == |fields|
    ensures forall i :: 0 <= i < |fields| ==> ks[i] == fields[i].0
  {
    seq(|fields|, i requires 0 <= i < |fields| => fields[i].0)
  }

  /** `object[key]`: the value of the property named key, or undefined
      when there is none. */
  function Lookup(fields: seq<(string, Value)>, key: string): Value {
    if fields == [] then Undefined
    else if fields[0].0 == key then fields[0].1
    else Lookup(fields[1..], key)
  }

  /** Lookup finds the first property with the key. */
  lemma {:induction false} LookupFirst(fields: seq<(string, Value)>, key: string, i: nat)
    requires i < |fields| && fields[i].0 == key
    requires forall j :: 0 <= j < i ==> fields[j].0 != key
    ensures Lookup(fields, key) == fields[i].1
  {
    if i > 0 {
      LookupFirst(fields[1..], key, i - 1);
    }
  }

  /** A key no property has reads as undefined. */
  lemma {:induction false} LookupMissing(fields: seq<(string, Value)>, key: string)
    requires key !in Keys(fields)
    ensures Lookup(fields, key) == Undefined
  {
    if fields != [] {
      assert Keys(fields[1..]) == Keys(fields)[1..];
      LookupMissing(fields[1..], key);
    }
  }

  /** In a property list where equal keys carry equal values, looking up
      a listed key gives its listed value. */
  lemma {:induction false} LookupKeyed(fields: seq<(string, Value)>, i: nat)
    requires i < |fields|
    requires forall a, b :: 0 <= a < |fields| && 0 <= b < |fields| && fields[a].0 == fields[b].0 ==>
               fields[a].1 == fields[b].1
    ensures Lookup(fields, fields[i].0) == fields[i].1
  {
    if fields[0].0 != fields[i].0 {
      var rest := fields[1..];
      assert forall a :: 0 <= a < |rest| ==> rest[a] == fields[a + 1];
      LookupKeyed(rest, i - 1);
    }
  }

  /** `v[key]` on an array or an object: an array answers only to a
      canonical decimal index below its length. Anything else yields
      undefined. */
  function Get(v: Value, key: string): Value {
    match v
    case Arr(es) =>
      (match ParseNat(key)
       case Some(i) => if i < |es| then es[i] else Undefined
       case None => Undefined)
    case Obj(fs) => Lookup(fs, key)
    case _ => Undefined
  }

  /** `v[p0][p1]...`: the value a path of property keys leads to. */
  function ValueAt(v: Value, path: seq<string>): Value
    decreases |path|
  {
    if path == [] then v else ValueAt(Get(v, path[0]), path[1..])
  }

  /** `JSON.stringify` on a string: quoted, with quote and backslash escaped. */
  function Quote(s: string): string {
    "\"" + Escape(s) + "\""
  }

  function Escape(s: string): string {
    if s == [] then ""
    else (if s[0] == '"' || s[0] == '\\' then ['\\', s[0]] else [s[0]]) + Escape(s[1..])
  }

  /** Reads escaped text back: a backslash stands for the character after
      it. */
  function Unescape(r: string): string
    decreases |r|
  {
    if r == [] then ""
    else if r[0] == '\\' && |r| >= 2 then [r[1]] + Unescape(r[2..])
    else [r[0]] + Unescape(r[1..])
  }

  /** The escaped text of a string determines the string, so the `found`
      text of an error names the string that was found. */
  lemma {:induction false} EscapeRoundTrip(s: string)
    ensures Unescape(Escape(s)) == s
  {
    if s != [] {
      var head := if s[0] == '"' || s[0] == '\\' then ['\\', s[0]] else [s[0]];
      var r := head + Escape(s[1..]);
      assert Escape(s) == r;
      if |head| == 2 {
        assert r[0] == '\\' && r[1] == s[0] && r[2..] == Escape(s[1..]);
      } else {
        assert r[0] == s[0] != '\\' && r[1..] == Escape(s[1..]);
      }
      EscapeRoundTrip(s[1..]);
      assert [s[0]] + s[1..] == s;
    }
  }

  /** The JSON text of a string starts and ends with a double quote, and
      what lies between reads back as the string. */
  lemma QuoteRoundTrip(s: string)
    ensures var q := Quote(s); |q| >= 2 && q[0] == '"' && q[|q| - 1] == '"' && Unescape(q[1..|q| - 1]) == s
  {
    var q := Quote(s);
    assert q[1..|q| - 1] == Escape(s);
    EscapeRoundTrip(s);
  }

  /** The parts joined with sep between neighbours (`Array.prototype.join`). */
  function Join(parts: seq<string>, sep: string): string {
    if parts == [] then ""
    else if |parts| == 1 then parts[0]
    else Join(parts[..|parts| - 1], sep) + sep + parts[|parts| - 1]
  }

  /** Join of the parts whose flag is set. */
  function JoinKept(parts: seq<(bool, string)>, sep: string): string {
    Join(Kept(parts), sep)
  }

  function Kept(parts: seq<(bool, string)>): seq<string> {
    if parts == [] then []
    else (if parts[0].0 then [parts[0].1] else []) + Kept(parts[1..])
  }

  /** `JSON.stringify(v)`: an undefined array element renders as null and
      an undefined property is omitted. Undefined itself, for which
      `JSON.stringify` yields no text at all, renders as "undefined", the
      text it becomes when concatenated to a string. */
  function Render(v: Value): string
    decreases v
  {
    match v
    case Str(s) => Quote(s)
    case Num(n) => IntToString(n)
    case Bool(b) => if b then "true" else "false"
    case Null => "null"
    case Undefined => "undefined"
    case Arr(es) =>
      "[" + Join(seq(|es|, i requires 0 <= i < |es| =>
                       if es[i].Undefined? then "null" else Render(es[i])), ",") + "]"
    case Obj(fs) =>
      "{" + JoinKept(seq(|fs|, i requires 0 <= i < |fs| =>
                           (!fs[i].1.Undefined?, Quote(fs[i].0) + ":" + Render(fs[i].1))), ",") + "}"
  }
}
