# Runtime validation of untyped JSON values, modelled in Dafny

This project models the core of a small TypeScript library that checks
untyped values (what a JSON decoder hands back) against an expected shape
and reports why a value does not fit. Three pieces are modelled:

- **The path composer** (`src/internal.ts`). `indexedPath` and `memberPath`
  build the location string of a failure one segment at a time, innermost
  first. They are modelled in module `Paths`.
- **The primitive validators** (`src/index.ts`). `string`, `number`,
  `boolean`, `object`, `array`, `undefinedVal` and `nullVal` each return the
  value unchanged, or an error record `{path, expected, found}` built by
  `pe`. They are modelled in module `Validators`, with an own `Ok`/`Err`
  result datatype.
- **The exception-based parser** (`src/json_parser.ts`). This is the earlier
  design. Its `assert*` checks throw, and nested parses push a path segment
  on a shared `string[]` stack before they start and pop it when they
  return. `Parser.parse` catches the first throw and prefixes its message
  with whatever the stack still holds. It is modelled in module
  `JsonParser`:
  - `Result` with constructors `Ok`/`Err` stands for `ok`/`err`.
  - A throw is the `Threw` case of `Outcome`.
  - The stack is the class `Stack`, which has a `seq<string>` field.
  - `assertMember`, `assertArrayContents` and `assertObjectContents` are
    methods that push and pop on it.

Supporting modules:
- `Dynamic` holds the untyped value (`Value`: string, number, boolean,
  null, undefined, array, object as an ordered property list). It also
  holds its JSON text (`Render`, standing for `JSON.stringify`) and
  JavaScript property access (`Lookup`, `Get`, `ValueAt`).
- `Decimal` holds the decimal text of numbers, with its inverse.
- `Agreement` relates the two designs to each other.

The user-supplied type parser of `Parser` is a closure in TypeScript. Here it
is the datatype `Shape`, the type parsers that can be composed from the
module's own functions:
- the five `assert*` checks;
- `ArrayOf`: `assertArray`, then `assertArrayContents`;
- `ObjectOf`: `assertObject`, then `assertObjectContents`;
- `Struct`: `assertObject`, then one `assertMember` per member;
- `Optional`: null and undefined (`isEmpty`) are left alone; anything else
  is parsed.

`Eval` is the meaning of a type parser. It gives the returned value, or the
segments left on the stack by the throw together with the thrown message.
Every method is proved against `Eval`. `Eval` is in turn proved to accept
exactly the values satisfying the independent predicate `Conforms`. It is
also proved to report a path that leads, by JavaScript property access, to
a value that really fails the check named in the message.

`isEmpty` is the predicate `JsonParser.IsEmpty`: it holds on null and
undefined, and `Optional` leaves exactly those values alone.
`Agreement.IsEmptyAgrees` relates it to `undefinedVal` and `nullVal`.

## Model

| member | source | states |
|---|---|---|
| `Decimal.NatToString` | src/json_parser.ts:62 | `i.toString()` of an array index is a non-empty run of digits with no leading zero, and "0" exactly for 0 |
| `Decimal.IntToString` | src/internal.ts:2-4 | `${here}` of an integer: digits after an optional minus sign, the sign present exactly for negative numbers |
| `Decimal.NatToStringRoundTrip` | src/json_parser.ts:62 | reading an index segment back as an array index gives the index that was pushed |
| `Decimal.ParseNatRoundTrip` | src/json_parser.ts:62 | parsing and rendering are inverse bijections between naturals and canonical decimals (both directions) |
| `Decimal.NatToStringInjective` | src/json_parser.ts:62 | distinct indices push distinct segments |
| `Decimal.IntToStringRoundTrip` | src/internal.ts:2-4 | the numeric segment of a path determines the number |
| `Dynamic.LookupFirst` | src/json_parser.ts:51 | `object[member]` is the value of the first property with that key |
| `Dynamic.LookupMissing` | src/json_parser.ts:51 | `object[member]` on a missing key is undefined, which is handed to the member's parser rather than reported |
| `Dynamic.LookupKeyed` | src/json_parser.ts:74-80 | in a record whose equal keys carry equal values, every key reads back its own value |
| `Dynamic.EscapeRoundTrip` | src/index.ts:15 | the escaped text `JSON.stringify` gives for a string reads back as that string, so the `found` text names the string found |
| `Dynamic.QuoteRoundTrip` | src/json_parser.ts:119 | the JSON text of a string is quoted at both ends and what lies between reads back as the string |
| `Paths.Segment` | src/internal.ts:2-4 | a segment is bracketed: `[` first and `]` last, for numbers and string keys alike |
| `Paths.IndexedPath` | src/internal.ts:1-13 | the result starts with `[`; it is the segment, then the separator for inner, then inner, so it starts with the segment and ends with inner |
| `Paths.IndexedPathJoins` | src/internal.ts:6-12 | the three joins: segment alone for an empty inner path, no dot before a bracket, a dot otherwise |
| `Paths.IndexedPathExamples` | src/internal.ts:1-13 | `[3]`, `[3].horse`, and `[0][1]` for a nested bracket |
| `Paths.IndexedPathKeyExamples` | src/internal.ts:1-13 | `["horse"]` and `["horse"].goat` |
| `Paths.IndexedPathNumericRoundTrip` | src/internal.ts:1-13 | a path built from a numeric index reads back as that index and the inner path |
| `Paths.IndexedPathQuotedRoundTrip` | src/internal.ts:1-13 | a path built from a string key without a double quote reads back as that key and the inner path |
| `Paths.MemberPath` | src/internal.ts:15-21 | the result starts with the name and ends with inner; between them there is exactly one dot when inner is non-empty, nothing otherwise, and never a bracket |
| `Paths.MemberPathExamples` | src/internal.ts:15-21 | `horse` and `horse.goat` |
| `Paths.MemberPathRoundTrip` | src/internal.ts:15-21 | a path built from a member name without a dot reads back as that name and the inner path |
| `Validators.Pe` | src/index.ts:11-17 | the error record carries the path, the expectation and the rendering (`Render`) of the value found |
| `Validators.String` | src/index.ts:19-25 | succeeds iff the value is a string, returning it unchanged; otherwise fails at path "" expecting "string" and showing the value |
| `Validators.Number` | src/index.ts:27-33 | succeeds iff the value is a number, returning it unchanged; otherwise fails at path "" expecting "number" |
| `Validators.Boolean` | src/index.ts:35-41 | succeeds iff the value is a boolean, returning it unchanged; otherwise fails at path "" expecting "boolean" |
| `Validators.Object` | src/index.ts:43-49 | succeeds iff the value is a mapping, returning it unchanged; arrays, null and primitives fail at path "" expecting "Object" |
| `Validators.Array` | src/index.ts:51-57 | succeeds iff the value is an array, returning its elements unchanged; otherwise fails expecting "Array" |
| `Validators.UndefinedVal` | src/index.ts:59-65 | succeeds iff the value is undefined (null is rejected); otherwise fails expecting "undefined" |
| `Validators.NullVal` | src/index.ts:67-73 | succeeds iff the value is null (undefined is rejected); otherwise fails expecting "null" |
| `Validators.ExactlyOneAccepts` | src/index.ts:19-73 | every value is accepted by exactly one of the seven validators, so `object` and `array` are never both Ok |
| `JsonParser.Unwrap` | src/json_parser.ts:11-17 | returns the data of an ok result; on an err result it throws "unwrap called on error: " followed by the error |
| `JsonParser.Fail` | src/json_parser.ts:118-120 | always throws; the message is msg, then ", got: ", then the JSON text of the value |
| `JsonParser.AssertObject` | src/json_parser.ts:83-88 | returns the mapping iff the value is an object and not an array; otherwise throws "Expected an Object, got: …" |
| `JsonParser.AssertArray` | src/json_parser.ts:90-95 | returns the elements unchanged iff the value is an array; otherwise throws "Expected an array, got: …" |
| `JsonParser.AssertString` | src/json_parser.ts:97-102 | returns the string unchanged iff the value is a string; otherwise throws "Expected a string, got: …" |
| `JsonParser.AssertNumber` | src/json_parser.ts:104-109 | returns the number unchanged iff the value is a number; otherwise throws "Expected a number, got: …" |
| `JsonParser.AssertBoolean` | src/json_parser.ts:111-116 | returns the boolean unchanged iff the value is a boolean; otherwise throws "Expected a boolean, got: …" |
| `JsonParser.StackPrefix` | src/json_parser.ts:31 | no prefix for an empty stack; otherwise the prefix ends with ": " |
| `JsonParser.ElemsAccepted` | src/json_parser.ts:61-66 | the element walk returns iff every element parses, and then returns one value per element, same length and order, each the parse of its element |
| `JsonParser.ElemsFirstFailure` | src/json_parser.ts:61-66 | a failed element walk stops at the first failing index: all earlier elements parsed, and the path is that index's decimal text followed by the element's own path |
| `JsonParser.FieldsAccepted` | src/json_parser.ts:74-80 | the property walk returns iff the value of every key parses |
| `JsonParser.FieldsOutput` | src/json_parser.ts:74-80 | the returned record has exactly the input's keys, in order, each with the parse of that key's value |
| `JsonParser.FieldsFirstFailure` | src/json_parser.ts:74-80 | a failed property walk stops at the first failing key, which heads the path |
| `JsonParser.MembersAccepted` | src/json_parser.ts:44-54 | a record built member by member returns iff every member's value parses, with the member names in order |
| `JsonParser.MembersFirstFailure` | src/json_parser.ts:44-54 | a failed record stops at the first failing member, whose name heads the path |
| `JsonParser.ElemsRejectedStays` | src/json_parser.ts:61-66 | after the first throw no later element is parsed: the verdict stays the first failure |
| `JsonParser.FieldsRejectedStays` | src/json_parser.ts:75-79 | after the first throw no later property is parsed |
| `JsonParser.MembersRejectedStays` | src/json_parser.ts:50-53 | after the first throw no later member is parsed |
| `JsonParser.AcceptsIffConforms` | src/json_parser.ts:26-29 | a type parser returns normally exactly on the values that conform to it, a predicate stated on the value alone |
| `JsonParser.FailureLocated` | src/json_parser.ts:30-39 | the path left on the stack leads, by property access, to a value that fails the check named in the message, and the message shows that value |
| `JsonParser.ParseOutputIsFixed` | src/json_parser.ts:61-80 | round trip: a parser's own output, parsed again by the same parser, comes back unchanged |
| `JsonParser.NestedFailureExample` | src/json_parser.ts:26-39 | member "a" holding `["x", 3]` fails with path a, 1, the message "Expected a string, got: 3" and the prefix "a.1: " |
| `JsonParser.Stack.constructor` | src/json_parser.ts:27 | a parse starts from an empty stack |
| `JsonParser.Stack.Push` | src/json_parser.ts:50 | push appends one segment on top |
| `JsonParser.Stack.Pop` | src/json_parser.ts:52 | pop removes the top segment and returns it; an empty stack stays empty |
| `JsonParser.RunParser` | src/json_parser.ts:29 | a type parser that returns leaves the stack as it found it; one that throws leaves the failure's path on top of it |
| `JsonParser.AssertMember` | src/json_parser.ts:44-54 | on success the stack is restored and the member's parse is returned; on a throw the member name stays pushed, followed by the inner path |
| `JsonParser.AssertArrayContents` | src/json_parser.ts:56-67 | on success the stack is restored and the element parses are returned in order; on the first throw its decimal index stays pushed |
| `JsonParser.AssertObjectContents` | src/json_parser.ts:69-81 | on success the stack is restored and the record of parsed values is returned; on the first throw its key stays pushed |
| `JsonParser.Parser.constructor` | src/json_parser.ts:22-24 | the parser keeps the type parser it is given |
| `JsonParser.Parser.Parse` | src/json_parser.ts:26-41 | ok with the parsed data iff the data conforms; otherwise an error that is the stack prefix of a path plus a message, where the path leads to a value that fails the named check |
| `Agreement.ChecksAgree` | src/json_parser.ts:83-116 | each `assert*` check returns iff the validator of the same kind in src/index.ts succeeds, with the same value, and its message ends with that validator's `found` text |
| `Agreement.IsEmptyAgrees` | src/json_parser.ts:122-124 | `isEmpty` holds exactly where `undefinedVal` or `nullVal` succeeds, that is on null and undefined |

## Left out

- The combinators imported by the test files but absent from `src/index.ts`
  (`or`, `optional`, `emptyVal`, `member`, `allElements`, `allFields`,
  `elements`, `fields`, `chain`, `stringVal`, `numberVal`, `booleanVal`) are
  not part of this model. Their source is not present.
- The `ts-results` library is a foreign dependency. It is replaced by the
  datatype `Validators.Result`.
- Numbers are integers. Floating point, NaN, infinities, `-0` and exponent
  notation in `JSON.stringify` and `${n}` are not modelled.
- Array lengths and indices are unbounded. JavaScript array indices stop
  below 2^32 - 1.
- `Render` escapes only the double quote and the backslash. `JSON.stringify`
  also escapes control characters; that is not modelled.
- `Paths.IndexedPathQuotedRoundTrip`: holds only for keys without a double
  quote. The source does not escape keys, so a key containing `"]` gives an
  ambiguous path.
- `Paths.MemberPathRoundTrip`: holds only for names without a dot, for the
  same reason.
- `JsonParser.StackPrefix`: no round trip is stated. The source joins the
  stack with dots and does not escape keys, so a key containing a dot gives
  the same prefix as two segments (`a.b: ` for both `["a.b"]` and
  `["a", "b"]`).
- `Validators.Pe`: `found` for undefined is the text `undefined`, while
  `JSON.stringify(undefined)` returns the JavaScript value `undefined`, not
  a string. This reaches all seven validators through `RejectsAtRoot`. In
  `fail` the two agree, because the concatenation turns the value
  `undefined` into the text `undefined`.
- The `instanceof Error` / `typeof error === "string"` dispatch in
  `Parser.parse`. Every throw in the model is an Error with a message, so the
  other branches cannot occur.
- Arbitrary type-parser closures. A closure that catches exceptions, or that
  uses the stack other than through the functions of the module, is outside
  `Shape`.
- JavaScript property access beyond own data properties. Inherited
  properties, `for…in` over inherited enumerable keys, and array properties
  other than indices (such as `length`) are not modelled. In `Get`, property
  access on any value that is not an array or an object yields undefined.
  JavaScript differs: access on null or undefined throws, and a string
  answers to its indices (`"ab"["0"]` is `"a"`). Reported paths only pass
  through arrays and objects, so `FailureLocated` does not depend on these
  cases. Writing a property is a different matter; see the
  `JsonParser.FieldsOutput` line below.
- `JsonParser.FieldsOutput`: every `result[key] = …` is modelled as creating
  an own property. For the key `__proto__`, JavaScript instead calls the
  inherited setter, which changes the record's prototype and creates no key.
  So for an input with an own `__proto__` property (as `JSON.parse`
  produces), the source's record lacks that key while the model keeps it.
  The same holds for `JsonParser.AssertObjectContents`.
- Objects are property lists in the order the model builds them.
  JavaScript objects never repeat a key; the model does not need that
  invariant. `Lookup` takes the first property with a key.
- `JsonParser.MembersAccepted`: the record built for a `Struct` lists its
  members in member order. A JavaScript object enumerates array-index names
  first, in ascending order, then the other names in insertion order. For
  members `b` then `0`, the model's record is `b, 0` where JavaScript
  enumerates `0, b`. So `Render` of such a record, and a later `ObjectOf`
  walk over it, see a different order than the source would. The same holds
  for `JsonParser.FieldsOutput` when the input list is not already in that
  order.
- `JsonParser.ParseOutputIsFixed`: assumes distinct member names in every
  `Struct`. This is always so for the TypeScript object literal that builds
  the record, because TypeScript rejects duplicate keys there.
- `JsonParser.Unwrap`: an err result gives a thrown outcome rather than a
  precondition.
- Test files, the type-error fixtures under `failures/`, `jest.config.js` and
  the `console.log` calls in tests have no runtime behaviour to model.
