/** The two designs of the library, side by side: the result-returning
    validators and the throwing `assert*` checks of the earlier parser
    accept the same values and report the same JSON text for a rejected
    one. */
module Agreement {
  import opened Dynamic
  import V = Validators
  import P = JsonParser

  /** Each `assert*` check returns exactly when the validator of the same
      kind succeeds, with the same value, and its message ends with the
      `found` text of the validator's error. */
  lemma ChecksAgree(x: Value)
    ensures P.AssertString(x).Returned? <==> V.String(x).Ok?
    ensures P.AssertString(x).Returned? ==> P.AssertString(x).value == V.String(x).value
    ensures P.AssertString(x).Threw? ==> P.AssertString(x).message == "Expected a string" + ", got: " + V.String(x).error.found
    ensures P.AssertNumber(x).Returned? <==> V.Number(x).Ok?
    ensures P.AssertNumber(x).Returned? ==> P.AssertNumber(x).value == V.Number(x).value
    ensures P.AssertNumber(x).Threw? ==> P.AssertNumber(x).message == "Expected a number" + ", got: " + V.Number(x).error.found
    ensures P.AssertBoolean(x).Returned? <==> V.Boolean(x).Ok?
    ensures P.AssertBoolean(x).Returned? ==> P.AssertBoolean(x).value == V.Boolean(x).value
    ensures P.AssertBoolean(x).Threw? ==> P.AssertBoolean(x).message == "Expected a boolean" + ", got: " + V.Boolean(x).error.found
    ensures P.AssertObject(x).Returned? <==> V.Object(x).Ok?
    ensures P.AssertObject(x).Returned? ==> P.AssertObject(x).value == V.Object(x).value
    ensures P.AssertObject(x).Threw? ==> P.AssertObject(x).message == "Expected an Object" + ", got: " + V.Object(x).error.found
    ensures P.AssertArray(x).Returned? <==> V.Array(x).Ok?
    ensures P.AssertArray(x).Returned? ==> P.AssertArray(x).value == V.Array(x).value
    ensures P.AssertArray(x).Threw? ==> P.AssertArray(x).message == "Expected an array" + ", got: " + V.Array(x).error.found
  {
  }

  /** isEmpty holds exactly where undefinedVal or nullVal succeeds. */
  lemma IsEmptyAgrees(x: Value)
    ensures P.IsEmpty(x) <==> V.UndefinedVal(x).Ok? || V.NullVal(x).Ok?
  {
  }
}
