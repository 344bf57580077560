/** `NullableIntegerField`: an integer column of the jobs table whose
    database value may be the empty string, which the field reads as
    `None`.

    What Django's `IntegerField` does with other values is not modelled:
    its conversions are passed in as parameters.
 */
module NullableInteger {
  import opened Wrappers

  /** A value as the database driver or a caller hands it to the field. */
  datatype DbValue = NoneValue | Text(s: string) | Integer(i: int)

  /** Python's `value == ''`: only the empty string is equal to it. */
  predicate IsEmptyString(value: DbValue) {
    value == Text("")
  }

  /** `from_db_value(value, expression, connection)`. `parentFromDb` is the
      parent's `from_db_value` when `hasattr(super(), 'from_db_value')`
      holds, and `None` otherwise. */
  function FromDbValue(value: DbValue, parentFromDb: Option<DbValue -> DbValue>): (r: DbValue)
    ensures IsEmptyString(value) ==> r == NoneValue
    ensures !IsEmptyString(value) && parentFromDb.Some? ==> r == parentFromDb.value(value)
    ensures parentFromDb.None? ==> !IsEmptyString(r)
  {
    if IsEmptyString(value) then NoneValue
    else if parentFromDb.Some? then parentFromDb.value(value)
    else value
  }

  /** The conversion error `IntegerField.to_python` raises. */
  datatype ValidationError = ValidationError(value: DbValue)

  /** `to_python(value)`, with the parent's `to_python` as a parameter. */
  function ToPython(value: DbValue, parentToPython: DbValue -> Result<DbValue, ValidationError>): (r: Result<DbValue, ValidationError>)
    ensures IsEmptyString(value) ==> r == Success(NoneValue)
    ensures !IsEmptyString(value) ==> r == parentToPython(value)
  {
    if IsEmptyString(value) then Success(NoneValue) else parentToPython(value)
  }

  /** Without a parent conversion, reading from the database changes
      nothing but the empty string, and reading twice is reading once. */
  lemma FromDbValueWithoutParent(value: DbValue)
    ensures !IsEmptyString(value) ==> FromDbValue(value, None) == value
    ensures FromDbValue(FromDbValue(value, None), None) == FromDbValue(value, None)
  {
  }

  /** The empty string never reaches the parent: whatever the parent
      conversions are, both entry points read it as `None`. */
  lemma EmptyStringIndependentOfParent(
      fromDb1: Option<DbValue -> DbValue>, fromDb2: Option<DbValue -> DbValue>,
      toPython1: DbValue -> Result<DbValue, ValidationError>, toPython2: DbValue -> Result<DbValue, ValidationError>)
    ensures FromDbValue(Text(""), fromDb1) == FromDbValue(Text(""), fromDb2) == NoneValue
    ensures ToPython(Text(""), toPython1) == ToPython(Text(""), toPython2) == Success(NoneValue)
  {
  }

  /** The test is equality with `''`, not falsiness: `0`, `None` and a
      blank string are passed on. */
  lemma OnlyEmptyStringIsNone(toPython: DbValue -> Result<DbValue, ValidationError>)
    ensures FromDbValue(Integer(0), None) == Integer(0)
    ensures FromDbValue(Text(" "), None) == Text(" ")
    ensures ToPython(Integer(0), toPython) == toPython(Integer(0))
    ensures ToPython(NoneValue, toPython) == toPython(NoneValue)
  {
  }
}
