/** The member-level `HasIndirectConversion` attribute: the derived member's
    type is converted through a named method, on the member's own type (two
    arguments) or on an external converter type (three arguments). */
module HasIndirectConversion {
  import opened Wrappers
  import opened Syntax
  import opened AttributeVisitor

  /** The attribute's settings; every string is nullable. */
  datatype HasIndirectConversionAttribute = HasIndirectConversionAttribute(
    converterType: Option<string>,
    methodsName: Option<string>,
    convertedType: Option<string>)

  /** The two-argument constructor: no converter type. */
  function WithMethod(methodName: Option<string>, convertedType: Option<string>): (a: HasIndirectConversionAttribute)
    ensures a.converterType == None
    ensures a.methodsName == methodName && a.convertedType == convertedType
  {
    HasIndirectConversionAttribute(None, methodName, convertedType)
  }

  /** The three-argument constructor stores all three values unchanged. */
  function WithConverter(converterType: Option<string>, methodName: Option<string>, convertedType: Option<string>): (a: HasIndirectConversionAttribute)
    ensures a.converterType == converterType
    ensures a.methodsName == methodName && a.convertedType == convertedType
  {
    HasIndirectConversionAttribute(converterType, methodName, convertedType)
  }

  /** The value of a field argument as a string, when it is not an `int`. */
  predicate IsStringOrNull(v: Option<Value>) {
    !(v.Some? && v.value.Int?)
  }

  function TextOf(v: Option<Value>): Option<string>
    requires IsStringOrNull(v)
  {
    if v.Some? then Some(v.value.text) else None
  }

  /** `GetAttributeWith2Args`: method name from field argument 0 and converted
      type from field argument 1, by position. */
  function GetAttributeWith2Args(data: AttributeData): (r: Result<HasIndirectConversionAttribute, Error>)
    ensures var args := data.fieldArguments;
      r.Success? <==> |args| >= 2 && IsStringOrNull(args[0].value) && IsStringOrNull(args[1].value)
    ensures var args := data.fieldArguments;
      r.Success? ==> r.value == WithMethod(TextOf(args[0].value), TextOf(args[1].value))
    ensures |data.fieldArguments| < 2 ==> r == Failure(IndexOutOfRange)
  {
    var slots :- CopyLeadingArguments(data.fieldArguments, [None, None], 0);
    var methodName :- CastToString(slots[0]);
    var convertedType :- CastToString(slots[1]);
    Success(WithMethod(methodName, convertedType))
  }

  /** `GetAttributeWith3Args`: the copy loop stops after two slots, so the
      converter type comes from field argument 0, the method name from field
      argument 1, and the converted type stays null. */
  function GetAttributeWith3Args(data: AttributeData): (r: Result<HasIndirectConversionAttribute, Error>)
    ensures var args := data.fieldArguments;
      r.Success? <==> |args| >= 2 && IsStringOrNull(args[0].value) && IsStringOrNull(args[1].value)
    ensures var args := data.fieldArguments;
      r.Success? ==> r.value == WithConverter(TextOf(args[0].value), TextOf(args[1].value), None)
    ensures |data.fieldArguments| < 2 ==> r == Failure(IndexOutOfRange)
  {
    var slots :- CopyLeadingArguments(data.fieldArguments, [None, None, None], 0);
    var converterType :- CastToString(slots[0]);
    var methodName :- CastToString(slots[1]);
    // slot 2 is never written, so its cast always yields null
    var convertedType := CastToString(slots[2]).value;
    Success(WithConverter(converterType, methodName, convertedType))
  }

  /** `GetAttributeFromData`: a null field argument is rejected; exactly two
      field arguments select the two-argument form, any other count the
      three-argument path. */
  function GetAttributeFromData(data: AttributeData): (r: Result<HasIndirectConversionAttribute, Error>)
    ensures HasNullValue(data.fieldArguments) ==> r == Failure(ArgumentNull)
    ensures !HasNullValue(data.fieldArguments) && |data.fieldArguments| == 2 ==> r == GetAttributeWith2Args(data)
    ensures !HasNullValue(data.fieldArguments) && |data.fieldArguments| != 2 ==> r == GetAttributeWith3Args(data)
    ensures r.Success? ==> r.value.methodsName.Some?
  {
    if HasNullValue(data.fieldArguments) then Failure(ArgumentNull)
    else if |data.fieldArguments| == 2 then GetAttributeWith2Args(data)
    else GetAttributeWith3Args(data)
  }

  /** The three-argument path drops the converted type even when the third
      argument is a non-null string. */
  lemma ThirdArgumentIsLost(data: AttributeData, converter: string, methodName: string, converted: string)
    requires data.fieldArguments == [
      NamedValue("0", Some(Str(converter))),
      NamedValue("1", Some(Str(methodName))),
      NamedValue("2", Some(Str(converted)))]
    ensures GetAttributeFromData(data) == Success(HasIndirectConversionAttribute(Some(converter), Some(methodName), None))
  {
    assert !HasNullValue(data.fieldArguments);
  }

  /** With two arguments the converter type is null and both strings land by position. */
  lemma TwoArgumentsByPosition(data: AttributeData, methodName: string, converted: string)
    requires data.fieldArguments == [
      NamedValue("convertedType", Some(Str(methodName))),
      NamedValue("methodName", Some(Str(converted)))]
    ensures GetAttributeFromData(data) == Success(HasIndirectConversionAttribute(None, Some(methodName), Some(converted)))
  {
    assert !HasNullValue(data.fieldArguments);
  }
}
