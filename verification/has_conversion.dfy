/** The member-level `HasConversion` attribute: the derived member swaps its
    type, converted in the given `HasConversionForm`. */
module HasConversion {
  import opened Wrappers
  import opened Syntax
  import opened AttributeVisitor

  /** `HasConversionForm`, a plain (non-flag) enum over `int`. */
  type HasConversionForm = Int32

  const Explicit: HasConversionForm := 0
  const Implicit: HasConversionForm := 1
  const StaticMethods: HasConversionForm := 2

  /** The constructor stores both values unchanged. */
  datatype HasConversionAttribute = HasConversionAttribute(conversionForm: HasConversionForm, convertedType: Option<string>)

  lemma FormsAreDistinct()
    ensures Explicit != Implicit && Implicit != StaticMethods && Explicit != StaticMethods
  {
  }

  /** `GetAttributeFromData`: rejects any null field argument, then takes the
      form from field argument 0 and the converted type from field argument 1,
      whatever their names; later field arguments are ignored. */
  function GetAttributeFromData(data: AttributeData): (r: Result<HasConversionAttribute, Error>)
    ensures HasNullValue(data.fieldArguments) ==> r == Failure(ArgumentNull)
    ensures !HasNullValue(data.fieldArguments) && |data.fieldArguments| < 2 ==> r == Failure(IndexOutOfRange)
    ensures r.Success? <==>
      && !HasNullValue(data.fieldArguments)
      && |data.fieldArguments| >= 2
      && data.fieldArguments[0].value.value.Int?
      && data.fieldArguments[1].value.value.Str?
    ensures r.Success? ==>
      && r.value.conversionForm == data.fieldArguments[0].value.value.number
      && r.value.convertedType == Some(data.fieldArguments[1].value.value.text)
  {
    if HasNullValue(data.fieldArguments) then Failure(ArgumentNull)
    else
      var slots :- CopyLeadingArguments(data.fieldArguments, [None, None], 0);
      var form :- UnboxInt32(slots[0]);
      var convertedType :- CastToString(slots[1]);
      Success(HasConversionAttribute(form, convertedType))
  }

  /** Argument names never affect placement: renaming the field arguments
      leaves the result unchanged. */
  lemma NamesDoNotAffectPlacement(data: AttributeData, renamed: seq<string>)
    requires |renamed| == |data.fieldArguments|
    ensures
      var data' := data.(fieldArguments := seq(|renamed|, k requires 0 <= k < |renamed| => NamedValue(renamed[k], data.fieldArguments[k].value)));
      GetAttributeFromData(data') == GetAttributeFromData(data)
  {
    var data' := data.(fieldArguments := seq(|renamed|, k requires 0 <= k < |renamed| => NamedValue(renamed[k], data.fieldArguments[k].value)));
    assert HasNullValue(data'.fieldArguments) <==> HasNullValue(data.fieldArguments) by {
      if HasNullValue(data.fieldArguments) {
        var k :| 0 <= k < |data.fieldArguments| && data.fieldArguments[k].value.None?;
        assert data'.fieldArguments[k].value.None?;
      }
      if HasNullValue(data'.fieldArguments) {
        var k :| 0 <= k < |data'.fieldArguments| && data'.fieldArguments[k].value.None?;
        assert data.fieldArguments[k].value.None?;
      }
    }
  }
}
