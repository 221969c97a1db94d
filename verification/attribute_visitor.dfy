/** Reading attributes into normalised `AttributeData`: only the accepted
    spellings are read, the "Attribute" text is stripped from the name, and
    arguments are split into field arguments (positional or `name:`) and
    property arguments (`Name =`). The visitor keeps every record it produced. */
module AttributeVisitor {
  import opened Wrappers
  import opened Syntax
  import opened Strings
  import opened Sequences
  import IdentifierNameVisitor

  const AttributeText: string := "Attribute"

  datatype NamedValue = NamedValue(name: string, value: Option<Value>)

  /** What the visitor records for one recognised attribute. */
  datatype AttributeData = AttributeData(
    targetName: Option<string>,
    attributeName: string,
    fieldArguments: seq<NamedValue>,
    propertyArguments: seq<NamedValue>)

  /** The visitor: its accepted spellings and the cumulative `AttributesData`. */
  datatype Visitor = Visitor(acceptedNames: set<string>, attributesData: seq<AttributeData>)

  /** `name.Replace("Attribute", "")`. */
  function StripAttributeText(name: string): string {
    Replace(name, AttributeText, "")
  }

  /** The constructor: the given names plus each of them with "Attribute" removed. */
  function Create(attributeNames: seq<string>): (v: Visitor)
    ensures v.attributesData == []
    ensures forall n :: n in attributeNames ==> n in v.acceptedNames
    ensures forall n :: n in attributeNames ==> StripAttributeText(n) in v.acceptedNames
    ensures forall n :: n in v.acceptedNames ==>
      n in attributeNames || exists a :: a in attributeNames && StripAttributeText(a) == n
  {
    Visitor((set n | n in attributeNames) + (set a | a in attributeNames :: StripAttributeText(a)), [])
  }

  lemma AttributeTextIsBorderFree()
    ensures BorderFree(AttributeText)
  {
    UniqueHeadIsBorderFree(AttributeText);
  }

  /** Constructed with `XAttribute` (X free of "Attribute"), the visitor
      accepts both `X` and `XAttribute`, and the record name of either is `X`. */
  lemma {:induction false} BothSpellingsAccepted(x: string, attributeNames: seq<string>)
    requires !Contains(x, AttributeText)
    requires x + AttributeText in attributeNames
    ensures x in Create(attributeNames).acceptedNames
    ensures x + AttributeText in Create(attributeNames).acceptedNames
    ensures StripAttributeText(x + AttributeText) == x
    ensures StripAttributeText(x) == x
  {
    AttributeTextIsBorderFree();
    ReplaceAfterCleanPrefix(x, AttributeText, "", "");
    assert x + AttributeText + "" == x + AttributeText;
    assert Replace("", AttributeText, "") == "";
    assert x + "" + "" == x;
    ReplaceWithoutOccurrence(x, AttributeText, "");
  }

  // ----- arguments -----

  /** The key an argument is stored under: its `name:` label or `Name =` name,
      or else its decimal position among all the arguments. */
  function ArgumentKey(form: ArgForm, index: nat): string {
    match form
    case NameColon(n) => n
    case NameEquals(n) => n
    case Positional => NatToDecimal(index)
  }

  /** The stored entry of argument `i`: its key and its constant value. The
      typeof text is never stored, so a `typeof` argument is stored as null. */
  function Entry(args: seq<Argument>, i: nat): NamedValue
    requires i < |args|
  {
    NamedValue(ArgumentKey(args[i].form, i), ConstantValueOf(args[i].expr))
  }

  /** Positions of the property arguments (`properties`) or the field arguments
      (`!properties`), in increasing order. */
  function Positions(args: seq<Argument>, properties: bool): (r: seq<nat>)
    ensures forall k :: 0 <= k < |r| ==> r[k] < |args| && args[r[k]].form.NameEquals? == properties
    ensures forall i :: 0 <= i < |args| && args[i].form.NameEquals? == properties ==> i in r
    ensures forall k, l :: 0 <= k < l < |r| ==> r[k] < r[l]
    decreases |args|
  {
    if |args| == 0 then []
    else
      var n := |args| - 1;
      Positions(args[..n], properties) + (if args[n].form.NameEquals? == properties then [n] else [])
  }

  /** The argument entries of one kind, in source order. */
  function SelectArguments(args: seq<Argument>, properties: bool): (r: seq<NamedValue>)
    ensures |r| == |Positions(args, properties)|
    ensures forall k :: 0 <= k < |r| ==> r[k] == Entry(args, Positions(args, properties)[k])
    decreases |args|
  {
    if |args| == 0 then []
    else
      var n := |args| - 1;
      var init := SelectArguments(args[..n], properties);
      assert forall k :: 0 <= k < |init| ==> init[k] == Entry(args, Positions(args[..n], properties)[k]);
      init + (if args[n].form.NameEquals? == properties then [Entry(args, n)] else [])
  }

  function FieldArguments(args: seq<Argument>): seq<NamedValue> {
    SelectArguments(args, false)
  }

  function PropertyArguments(args: seq<Argument>): seq<NamedValue> {
    SelectArguments(args, true)
  }

  /** A positional argument at position `i` is a field argument named by the
      decimal text of `i`: the count includes the named arguments before it. */
  lemma PositionalArgumentNamedByPosition(args: seq<Argument>, i: nat)
    requires i < |args|
    requires args[i].form.Positional?
    ensures NamedValue(NatToDecimal(i), ConstantValueOf(args[i].expr)) in FieldArguments(args)
  {
    var p := Positions(args, false);
    var k :| 0 <= k < |p| && p[k] == i;
    assert FieldArguments(args)[k] == Entry(args, i);
  }

  /** A `typeof` argument is stored as null whatever its written type. */
  lemma TypeOfStoredAsNull(args: seq<Argument>, i: nat)
    requires i < |args|
    requires args[i].expr.TypeOf?
    ensures Entry(args, i).value == None
  {
  }

  /** The record made for a recognised attribute on the member named `target`. */
  function DataOf(attribute: Attribute, target: Option<string>): AttributeData {
    AttributeData(
      target,
      StripAttributeText(WrittenName(attribute)),
      FieldArguments(attribute.args),
      PropertyArguments(attribute.args))
  }

  /** `VisitAttribute`: null for an unaccepted spelling; otherwise the new
      record is appended to `AttributesData` and returned on its own. */
  function VisitAttribute(v: Visitor, attribute: Attribute, target: Option<string>): (r: (Visitor, Option<seq<AttributeData>>))
    ensures r.1.None? <==> WrittenName(attribute) !in v.acceptedNames
    ensures r.1.None? ==> r.0 == v
    ensures r.1.Some? ==> r.1.value == [DataOf(attribute, target)]
    ensures r.1.Some? ==> r.1.value[0].attributeName == StripAttributeText(WrittenName(attribute))
    ensures r.1.Some? ==> r.0.acceptedNames == v.acceptedNames
    ensures r.1.Some? ==> r.0.attributesData == v.attributesData + r.1.value
  {
    if WrittenName(attribute) !in v.acceptedNames then (v, None)
    else
      var data := DataOf(attribute, target);
      (v.(attributesData := v.attributesData + [data]), Some([data]))
  }

  /** The attribute is written with one of the accepted spellings. */
  function RecognisedBy(names: set<string>): Attribute -> bool {
    a => WrittenName(a) in names
  }

  /** The record an attribute on the member named `target` yields. */
  function RecordFor(target: Option<string>): Attribute -> AttributeData {
    a => DataOf(a, target)
  }

  /** The records a visit returns for `attributes`: one per recognised attribute, in order. */
  function Records(names: set<string>, attributes: seq<Attribute>, target: Option<string>): seq<AttributeData> {
    Map(Filter(attributes, RecognisedBy(names)), RecordFor(target))
  }

  lemma RecordsSnoc(names: set<string>, init: seq<Attribute>, last: seq<Attribute>, target: Option<string>)
    ensures Records(names, init + last, target) == Records(names, init, target) + Records(names, last, target)
  {
    FilterConcat(init, last, RecognisedBy(names));
    MapConcat(Filter(init, RecognisedBy(names)), Filter(last, RecognisedBy(names)), RecordFor(target));
  }

  lemma RecordsSingleton(names: set<string>, a: Attribute, target: Option<string>)
    ensures Records(names, [a], target) == if WrittenName(a) in names then [DataOf(a, target)] else []
  {
    assert [a][..0] == [];
    var kept := Filter([a], RecognisedBy(names));
    assert kept == if WrittenName(a) in names then [a] else [];
  }

  /** `VisitAttributeList`: the records of the recognised attributes, in order. */
  function VisitAttributeList(v: Visitor, attributes: seq<Attribute>, target: Option<string>): (r: (Visitor, seq<AttributeData>))
    ensures r.0.acceptedNames == v.acceptedNames
    ensures r.0.attributesData == v.attributesData + r.1
    decreases |attributes|
  {
    if |attributes| == 0 then (v, [])
    else
      var n := |attributes| - 1;
      var before := VisitAttributeList(v, attributes[..n], target);
      var after := VisitAttribute(before.0, attributes[n], target);
      (after.0, before.1 + (if after.1.Some? then after.1.value else []))
  }

  /** A list visit returns exactly the records of the recognised attributes, in order. */
  lemma {:induction false} VisitAttributeListRecords(v: Visitor, attributes: seq<Attribute>, target: Option<string>)
    ensures VisitAttributeList(v, attributes, target).1 == Records(v.acceptedNames, attributes, target)
    decreases |attributes|
  {
    if |attributes| > 0 {
      var n := |attributes| - 1;
      VisitAttributeListRecords(v, attributes[..n], target);
      assert attributes[..n] + [attributes[n]] == attributes;
      RecordsSnoc(v.acceptedNames, attributes[..n], [attributes[n]], target);
      RecordsSingleton(v.acceptedNames, attributes[n], target);
    }
  }

  /** All attribute lists of a declaration, in order. */
  function VisitAttributeLists(v: Visitor, lists: seq<seq<Attribute>>, target: Option<string>): (r: (Visitor, seq<AttributeData>))
    ensures r.0.acceptedNames == v.acceptedNames
    ensures r.0.attributesData == v.attributesData + r.1
    decreases |lists|
  {
    if |lists| == 0 then (v, [])
    else
      var n := |lists| - 1;
      var before := VisitAttributeLists(v, lists[..n], target);
      var after := VisitAttributeList(before.0, lists[n], target);
      (after.0, before.1 + after.1)
  }

  lemma {:induction false} VisitAttributeListsRecords(v: Visitor, lists: seq<seq<Attribute>>, target: Option<string>)
    ensures VisitAttributeLists(v, lists, target).1 == Records(v.acceptedNames, AllAttributes(lists), target)
    decreases |lists|
  {
    if |lists| > 0 {
      var n := |lists| - 1;
      VisitAttributeListsRecords(v, lists[..n], target);
      VisitAttributeListRecords(VisitAttributeLists(v, lists[..n], target).0, lists[n], target);
      assert lists[..n] + [lists[n]] == lists;
      FlattenSnoc(lists[..n], lists[n]);
      RecordsSnoc(v.acceptedNames, AllAttributes(lists[..n]), lists[n], target);
    }
  }

  /** `VisitPropertyDeclaration` / `VisitFieldDeclaration`: the records of the
      recognised attributes of the member, in order, each naming the member as
      its target. Other members are not visited (null). */
  function VisitMember(v: Visitor, m: MemberDecl): (r: (Visitor, Option<seq<AttributeData>>))
    ensures r.1.Some? <==> IsFieldOrProperty(m)
    ensures r.0.acceptedNames == v.acceptedNames
    ensures r.1.None? ==> r.0 == v
    ensures r.1.Some? ==> r.0.attributesData == v.attributesData + r.1.value
    ensures r.1.Some? ==> r.1.value == Records(v.acceptedNames, AllAttributes(m.attributeLists), IdentifierNameVisitor.MemberIdentifier(m))
  {
    if !IsFieldOrProperty(m) then (v, None)
    else
      VisitAttributeListsRecords(v, m.attributeLists, IdentifierNameVisitor.MemberIdentifier(m));
      var visited := VisitAttributeLists(v, m.attributeLists, IdentifierNameVisitor.MemberIdentifier(m));
      (visited.0, Some(visited.1))
  }

  // ----- positional slot filling used by the conversion attributes -----

  /** `FieldArguments.ToList().FindIndex(t => t.name == name)`. */
  function FindIndex(args: seq<NamedValue>, name: string): (r: int)
    ensures -1 <= r < |args|
    ensures r >= 0 ==> args[r].name == name && forall j :: 0 <= j < r ==> args[j].name != name
    ensures r == -1 ==> forall j :: 0 <= j < |args| ==> args[j].name != name
    decreases |args|
  {
    if |args| == 0 then -1
    else if args[0].name == name then 0
    else
      var k := FindIndex(args[1..], name);
      if k == -1 then -1 else k + 1
  }

  /** The loop `for (i = from; i < 2; i++)` of the conversion attributes: the
      index found for argument i is replaced by i itself whenever it is found,
      and argument i's value is written into slot i. */
  function CopyLeadingArguments(args: seq<NamedValue>, slots: seq<Option<Value>>, from: nat): (r: Result<seq<Option<Value>>, Error>)
    requires from <= 2 <= |slots|
    ensures r.Success? <==> from == 2 || |args| >= 2
    ensures r.Failure? ==> r.error == IndexOutOfRange
    ensures r.Success? ==> |r.value| == |slots|
    ensures r.Success? ==> forall k :: from <= k < 2 ==> r.value[k] == args[k].value
    ensures r.Success? ==> forall k :: 0 <= k < |slots| && !(from <= k < 2) ==> r.value[k] == slots[k]
    decreases 2 - from
  {
    if from == 2 then Success(slots)
    else if from >= |args| then Failure(IndexOutOfRange)
    else
      var found := FindIndex(args, args[from].name);
      var index := if found != -1 then from as int else found;
      if index < 0 then Failure(IndexOutOfRange)
      else CopyLeadingArguments(args, slots[index := args[from].value], from + 1)
  }

  predicate HasNullValue(args: seq<NamedValue>) {
    exists k :: 0 <= k < |args| && args[k].value.None?
  }
}
