/** The descriptor of one model class: its derived name from the `HasDTO`
    template, its conversion flags, the members the derived class keeps, the
    ignored `required` members and the readable property names. */
module DtoModelData {
  import opened Wrappers
  import opened Syntax
  import opened Strings
  import opened Sequences
  import HasDtoAttribute
  import IdentifierNameVisitor

  const DTOIgnoreNames: set<string> := {"DTOIgnore", "DTOIgnoreAttribute"}

  /** The keys of the binding table, in insertion order. */
  const DTOClassNameKey: string := "dtoClassname"
  const ConversionFormKey: string := "conversionForm"
  const SlotCount: nat := 2

  datatype DTOModelData = DTOModelData(
    modelName: string,
    dtoName: string,
    propertiesNames: seq<string>,
    ignoredRequired: seq<string>,
    members: seq<MemberDecl>,
    conversion: HasDtoAttribute.ConversionForm)

  // ----- the class attribute -----

  /** The attribute is written `HasDTO` or `HasDTOAttribute`, exactly. */
  predicate IsHasDTO(a: Attribute) {
    WrittenName(a) == "HasDTO" || WrittenName(a) == "HasDTOAttribute"
  }

  function HasDTOSpelling(): Attribute -> bool {
    (a: Attribute) => IsHasDTO(a)
  }

  /** `GetHasDTOAttribute`'s selection: the class's only `HasDTO` attribute;
      none or several throw an InvalidOperationException. */
  function FindHasDTO(t: TypeDecl): (r: Result<Attribute, Error>)
    ensures r.Success? <==> |Filter(AllAttributes(t.attributeLists), HasDTOSpelling())| == 1
    ensures r.Success? ==> r.value in AllAttributes(t.attributeLists) && IsHasDTO(r.value)
    ensures r.Failure? ==> r.error == InvalidOperation
  {
    var matches := Filter(AllAttributes(t.attributeLists), HasDTOSpelling());
    if |matches| == 1 then
      FilterMembership(AllAttributes(t.attributeLists), HasDTOSpelling(), matches[0]);
      Success(matches[0])
    else Failure(InvalidOperation)
  }

  /** Two `HasDTO` attributes, in either spelling, are rejected. */
  lemma TwoHasDTOAttributesFail(t: TypeDecl, i: nat, j: nat)
    requires i < j < |AllAttributes(t.attributeLists)|
    requires IsHasDTO(AllAttributes(t.attributeLists)[i]) && IsHasDTO(AllAttributes(t.attributeLists)[j])
    ensures FindHasDTO(t) == Failure(InvalidOperation)
  {
    var all := AllAttributes(t.attributeLists);
    var keep := HasDTOSpelling();
    assert all == all[..j] + all[j..];
    FilterConcat(all[..j], all[j..], keep);
    FilterMembership(all[..j], keep, all[i]);
    FilterMembership(all[j..], keep, all[j]);
    assert all[i] == all[..j][i];
    assert all[j] == all[j..][0];
  }

  // ----- binding the attribute's arguments -----

  /** The table's initial values: the default template and `Explicit`. */
  const DefaultSlots: seq<Option<Value>> := [Some(Str(HasDtoAttribute.DefaultDTOClassName)), Some(Int(1))]

  /** The slot the argument at `index` writes: a `name:` argument writes the
      slot of its key, or none for an unknown key; every other argument,
      `Name =` ones included, writes the slot at its position. */
  function SlotOf(a: Argument, index: nat): Option<nat> {
    match a.form
    case NameColon(name) =>
      if name == DTOClassNameKey then Some(0)
      else if name == ConversionFormKey then Some(1)
      else None
    case _ => Some(index)
  }

  predicate Writes(args: seq<Argument>, i: nat, k: nat)
    requires i < |args|
  {
    SlotOf(args[i], i) == Some(k)
  }

  /** The loop of `GetHasDTOData`: the table after every argument has written
      its slot; a position past the table throws an ArgumentOutOfRangeException. */
  function BindArguments(args: seq<Argument>): (r: Result<seq<Option<Value>>, Error>)
    ensures r.Success? <==> forall i :: 0 <= i < |args| && !args[i].form.NameColon? ==> i < SlotCount
    ensures r.Failure? ==> r.error == ArgumentOutOfRange
    ensures r.Success? ==> |r.value| == SlotCount
    decreases |args|
  {
    if |args| == 0 then Success(DefaultSlots)
    else
      var n := |args| - 1;
      var slots :- BindArguments(args[..n]);
      match SlotOf(args[n], n)
      case None => Success(slots)
      case Some(k) =>
        if k < SlotCount then Success(slots[k := ConstantValueOf(args[n].expr)])
        else Failure(ArgumentOutOfRange)
  }

  /** One step of the loop: the last argument overwrites its slot and leaves
      the other unchanged. */
  lemma BindStep(args: seq<Argument>, k: nat)
    requires |args| > 0 && k < SlotCount
    requires BindArguments(args).Success?
    ensures BindArguments(args[..|args| - 1]).Success?
    ensures BindArguments(args).value[k] ==
      if Writes(args, |args| - 1, k) then ConstantValueOf(args[|args| - 1].expr)
      else BindArguments(args[..|args| - 1]).value[k]
  {
    var n := |args| - 1;
    var previous := BindArguments(args[..n]);
    assert previous.Success?;
    var value := ConstantValueOf(args[n].expr);
    match SlotOf(args[n], n)
    case None =>
      assert BindArguments(args) == previous;
    case Some(j) =>
      assert j < SlotCount;
      assert BindArguments(args) == Success(previous.value[j := value]);
  }

  /** A slot no argument writes keeps its default. */
  lemma {:induction false} UnwrittenSlotKeepsDefault(args: seq<Argument>, k: nat)
    requires k < SlotCount
    requires BindArguments(args).Success?
    requires forall i :: 0 <= i < |args| ==> !Writes(args, i, k)
    ensures BindArguments(args).value[k] == DefaultSlots[k]
    decreases |args|
  {
    if |args| > 0 {
      var n := |args| - 1;
      BindStep(args, k);
      forall i | 0 <= i < n
        ensures !Writes(args[..n], i, k)
      {
        assert !Writes(args, i, k);
        assert args[..n][i] == args[i];
      }
      UnwrittenSlotKeepsDefault(args[..n], k);
    }
  }

  /** A slot holds the value of the last argument that writes it. */
  lemma {:induction false} LastWriterWins(args: seq<Argument>, k: nat, i: nat)
    requires k < SlotCount
    requires BindArguments(args).Success?
    requires i < |args| && Writes(args, i, k)
    requires forall j :: i < j < |args| ==> !Writes(args, j, k)
    ensures BindArguments(args).value[k] == ConstantValueOf(args[i].expr)
    decreases |args|
  {
    var n := |args| - 1;
    BindStep(args, k);
    if i < n {
      var init := args[..n];
      assert init[i] == args[i];
      forall j | i < j < n
        ensures !Writes(init, j, k)
      {
        assert !Writes(args, j, k);
        assert init[j] == args[j];
      }
      LastWriterWins(init, k, i);
    }
  }

  /** `GetHasDTOData`: the table cast to the attribute's two settings; a
      non-string template throws an InvalidCastException, a null form a
      NullReferenceException and a string form an InvalidCastException. */
  function GetHasDTOData(attribute: Attribute): (r: Result<HasDtoAttribute.HasDTOAttribute, Error>)
    ensures |attribute.args| == 0 ==> r == Success(HasDtoAttribute.Default())
    ensures BindArguments(attribute.args).Failure? ==> r == Failure(ArgumentOutOfRange)
    ensures r.Success? ==> BindArguments(attribute.args).Success?
    ensures BindArguments(attribute.args).Success? ==> var slots := BindArguments(attribute.args).value;
      && (r.Success? <==> !(slots[0].Some? && slots[0].value.Int?) && slots[1].Some? && slots[1].value.Int?)
      && (slots[0].Some? && slots[0].value.Int? ==> r == Failure(InvalidCast))
      && (!(slots[0].Some? && slots[0].value.Int?) && slots[1].None? ==> r == Failure(NullReference))
      && (!(slots[0].Some? && slots[0].value.Int?) && slots[1].Some? && slots[1].value.Str? ==> r == Failure(InvalidCast))
    ensures r.Success? ==> var slots := BindArguments(attribute.args).value;
      && slots[1].Some? && slots[1].value.Int?
      && r.value.conversionForm == HasDtoAttribute.FromInt32(slots[1].value.number)
      && (r.value.dtoClassName.Some? <==> slots[0].Some?)
      && (slots[0].Some? ==> slots[0].value == Str(r.value.dtoClassName.value))
  {
    var slots :- BindArguments(attribute.args);
    var dtoClassName :- CastToString(slots[0]);
    var form :- UnboxInt32(slots[1]);
    Success(HasDtoAttribute.HasDTOAttribute(dtoClassName, HasDtoAttribute.FromInt32(form)))
  }

  /** A `Name =` argument binds by position: `ConversionForm = …` written
      first lands in the template slot, and the cast of the flag value to a
      string fails. */
  lemma NamedPropertyBindsByPosition(attribute: Attribute, form: Int32)
    requires attribute.args == [Argument(NameEquals("ConversionForm"), Constant(Int(form)))]
    ensures BindArguments(attribute.args) == Success([Some(Int(form)), Some(Int(1))])
    ensures GetHasDTOData(attribute) == Failure(InvalidCast)
  {
    assert attribute.args[..0] == [];
    assert BindArguments(attribute.args[..0]) == Success(DefaultSlots);
    assert SlotOf(attribute.args[0], 0) == Some(0);
    assert DefaultSlots[0 := Some(Int(form))] == [Some(Int(form)), Some(Int(1))];
  }

  /** A `name:` argument binds by key wherever it is written. */
  lemma NamedArgumentBindsByKey(attribute: Attribute, template: string)
    requires attribute.args == [
      Argument(NameColon("conversionForm"), Constant(Int(2))),
      Argument(NameColon("dtoClassname"), Constant(Str(template)))]
    ensures GetHasDTOData(attribute) == Success(HasDtoAttribute.HasDTOAttribute(Some(template), HasDtoAttribute.Implicit))
  {
    var first := [Some(Str(HasDtoAttribute.DefaultDTOClassName)), Some(Int(2))];
    assert attribute.args[..1] == [attribute.args[0]];
    assert attribute.args[..1][..0] == [];
    assert BindArguments(attribute.args[..1]) == Success(first) by {
      assert BindArguments(attribute.args[..1][..0]) == Success(DefaultSlots);
      assert DefaultSlots[1 := Some(Int(2))] == first;
    }
    assert first[0 := Some(Str(template))] == [Some(Str(template)), Some(Int(2))];
    assert BindArguments(attribute.args) == Success([Some(Str(template)), Some(Int(2))]);
    assert HasDtoAttribute.FromInt32(2) == HasDtoAttribute.Implicit;
  }

  // ----- the members -----

  /** The attribute's name, which must be a simple identifier. */
  predicate IsSimpleName(a: Attribute) {
    a.name.IdentifierName?
  }

  /** The member carries `DTOIgnore` or `DTOIgnoreAttribute`. */
  predicate IsIgnored(m: MemberDecl) {
    exists a :: a in AllAttributes(m.attributeLists) && a.name.IdentifierName? && a.name.identifier in DTOIgnoreNames
  }

  /** Every attribute of every field and property is written as a simple identifier. */
  predicate AllSimpleNames(members: seq<MemberDecl>) {
    forall i, a :: 0 <= i < |members| && IsFieldOrProperty(members[i]) && a in AllAttributes(members[i].attributeLists) ==> IsSimpleName(a)
  }

  function Kept(): MemberDecl -> bool {
    (m: MemberDecl) => IsFieldOrProperty(m) && !IsIgnored(m)
  }

  function IgnoredRequiredMember(): MemberDecl -> bool {
    (m: MemberDecl) => IsFieldOrProperty(m) && IsIgnored(m) && m.isRequired
  }

  /** `GetPropertiesAndFields`: the kept fields and properties, and the names
      of the ignored `required` ones, both in source order. An attribute name
      that is not a simple identifier throws an InvalidCastException. */
  function GetPropertiesAndFields(members: seq<MemberDecl>): (r: Result<(seq<MemberDecl>, seq<string>), Error>)
    ensures r.Success? <==> AllSimpleNames(members)
    ensures r.Failure? ==> r.error == InvalidCast
    ensures r.Success? ==> r.value.0 == Filter(members, Kept())
    ensures r.Success? ==> r.value.1 == Map(Filter(members, IgnoredRequiredMember()), IdentifierNameVisitor.NameOrEmpty)
    decreases |members|
  {
    if |members| == 0 then Success(([], []))
    else
      var n := |members| - 1;
      var m := members[n];
      var split :- GetPropertiesAndFields(members[..n]);
      if !IsFieldOrProperty(m) then Success(split)
      else if exists a :: a in AllAttributes(m.attributeLists) && !IsSimpleName(a) then Failure(InvalidCast)
      else if !IsIgnored(m) then Success((split.0 + [m], split.1))
      else if m.isRequired then Success((split.0, split.1 + [IdentifierNameVisitor.NameOrEmpty(m)]))
      else Success(split)
  }

  /** A property that has a `get` accessor. */
  function ReadableProperty(): MemberDecl -> bool {
    (m: MemberDecl) => m.kind.Property? && m.kind.hasGetAccessor
  }

  /** `GetMembersNames`: the identifiers of the properties with a `get`
      accessor, in order; fields and accessor-less properties give nothing. */
  function GetMembersNames(members: seq<MemberDecl>): (names: seq<string>)
    ensures names == Map(Filter(members, ReadableProperty()), IdentifierNameVisitor.NameOrEmpty)
    decreases |members|
  {
    if |members| == 0 then []
    else
      var m := members[|members| - 1];
      GetMembersNames(members[..|members| - 1]) + (if m.kind.Property? && m.kind.hasGetAccessor then [m.kind.identifier] else [])
  }

  /** The property names are an ordered selection of the members' names. */
  lemma {:induction false} PropertiesNamesAreMemberNames(members: seq<MemberDecl>)
    ensures IsSubsequence(GetMembersNames(members), Map(members, IdentifierNameVisitor.NameOrEmpty))
    decreases |members|
  {
    if |members| > 0 {
      var n := |members| - 1;
      var m := members[n];
      var init := GetMembersNames(members[..n]);
      var names := Map(members[..n], IdentifierNameVisitor.NameOrEmpty);
      assert IsSubsequence(init, names) by {
        PropertiesNamesAreMemberNames(members[..n]);
      }
      assert Map(members, IdentifierNameVisitor.NameOrEmpty) == names + [IdentifierNameVisitor.NameOrEmpty(m)];
      if m.kind.Property? && m.kind.hasGetAccessor {
        assert GetMembersNames(members) == init + [m.kind.identifier];
        assert IdentifierNameVisitor.NameOrEmpty(m) == m.kind.identifier;
        SubsequenceAppendBoth(init, names, m.kind.identifier);
      } else {
        assert GetMembersNames(members) == init;
        SubsequenceAppendRight(init, names, IdentifierNameVisitor.NameOrEmpty(m));
      }
    }
  }

  // ----- the descriptor -----

  /** `GetDTOModelData`: the class attribute first, then the members, then the
      template with every "[class]" replaced by the class's identifier; a
      null template throws a NullReferenceException. */
  function GetDTOModelData(t: TypeDecl): (r: Result<DTOModelData, Error>)
    ensures r.Success? <==>
      && FindHasDTO(t).Success?
      && GetHasDTOData(FindHasDTO(t).value).Success?
      && AllSimpleNames(t.members)
      && GetHasDTOData(FindHasDTO(t).value).value.dtoClassName.Some?
    ensures r.Success? ==> var attribute := GetHasDTOData(FindHasDTO(t).value).value;
      && r.value.modelName == t.identifier
      && r.value.dtoName == Replace(attribute.dtoClassName.value, HasDtoAttribute.ClassPlaceholder, t.identifier)
      && r.value.conversion == attribute.conversionForm
      && r.value.members == Filter(t.members, Kept())
      && r.value.ignoredRequired == Map(Filter(t.members, IgnoredRequiredMember()), IdentifierNameVisitor.NameOrEmpty)
      && r.value.propertiesNames == Map(Filter(r.value.members, ReadableProperty()), IdentifierNameVisitor.NameOrEmpty)
  {
    var syntax :- FindHasDTO(t);
    var attribute :- GetHasDTOData(syntax);
    var split :- GetPropertiesAndFields(t.members);
    if attribute.dtoClassName.None? then Failure(NullReference)
    else
      Success(DTOModelData(
        t.identifier,
        Replace(attribute.dtoClassName.value, HasDtoAttribute.ClassPlaceholder, t.identifier),
        GetMembersNames(split.0),
        split.1,
        split.0,
        attribute.conversionForm))
  }

  lemma PlaceholderIsBorderFree()
    ensures BorderFree(HasDtoAttribute.ClassPlaceholder)
  {
    UniqueHeadIsBorderFree(HasDtoAttribute.ClassPlaceholder);
  }

  /** The default template names the derived class after the model plus "DTO". */
  lemma DefaultTemplateAppendsDTO(modelName: string)
    ensures Replace(HasDtoAttribute.DefaultDTOClassName, HasDtoAttribute.ClassPlaceholder, modelName) == modelName + "DTO"
  {
    PlaceholderIsBorderFree();
    assert !Contains("", HasDtoAttribute.ClassPlaceholder);
    ReplaceAfterCleanPrefix("", HasDtoAttribute.ClassPlaceholder, modelName, "DTO");
    assert !Contains("DTO", HasDtoAttribute.ClassPlaceholder);
    ReplaceWithoutOccurrence("DTO", HasDtoAttribute.ClassPlaceholder, modelName);
    assert "" + HasDtoAttribute.ClassPlaceholder + "DTO" == HasDtoAttribute.DefaultDTOClassName;
  }

  /** A template without the placeholder is the derived name as written. */
  lemma FixedTemplateIsKept(template: string, modelName: string)
    requires !Contains(template, HasDtoAttribute.ClassPlaceholder)
    ensures Replace(template, HasDtoAttribute.ClassPlaceholder, modelName) == template
  {
    ReplaceWithoutOccurrence(template, HasDtoAttribute.ClassPlaceholder, modelName);
  }
}
