/** The older descriptor defined beside the generator: the derived name is
    always `DTO<Model>`, the conversion form comes from a reflective
    construction of the attribute, and the property names are read from the
    kept members' own identifier tokens. */
module LegacyModelData {
  import opened Wrappers
  import opened Syntax
  import opened Sequences
  import HasDtoAttribute
  import IdentifierNameVisitor
  import DtoModelData

  datatype LegacyModelData = LegacyModelData(
    modelName: string,
    propertiesNames: seq<string>,
    members: seq<MemberDecl>,
    conversion: HasDtoAttribute.ConversionForm)

  /** The derived name, `DTO<Model>`. */
  function DTOName(d: LegacyModelData): (name: string)
    ensures |name| == |d.modelName| + 5
    ensures name[..4] == "DTO<" && name[|name| - 1] == '>'
    ensures name[4..|name| - 1] == d.modelName
  {
    "DTO<" + d.modelName + ">"
  }

  /** The derived name determines the model name. */
  lemma DTONameIsInjective(d: LegacyModelData, e: LegacyModelData)
    requires DTOName(d) == DTOName(e)
    ensures d.modelName == e.modelName
  {
    assert d.modelName == DTOName(d)[4..|DTOName(d)| - 1];
  }

  /** `GetConversionForm`'s selection: the only attribute written exactly `HasDTO`. */
  function FindHasDTO(t: TypeDecl): (r: Result<Attribute, Error>)
    ensures r.Success? <==> |Filter(AllAttributes(t.attributeLists), (a: Attribute) => WrittenName(a) == "HasDTO")| == 1
    ensures r.Success? ==> r.value == Filter(AllAttributes(t.attributeLists), (a: Attribute) => WrittenName(a) == "HasDTO")[0]
    ensures r.Success? ==> r.value in AllAttributes(t.attributeLists) && WrittenName(r.value) == "HasDTO"
    ensures r.Failure? ==> r.error == InvalidOperation
    ensures (forall a :: a in AllAttributes(t.attributeLists) ==> WrittenName(a) != "HasDTO") ==> r.Failure?
  {
    var matches := Filter(AllAttributes(t.attributeLists), (a: Attribute) => WrittenName(a) == "HasDTO");
    if |matches| == 1 then
      FilterMembership(AllAttributes(t.attributeLists), (a: Attribute) => WrittenName(a) == "HasDTO", matches[0]);
      Success(matches[0])
    else Failure(InvalidOperation)
  }

  /** A class that spells its attribute `HasDTOAttribute` has no legacy
      descriptor, though the newer descriptor accepts it. */
  lemma LongSpellingRejected(t: TypeDecl, args: seq<Argument>)
    requires t.attributeLists == [[Attribute(IdentifierName("HasDTOAttribute"), args)]]
    ensures FindHasDTO(t).Failure?
    ensures DtoModelData.FindHasDTO(t).Success?
  {
    var all := AllAttributes(t.attributeLists);
    assert all == [Attribute(IdentifierName("HasDTOAttribute"), args)] by {
      assert t.attributeLists[..0] == [];
      assert Flatten(t.attributeLists) == Flatten(t.attributeLists[..0]) + t.attributeLists[0];
    }
    var keep := DtoModelData.HasDTOSpelling();
    assert all[..0] == [];
    assert Filter(all, keep) == [all[0]];
  }

  /** `GetPropertiesAndFields`: the fields and properties that carry no ignore
      attribute, in order; an attribute name that is not a simple identifier
      throws an InvalidCastException. */
  function GetPropertiesAndFields(members: seq<MemberDecl>): (r: Result<seq<MemberDecl>, Error>)
    ensures r.Success? <==> DtoModelData.AllSimpleNames(members)
    ensures r.Failure? ==> r.error == InvalidCast
    ensures r.Success? ==> r.value == Filter(members, DtoModelData.Kept())
    decreases |members|
  {
    if |members| == 0 then Success([])
    else
      var n := |members| - 1;
      var m := members[n];
      var kept :- GetPropertiesAndFields(members[..n]);
      if !IsFieldOrProperty(m) then Success(kept)
      else if exists a :: a in AllAttributes(m.attributeLists) && !DtoModelData.IsSimpleName(a) then Failure(InvalidCast)
      else if !DtoModelData.IsIgnored(m) then Success(kept + [m])
      else Success(kept)
  }

  /** Both descriptors keep the same members. */
  lemma SameMembersAsDescriptor(members: seq<MemberDecl>)
    ensures GetPropertiesAndFields(members).Success? <==> DtoModelData.GetPropertiesAndFields(members).Success?
    ensures GetPropertiesAndFields(members).Success? ==>
      GetPropertiesAndFields(members).value == DtoModelData.GetPropertiesAndFields(members).value.0
  {
  }

  /** The `PropertiesNames` projection: each member's single identifier token.
      A field's identifier sits inside its declarator, so a field has none and
      `Single` throws an InvalidOperationException. */
  function PropertiesNames(members: seq<MemberDecl>): (r: Result<seq<string>, Error>)
    requires forall i :: 0 <= i < |members| ==> IsFieldOrProperty(members[i])
    ensures r.Success? <==> forall i :: 0 <= i < |members| ==> members[i].kind.Property?
    ensures r.Failure? ==> r.error == InvalidOperation
    ensures r.Success? ==> r.value == Map(members, IdentifierNameVisitor.NameOrEmpty)
    decreases |members|
  {
    if |members| == 0 then Success([])
    else
      var n := |members| - 1;
      var names :- PropertiesNames(members[..n]);
      assert IsFieldOrProperty(members[n]);
      if members[n].kind.Field? then Failure(InvalidOperation)
      else Success(names + [members[n].kind.identifier])
  }

  /** `GetDTOModelData`. The reflective construction of the attribute is not
      modelled: `construct` stands for it and yields the conversion form or
      the exception it throws. */
  function GetDTOModelData(t: TypeDecl, construct: Attribute -> Result<HasDtoAttribute.ConversionForm, Error>): (r: Result<LegacyModelData, Error>)
    ensures r.Success? <==>
      && FindHasDTO(t).Success?
      && construct(FindHasDTO(t).value).Success?
      && DtoModelData.AllSimpleNames(t.members)
      && forall m :: m in Filter(t.members, DtoModelData.Kept()) ==> m.kind.Property?
    ensures r.Success? ==>
      && r.value.modelName == t.identifier
      && r.value.conversion == construct(FindHasDTO(t).value).value
      && r.value.members == Filter(t.members, DtoModelData.Kept())
      && r.value.propertiesNames == Map(r.value.members, IdentifierNameVisitor.NameOrEmpty)
  {
    var syntax :- FindHasDTO(t);
    var conversion :- construct(syntax);
    var members :- GetPropertiesAndFields(t.members);
    var names :- PropertiesNames(members);
    Success(LegacyModelData(t.identifier, names, members, conversion))
  }

  /** A kept field makes the legacy descriptor fail, whatever else the class holds. */
  lemma KeptFieldFails(t: TypeDecl, construct: Attribute -> Result<HasDtoAttribute.ConversionForm, Error>, i: nat)
    requires i < |t.members|
    requires t.members[i].kind.Field? && !DtoModelData.IsIgnored(t.members[i])
    ensures GetDTOModelData(t, construct).Failure?
  {
    FilterMembership(t.members, DtoModelData.Kept(), t.members[i]);
  }
}
