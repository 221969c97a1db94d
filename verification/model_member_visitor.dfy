/** Classifying a model's members for the derived class: plain members are
    copied, ignored `required` members are remembered by name, and members
    carrying a conversion attribute are collected with the attribute's
    settings. The attribute visitor is shared and keeps every record. */
module ModelMemberVisitor {
  import opened Wrappers
  import opened Syntax
  import opened Sequences
  import AttributeVisitor
  import HasConversion
  import HasIndirectConversion
  import IdentifierNameVisitor

  const DTOIgnoreName: string := "DTOIgnore"
  const HasConversionName: string := "HasConversion"
  const HasIndirectConversionName: string := "HasIndirectConversion"

  datatype MemberHasConversion = MemberHasConversion(member: MemberDecl, attribute: HasConversion.HasConversionAttribute)

  datatype MemberHasIndirectConversion = MemberHasIndirectConversion(member: MemberDecl, attribute: HasIndirectConversion.HasIndirectConversionAttribute)

  /** The visitor's state: the shared attribute visitor and the four lists it fills. */
  datatype Visitor = Visitor(
    attributeVisitor: AttributeVisitor.Visitor,
    members: seq<MemberDecl>,
    ignoredRequiredMembersNames: seq<string>,
    membersWithConversion: seq<MemberHasConversion>,
    membersWithIndirectConversion: seq<MemberHasIndirectConversion>)

  /** The constructor: every list starts empty. */
  function Create(attributeVisitor: AttributeVisitor.Visitor): (v: Visitor)
    ensures v.attributeVisitor == attributeVisitor
    ensures v.members == [] && v.ignoredRequiredMembersNames == []
    ensures v.membersWithConversion == [] && v.membersWithIndirectConversion == []
  {
    Visitor(attributeVisitor, [], [], [], [])
  }

  /** `MemberNames`: the identifier of each plain member, in order, "" for none. */
  function MemberNames(v: Visitor): (names: seq<string>)
    ensures |names| == |v.members|
    ensures forall i :: 0 <= i < |v.members| ==> names[i] == IdentifierNameVisitor.NameOrEmpty(v.members[i])
  {
    Map(v.members, IdentifierNameVisitor.NameOrEmpty)
  }

  /** `HasAttribute`: some record carries the (stripped) name. */
  predicate HasAttribute(data: seq<AttributeVisitor.AttributeData>, name: string) {
    exists k :: 0 <= k < |data| && data[k].attributeName == name
  }

  function NamedAs(name: string): AttributeVisitor.AttributeData -> bool {
    (d: AttributeVisitor.AttributeData) => d.attributeName == name
  }

  /** `data.Single(a => a.AttributeName == name)`: the only record with the
      name; none or several throw an InvalidOperationException. */
  function Single(data: seq<AttributeVisitor.AttributeData>, name: string): (r: Result<AttributeVisitor.AttributeData, Error>)
    ensures r.Success? <==> |Filter(data, NamedAs(name))| == 1
    ensures r.Success? ==> r.value in data && r.value.attributeName == name
    ensures r.Failure? ==> r.error == InvalidOperation
  {
    var matches := Filter(data, NamedAs(name));
    if |matches| == 1 then
      FilterMembership(data, NamedAs(name), matches[0]);
      Success(matches[0])
    else Failure(InvalidOperation)
  }

  /** Once the attribute is known to be present, `Single` fails exactly when
      it is present more than once. */
  lemma SingleFailsOnlyOnRepeats(data: seq<AttributeVisitor.AttributeData>, name: string)
    requires HasAttribute(data, name)
    ensures Single(data, name).Failure? <==> |Filter(data, NamedAs(name))| >= 2
  {
    var k :| 0 <= k < |data| && data[k].attributeName == name;
    FilterMembership(data, NamedAs(name), data[k]);
  }

  /** Where a field or property goes. */
  datatype Bucket = Plain | IgnoredRequired | WithConversion | WithIndirectConversion | Dropped

  /** The precedence of `VisitPropertyDeclaration` / `VisitFieldDeclaration`:
      no recognised attribute makes a plain member; otherwise an ignored
      `required` member, then a direct conversion, then an indirect one. A
      member with any other recognised attribute (a non-required ignore) is dropped. */
  function Classify(attributes: seq<AttributeVisitor.AttributeData>, isRequired: bool): (b: Bucket)
    ensures b == Plain <==> |attributes| == 0
    ensures b == IgnoredRequired <==> HasAttribute(attributes, DTOIgnoreName) && isRequired
    ensures b == WithConversion <==>
      HasAttribute(attributes, HasConversionName) && !(HasAttribute(attributes, DTOIgnoreName) && isRequired)
    ensures b == WithIndirectConversion <==>
      && HasAttribute(attributes, HasIndirectConversionName)
      && !HasAttribute(attributes, HasConversionName)
      && !(HasAttribute(attributes, DTOIgnoreName) && isRequired)
  {
    if |attributes| == 0 then Plain
    else if HasAttribute(attributes, DTOIgnoreName) && isRequired then IgnoredRequired
    else if HasAttribute(attributes, HasConversionName) then WithConversion
    else if HasAttribute(attributes, HasIndirectConversionName) then WithIndirectConversion
    else Dropped
  }

  /** A member that carries only a non-required ignore lands in no list. */
  lemma IgnoredOptionalMemberIsDropped(attributes: seq<AttributeVisitor.AttributeData>)
    requires |attributes| > 0
    requires forall k :: 0 <= k < |attributes| ==> attributes[k].attributeName == DTOIgnoreName
    ensures Classify(attributes, false) == Dropped
  {
    assert attributes[0].attributeName == DTOIgnoreName;
  }

  /** The records the shared attribute visitor returns for a field or property. */
  function MemberAttributes(names: set<string>, m: MemberDecl): seq<AttributeVisitor.AttributeData> {
    AttributeVisitor.Records(names, AllAttributes(m.attributeLists), IdentifierNameVisitor.MemberIdentifier(m))
  }

  /** Visiting one field or property: read its attributes through the shared
      visitor, then append the member to the one list its bucket names. A
      conversion attribute that occurs twice or does not bind fails. */
  function VisitFieldOrProperty(v: Visitor, m: MemberDecl): (r: Result<Visitor, Error>)
    requires IsFieldOrProperty(m)
    ensures var attributes := MemberAttributes(v.attributeVisitor.acceptedNames, m);
      r.Success? ==>
        && r.value.attributeVisitor.acceptedNames == v.attributeVisitor.acceptedNames
        && r.value.attributeVisitor.attributesData == v.attributeVisitor.attributesData + attributes
    ensures var bucket := Classify(MemberAttributes(v.attributeVisitor.acceptedNames, m), m.isRequired);
      r.Success? ==>
        && r.value.members == v.members + (if bucket == Plain then [m] else [])
        && r.value.ignoredRequiredMembersNames == v.ignoredRequiredMembersNames
             + (if bucket == IgnoredRequired then [IdentifierNameVisitor.NameOrEmpty(m)] else [])
        && v.membersWithConversion <= r.value.membersWithConversion
        && |r.value.membersWithConversion| == |v.membersWithConversion| + (if bucket == WithConversion then 1 else 0)
        && v.membersWithIndirectConversion <= r.value.membersWithIndirectConversion
        && |r.value.membersWithIndirectConversion| == |v.membersWithIndirectConversion| + (if bucket == WithIndirectConversion then 1 else 0)
    ensures r.Failure? ==> Classify(MemberAttributes(v.attributeVisitor.acceptedNames, m), m.isRequired) in {WithConversion, WithIndirectConversion}
  {
    var visited := AttributeVisitor.VisitMember(v.attributeVisitor, m);
    var attributes := visited.1.value;
    var w := v.(attributeVisitor := visited.0);
    match Classify(attributes, m.isRequired)
    case Plain => Success(w.(members := w.members + [m]))
    case IgnoredRequired =>
      Success(w.(ignoredRequiredMembersNames := w.ignoredRequiredMembersNames + [IdentifierNameVisitor.NameOrEmpty(m)]))
    case WithConversion =>
      var data :- Single(attributes, HasConversionName);
      var attribute :- HasConversion.GetAttributeFromData(data);
      Success(w.(membersWithConversion := w.membersWithConversion + [MemberHasConversion(m, attribute)]))
    case WithIndirectConversion =>
      var data :- Single(attributes, HasIndirectConversionName);
      var attribute :- HasIndirectConversion.GetAttributeFromData(data);
      Success(w.(membersWithIndirectConversion := w.membersWithIndirectConversion + [MemberHasIndirectConversion(m, attribute)]))
    case Dropped => Success(w)
  }

  /** A member in the direct-conversion bucket is recorded exactly when its
      only `HasConversion` record binds, with the bound settings. */
  lemma ConversionBucketBinds(v: Visitor, m: MemberDecl)
    requires IsFieldOrProperty(m)
    requires Classify(MemberAttributes(v.attributeVisitor.acceptedNames, m), m.isRequired) == WithConversion
    ensures var attributes := MemberAttributes(v.attributeVisitor.acceptedNames, m);
      var r := VisitFieldOrProperty(v, m);
      (r.Success? <==>
        Single(attributes, HasConversionName).Success? &&
        HasConversion.GetAttributeFromData(Single(attributes, HasConversionName).value).Success?)
      && (r.Success? ==>
        r.value.membersWithConversion == v.membersWithConversion
          + [MemberHasConversion(m, HasConversion.GetAttributeFromData(Single(attributes, HasConversionName).value).value)])
  {
    var visited := AttributeVisitor.VisitMember(v.attributeVisitor, m);
  }

  /** A member in the indirect-conversion bucket is recorded exactly when its
      only `HasIndirectConversion` record binds, with the bound settings. */
  lemma IndirectConversionBucketBinds(v: Visitor, m: MemberDecl)
    requires IsFieldOrProperty(m)
    requires Classify(MemberAttributes(v.attributeVisitor.acceptedNames, m), m.isRequired) == WithIndirectConversion
    ensures var attributes := MemberAttributes(v.attributeVisitor.acceptedNames, m);
      var r := VisitFieldOrProperty(v, m);
      (r.Success? <==>
        Single(attributes, HasIndirectConversionName).Success? &&
        HasIndirectConversion.GetAttributeFromData(Single(attributes, HasIndirectConversionName).value).Success?)
      && (r.Success? ==>
        r.value.membersWithIndirectConversion == v.membersWithIndirectConversion
          + [MemberHasIndirectConversion(m, HasIndirectConversion.GetAttributeFromData(Single(attributes, HasIndirectConversionName).value).value)])
  {
    var visited := AttributeVisitor.VisitMember(v.attributeVisitor, m);
  }

  /** Every field or property lands in at most one list, and in exactly one
      unless it is dropped. */
  lemma AtMostOneBucket(v: Visitor, m: MemberDecl)
    requires IsFieldOrProperty(m)
    requires VisitFieldOrProperty(v, m).Success?
    ensures var w := VisitFieldOrProperty(v, m).value;
      (|w.members| - |v.members|)
      + (|w.ignoredRequiredMembersNames| - |v.ignoredRequiredMembersNames|)
      + (|w.membersWithConversion| - |v.membersWithConversion|)
      + (|w.membersWithIndirectConversion| - |v.membersWithIndirectConversion|)
      == if Classify(MemberAttributes(v.attributeVisitor.acceptedNames, m), m.isRequired) == Dropped then 0 else 1
  {
  }

  /** `w` extends `v`: the shared visitor keeps its names, and every list of
      `v` is a prefix of the corresponding list of `w`. */
  predicate Extends(v: Visitor, w: Visitor) {
    && w.attributeVisitor.acceptedNames == v.attributeVisitor.acceptedNames
    && v.attributeVisitor.attributesData <= w.attributeVisitor.attributesData
    && v.members <= w.members
    && v.ignoredRequiredMembersNames <= w.ignoredRequiredMembersNames
    && v.membersWithConversion <= w.membersWithConversion
    && v.membersWithIndirectConversion <= w.membersWithIndirectConversion
  }

  /** `VisitClassDeclaration` / `VisitStructDeclaration`: once plain members
      were collected, a type visit changes nothing; otherwise every member is
      visited in order, nested classes and structs into the same lists. */
  function VisitType(v: Visitor, t: TypeDecl): (r: Result<Visitor, Error>)
    ensures |v.members| > 0 ==> r == Success(v)
    ensures r.Success? ==> Extends(v, r.value)
    decreases t, |t.members| + 1
  {
    if |v.members| > 0 then Success(v) else VisitMembers(v, t, |t.members|)
  }

  /** Visiting the first `n` members of `t` in order. */
  function VisitMembers(v: Visitor, t: TypeDecl, n: nat): (r: Result<Visitor, Error>)
    requires n <= |t.members|
    ensures r.Success? ==> Extends(v, r.value)
    decreases t, n
  {
    if n == 0 then Success(v)
    else
      var w :- VisitMembers(v, t, n - 1);
      VisitMember(w, t.members[n - 1])
  }

  /** `member.Accept(this)`: fields and properties are classified, nested
      classes and structs visited, every other member ignored. */
  function VisitMember(v: Visitor, m: MemberDecl): (r: Result<Visitor, Error>)
    ensures r.Success? ==> Extends(v, r.value)
    ensures !IsFieldOrProperty(m) && !m.kind.NestedType? ==> r == Success(v)
    decreases m, 0
  {
    if IsFieldOrProperty(m) then VisitFieldOrProperty(v, m)
    else if m.kind.NestedType? then VisitType(v, m.kind.declaration)
    else Success(v)
  }

  /** A field or property with no recognised attribute. */
  function PlainFor(names: set<string>): MemberDecl -> bool {
    (m: MemberDecl) => IsFieldOrProperty(m) && |MemberAttributes(names, m)| == 0
  }

  /** Visiting one member that is not a nested type appends it to `Members`
      exactly when it is plain. */
  lemma VisitMemberPlainStep(w: Visitor, m: MemberDecl)
    requires !m.kind.NestedType?
    requires VisitMember(w, m).Success?
    ensures VisitMember(w, m).value.members == w.members + (if PlainFor(w.attributeVisitor.acceptedNames)(m) then [m] else [])
  {
    var names := w.attributeVisitor.acceptedNames;
    if IsFieldOrProperty(m) {
      assert Classify(MemberAttributes(names, m), m.isRequired) == Plain <==> PlainFor(names)(m);
    } else {
      assert !PlainFor(names)(m);
    }
  }

  /** Without nested types, the plain members are exactly the fields and
      properties with no recognised attribute, in source order. */
  lemma {:induction false} VisitMembersCollectsPlain(v: Visitor, t: TypeDecl, n: nat)
    requires n <= |t.members|
    requires forall i :: 0 <= i < n ==> !t.members[i].kind.NestedType?
    requires VisitMembers(v, t, n).Success?
    ensures VisitMembers(v, t, n).value.members == v.members + Filter(t.members[..n], PlainFor(v.attributeVisitor.acceptedNames))
    decreases n
  {
    if n > 0 {
      var keep := PlainFor(v.attributeVisitor.acceptedNames);
      var w := VisitMembers(v, t, n - 1).value;
      var m := t.members[n - 1];
      assert w.members == v.members + Filter(t.members[..n - 1], keep) by {
        VisitMembersCollectsPlain(v, t, n - 1);
      }
      assert VisitMembers(v, t, n).value.members == w.members + (if keep(m) then [m] else []) by {
        assert VisitMembers(v, t, n) == VisitMember(w, m);
        assert w.attributeVisitor.acceptedNames == v.attributeVisitor.acceptedNames;
        VisitMemberPlainStep(w, m);
      }
      assert Filter(t.members[..n], keep) == Filter(t.members[..n - 1], keep) + (if keep(m) then [m] else []) by {
        assert t.members[..n][..n - 1] == t.members[..n - 1];
      }
    }
  }

  /** A first visit of a class or struct without nested types: `Members` and
      `MemberNames` list the plain members and their names, in source order. */
  lemma FlatTypeVisit(attributeVisitor: AttributeVisitor.Visitor, t: TypeDecl)
    requires forall i :: 0 <= i < |t.members| ==> !t.members[i].kind.NestedType?
    requires VisitType(Create(attributeVisitor), t).Success?
    ensures var w := VisitType(Create(attributeVisitor), t).value;
      w.members == Filter(t.members, PlainFor(attributeVisitor.acceptedNames))
      && MemberNames(w) == Map(Filter(t.members, PlainFor(attributeVisitor.acceptedNames)), IdentifierNameVisitor.NameOrEmpty)
  {
    VisitMembersCollectsPlain(Create(attributeVisitor), t, |t.members|);
    assert t.members[..|t.members|] == t.members;
  }

  /** The guard makes a type visit idempotent once it has collected a plain member. */
  lemma SecondVisitChangesNothing(v: Visitor, t: TypeDecl, other: TypeDecl)
    requires VisitType(v, t).Success?
    requires |VisitType(v, t).value.members| > 0
    ensures VisitType(VisitType(v, t).value, other) == VisitType(v, t)
  {
  }
}
