/** The generator's decisions: which classes get a derived class, which
    `using` directives the output keeps, and which members the derived class
    holds — the model's fields and properties, then the conversion helpers
    and operators its `ConversionForm` selects. */
module Generator {
  import opened Wrappers
  import opened Syntax
  import opened Strings
  import opened Sequences
  import HasDtoAttribute
  import DtoModelData
  import LegacyModelData

  const GeneratorNamespace: string := "SynoLib"

  // ----- selecting the model classes -----

  datatype SyntaxNode = TypeNode(declaration: TypeDecl) | OtherNode

  /** Some attribute in `attributes` is written exactly `name`. */
  function AnyWritten(attributes: seq<Attribute>, name: string): (r: bool)
    ensures r <==> exists a :: a in attributes && WrittenName(a) == name
    decreases |attributes|
  {
    if |attributes| == 0 then false
    else
      var init := attributes[..|attributes| - 1];
      assert attributes == init + [attributes[|attributes| - 1]];
      AnyWritten(init, name) || WrittenName(attributes[|attributes| - 1]) == name
  }

  /** `ShouldHaveDTO`: a class declaration with an attribute written exactly
      `HasDTO`; structs, other nodes and the long spelling are not selected. */
  function ShouldHaveDTO(node: SyntaxNode): (r: bool)
    ensures r <==>
      && node.TypeNode?
      && node.declaration.kind == Class
      && exists a :: a in AllAttributes(node.declaration.attributeLists) && WrittenName(a) == "HasDTO"
  {
    node.TypeNode? && node.declaration.kind == Class && AnyWritten(AllAttributes(node.declaration.attributeLists), "HasDTO")
  }

  // ----- the using directives -----

  /** A `using` directive: its node identity and the name it imports. */
  datatype UsingDirective = UsingDirective(node: nat, name: NameSyntax)

  /** A syntax tree, reduced to its `using` directives in document order; the
      root may be unavailable. */
  datatype SyntaxTree = SyntaxTree(root: Option<seq<UsingDirective>>)

  function UsingsOf(tree: SyntaxTree): seq<UsingDirective> {
    if tree.root.None? then [] else tree.root.value
  }

  /** Every directive of every tree, in order. */
  function AllUsings(trees: seq<SyntaxTree>): seq<UsingDirective> {
    Flatten(Map(trees, UsingsOf))
  }

  /** The text the filter tests: an alias-qualified name's right part, a
      qualified name's left part, otherwise the whole name. */
  function FilterText(n: NameSyntax): string {
    match n
    case AliasQualifiedName(_, name) => name
    case IdentifierName(id) => id
    case QualifiedName(left, _) => NameText(left)
    case GenericName(text) => text
  }

  predicate IsGeneratorUsing(u: UsingDirective) {
    StartsWith(FilterText(u.name), GeneratorNamespace)
  }

  function KeepUsing(): UsingDirective -> bool {
    (u: UsingDirective) => !IsGeneratorUsing(u)
  }

  /** `Distinct()`: the first occurrence of each element, in order. */
  function Dedup<T(==)>(s: seq<T>): seq<T>
    decreases |s|
  {
    if |s| == 0 then []
    else
      var init := s[..|s| - 1];
      Dedup(init) + (if s[|s| - 1] in init then [] else [s[|s| - 1]])
  }

  /** `Dedup` keeps an ordered selection holding every element once. */
  lemma {:induction false} DedupProperties<T>(s: seq<T>)
    ensures IsSubsequence(Dedup(s), s)
    ensures NoDuplicates(Dedup(s))
    ensures forall x :: x in Dedup(s) <==> x in s
    decreases |s|
  {
    if |s| > 0 {
      var init := s[..|s| - 1];
      var last := s[|s| - 1];
      DedupProperties(init);
      assert s == init + [last];
      if last in init {
        assert Dedup(s) == Dedup(init);
        SubsequenceAppendRight(Dedup(init), init, last);
      } else {
        assert Dedup(s) == Dedup(init) + [last];
        SubsequenceAppendBoth(Dedup(init), init, last);
      }
    }
  }

  /** `Distinct().ToList()`. */
  method Distinct<T(==)>(s: seq<T>) returns (r: seq<T>)
    ensures r == Dedup(s)
    ensures IsSubsequence(r, s) && NoDuplicates(r)
    ensures forall x :: x in r <==> x in s
  {
    r := [];
    for i := 0 to |s|
      invariant r == Dedup(s[..i])
      invariant forall x :: x in r <==> x in s[..i]
    {
      assert s[..i + 1][..i] == s[..i];
      if s[i] !in r {
        r := r + [s[i]];
      }
      assert s[..i + 1] == s[..i] + [s[i]];
    }
    assert s[..|s|] == s;
    DedupProperties(s);
  }

  /** `FetchAllNonGeneratorUsings`: every distinct directive of every tree, in
      order, except those whose filter text starts with "SynoLib". */
  method FetchAllNonGeneratorUsings(trees: seq<SyntaxTree>) returns (usings: seq<UsingDirective>)
    ensures usings == Filter(Dedup(AllUsings(trees)), KeepUsing())
    ensures IsSubsequence(usings, AllUsings(trees))
    ensures NoDuplicates(usings)
    ensures forall u :: u in usings <==> u in AllUsings(trees) && !IsGeneratorUsing(u)
  {
    var distinct := Distinct(AllUsings(trees));
    usings := [];
    for i := 0 to |distinct|
      invariant usings == Filter(distinct[..i], KeepUsing())
    {
      assert distinct[..i + 1][..i] == distinct[..i];
      if !IsGeneratorUsing(distinct[i]) {
        usings := usings + [distinct[i]];
      }
      assert distinct[..i + 1] == distinct[..i] + [distinct[i]];
    }
    assert distinct[..|distinct|] == distinct;
    KeptUsingsProperties(AllUsings(trees));
  }

  /** The directives kept after removing repeats and generator namespaces
      form an ordered selection without repeats of exactly the non-generator
      directives. */
  lemma KeptUsingsProperties(all: seq<UsingDirective>)
    ensures IsSubsequence(Filter(Dedup(all), KeepUsing()), all)
    ensures NoDuplicates(Filter(Dedup(all), KeepUsing()))
    ensures forall u :: u in Filter(Dedup(all), KeepUsing()) <==> u in all && !IsGeneratorUsing(u)
  {
    var distinct := Dedup(all);
    var kept := Filter(distinct, KeepUsing());
    DedupProperties(all);
    FilterIsSubsequence(distinct, KeepUsing());
    SubsequenceTransitive(kept, distinct, all);
    NoDuplicatesInSubsequence(kept, distinct);
    forall u
      ensures u in kept <==> u in all && !IsGeneratorUsing(u)
    {
      FilterMembership(distinct, KeepUsing(), u);
    }
  }

  lemma {:induction false} NoDuplicatesInSubsequence<T>(a: seq<T>, b: seq<T>)
    requires IsSubsequence(a, b)
    requires NoDuplicates(b)
    ensures NoDuplicates(a)
    decreases |b|
  {
    if |a| > 0 && |b| > 0 {
      var b' := b[..|b| - 1];
      assert NoDuplicates(b');
      if a[|a| - 1] == b[|b| - 1] {
        var a' := a[..|a| - 1];
        NoDuplicatesInSubsequence(a', b');
        SubsequenceElements(a', b');
        forall i | 0 <= i < |a'|
          ensures a'[i] != a[|a| - 1]
        {
          assert a'[i] in b';
        }
        assert a == a' + [a[|a| - 1]];
      } else {
        NoDuplicatesInSubsequence(a, b');
      }
    }
  }

  /** The test is textual on the left part: `global::SynoLib.X` is kept. */
  lemma GlobalQualifiedGeneratorUsingKept(u: UsingDirective)
    requires u.name == QualifiedName(AliasQualifiedName("global", "SynoLib"), "Generators")
    ensures !IsGeneratorUsing(u)
  {
    assert FilterText(u.name)[..7] == "global:";
  }

  /** The test is a text prefix, not a namespace: `SynoLibrary` is dropped,
      and `SynoLib.Generators` is dropped through its left part. */
  lemma PrefixNotNamespace(u: UsingDirective, v: UsingDirective)
    requires u.name == IdentifierName("SynoLibrary")
    requires v.name == QualifiedName(IdentifierName("SynoLib"), "Generators")
    ensures IsGeneratorUsing(u) && IsGeneratorUsing(v)
  {
  }

  /** Duplicates are removed by node, not by text: the same import in two
      trees is kept twice. */
  lemma TextualRepeatsKept(first: UsingDirective, second: UsingDirective)
    requires first.node != second.node && first.name == second.name
    requires !IsGeneratorUsing(first)
    ensures Filter(Dedup(AllUsings([SyntaxTree(Some([first])), SyntaxTree(Some([second]))])), KeepUsing()) == [first, second]
  {
    var trees := [SyntaxTree(Some([first])), SyntaxTree(Some([second]))];
    assert Map(trees, UsingsOf) == [[first], [second]];
    assert [[first], [second]][..1] == [[first]];
    assert [[first]][..0] == [];
    assert Flatten([[first]]) == [first];
    assert Flatten([[first], [second]]) == Flatten([[first]]) + [second];
    assert AllUsings(trees) == [first, second];
    assert [first, second][..1] == [first];
    assert [first][..0] == [];
    assert Dedup([first]) == [first];
    assert second !in [first];
    assert Dedup([first, second]) == [first, second];
    assert Filter([first], KeepUsing()) == [first];
  }

  // ----- the conversion members -----

  /** What the conversion members are built from, read from either descriptor. */
  datatype ConversionSource = ConversionSource(
    modelName: string,
    dtoName: string,
    conversion: HasDtoAttribute.ConversionForm,
    propertiesNames: seq<string>)

  function FromDescriptor(d: DtoModelData.DTOModelData): ConversionSource {
    ConversionSource(d.modelName, d.dtoName, d.conversion, d.propertiesNames)
  }

  function FromLegacy(d: LegacyModelData.LegacyModelData): ConversionSource {
    ConversionSource(d.modelName, LegacyModelData.DTOName(d), d.conversion, d.propertiesNames)
  }

  datatype OperatorKind = ExplicitOperator | ImplicitOperator

  /** A single parameter: its type's text and its name. */
  datatype Parameter = Parameter(typeName: string, name: string)

  /** `property = source.property` inside an object initializer. */
  datatype Assignment = Assignment(property: string, source: string)

  /** A member of the derived class. */
  datatype DerivedMember =
    | CopiedMember(member: MemberDecl)
      /** `internal static Func<P, R> name = (P p) => { return new() { … }; };` */
    | HelperField(name: string, parameter: Parameter, returnType: string, body: seq<Assignment>)
      /** `public static kind operator R(P p) => helper(p);` */
    | ConversionOperator(kind: OperatorKind, returnType: string, parameter: Parameter, helper: string)

  const ToDTOHelper: string := "_toDTOFunc"
  const ToModelHelper: string := "_toModelFunc"
  /** The helpers' return types are fixed text, whatever the model. */
  const ToDTOReturnType: string := "DTO<Product>"
  const ToModelReturnType: string := "Product"

  function ModelParameter(d: ConversionSource): Parameter {
    Parameter(d.modelName, "model")
  }

  function DTOParameter(d: ConversionSource): Parameter {
    Parameter(d.dtoName, "dto")
  }

  function AssignFrom(paramName: string): string -> Assignment {
    (p: string) => Assignment(p, paramName)
  }

  /** `CreateStaticConversionBlock`: one assignment per property name, in order. */
  function CreateStaticConversionBlock(propertiesNames: seq<string>, paramName: string): (body: seq<Assignment>)
    ensures |body| == |propertiesNames|
    ensures forall i :: 0 <= i < |body| ==> body[i].property == propertiesNames[i] && body[i].source == paramName
  {
    Map(propertiesNames, AssignFrom(paramName))
  }

  /** Evaluating an object initializer against its parameter's property
      values: each assignment sets its property to the parameter's value. */
  function Initialize<V>(body: seq<Assignment>, source: map<string, V>): (obj: map<string, V>)
    requires forall i :: 0 <= i < |body| ==> body[i].property in source
    ensures forall p :: p in obj <==> exists i :: 0 <= i < |body| && body[i].property == p
    ensures forall p :: p in obj ==> obj[p] == source[p]
    decreases |body|
  {
    if |body| == 0 then map[]
    else
      var last := body[|body| - 1];
      var rest := Initialize(body[..|body| - 1], source);
      assert forall p :: p in rest ==> exists i :: 0 <= i < |body| && body[i].property == p by {
        forall p | p in rest
          ensures exists i :: 0 <= i < |body| && body[i].property == p
        {
          var i :| 0 <= i < |body| - 1 && body[..|body| - 1][i].property == p;
          assert body[i].property == p;
        }
      }
      rest[last.property := source[last.property]]
  }

  /** Converting a model to the derived class and back restores every listed
      property: the two helpers' bodies are inverse on `PropertiesNames`. */
  lemma ConversionRoundTrip<V>(propertiesNames: seq<string>, model: map<string, V>)
    requires forall p :: p in propertiesNames ==> p in model
    ensures var toDTO := CreateStaticConversionBlock(propertiesNames, "model");
      var toModel := CreateStaticConversionBlock(propertiesNames, "dto");
      var dto := Initialize(toDTO, model);
      (forall i :: 0 <= i < |toModel| ==> toModel[i].property in dto)
      && var back := Initialize(toModel, dto);
      && (forall p :: p in back <==> p in propertiesNames)
      && (forall p :: p in propertiesNames ==> back[p] == model[p])
  {
    var toDTO := CreateStaticConversionBlock(propertiesNames, "model");
    var toModel := CreateStaticConversionBlock(propertiesNames, "dto");
    assert forall i :: 0 <= i < |toDTO| ==> toDTO[i].property in model by {
      forall i | 0 <= i < |toDTO| ensures toDTO[i].property in model {
        assert toDTO[i].property == propertiesNames[i];
      }
    }
    var dto := Initialize(toDTO, model);
    forall p | p in propertiesNames
      ensures p in dto
    {
      var i :| 0 <= i < |propertiesNames| && propertiesNames[i] == p;
      assert toDTO[i].property == p;
    }
  }

  /** The two helper fields, `_toDTOFunc` then `_toModelFunc`. */
  function Helpers(d: ConversionSource): seq<DerivedMember> {
    [ HelperField(ToDTOHelper, ModelParameter(d), ToDTOReturnType, CreateStaticConversionBlock(d.propertiesNames, "model")),
      HelperField(ToModelHelper, DTOParameter(d), ToModelReturnType, CreateStaticConversionBlock(d.propertiesNames, "dto")) ]
  }

  /** One pair of operators, DTO to model first, then model to DTO. */
  function OperatorPair(d: ConversionSource, kind: OperatorKind): seq<DerivedMember> {
    [ ConversionOperator(kind, d.modelName, DTOParameter(d), ToModelHelper),
      ConversionOperator(kind, d.dtoName, ModelParameter(d), ToDTOHelper) ]
  }

  /** `CreateConversions`: the helpers when any flag is set, then an operator
      pair for Explicit and another for Implicit. */
  function CreateConversions(d: ConversionSource): (r: seq<DerivedMember>)
    ensures |r| == (if d.conversion != HasDtoAttribute.None then 2 else 0)
      + (if HasDtoAttribute.HasFlag(d.conversion, HasDtoAttribute.Explicit) then 2 else 0)
      + (if HasDtoAttribute.HasFlag(d.conversion, HasDtoAttribute.Implicit) then 2 else 0)
    ensures d.conversion == HasDtoAttribute.None ==> r == []
    ensures d.conversion != HasDtoAttribute.None ==> r[..2] == Helpers(d)
    ensures forall i :: 0 <= i < |r| ==> (r[i].HelperField? <==> i < 2 && d.conversion != HasDtoAttribute.None)
    ensures (exists i :: 0 <= i < |r| && r[i].ConversionOperator? && r[i].kind == ExplicitOperator)
      <==> HasDtoAttribute.HasFlag(d.conversion, HasDtoAttribute.Explicit)
    ensures (exists i :: 0 <= i < |r| && r[i].ConversionOperator? && r[i].kind == ImplicitOperator)
      <==> HasDtoAttribute.HasFlag(d.conversion, HasDtoAttribute.Implicit)
    ensures forall i :: 2 <= i < |r| ==> (r[i].ConversionOperator? &&
      if i % 2 == 0 then r[i] == ConversionOperator(r[i].kind, d.modelName, DTOParameter(d), ToModelHelper)
      else r[i] == ConversionOperator(r[i].kind, d.dtoName, ModelParameter(d), ToDTOHelper))
    ensures forall i :: 3 <= i < |r| && i % 2 == 1 ==> r[i].kind == r[i - 1].kind
    ensures forall i, j :: (0 <= i < |r| && 0 <= j < |r| && r[i].ConversionOperator? && r[j].ConversionOperator?
      && r[i].kind == ExplicitOperator && r[j].kind == ImplicitOperator) ==> i < j
  {
    var explicit := HasDtoAttribute.HasFlag(d.conversion, HasDtoAttribute.Explicit);
    var implicit := HasDtoAttribute.HasFlag(d.conversion, HasDtoAttribute.Implicit);
    if d.conversion == HasDtoAttribute.None then
      assert !explicit && !implicit;
      []
    else if explicit && implicit then
      var r := Helpers(d) + OperatorPair(d, ExplicitOperator) + OperatorPair(d, ImplicitOperator);
      assert r[2].kind == ExplicitOperator && r[4].kind == ImplicitOperator;
      r
    else if explicit then
      var r := Helpers(d) + OperatorPair(d, ExplicitOperator);
      assert r[2].kind == ExplicitOperator;
      r
    else if implicit then
      var r := Helpers(d) + OperatorPair(d, ImplicitOperator);
      assert r[2].kind == ImplicitOperator;
      r
    else
      Helpers(d)
  }

  /** With the legacy descriptor, the model-to-DTO operators return the class
      the generator emits, and the DTO-to-model operators take it. */
  lemma LegacyOperatorsUseTheClass(t: TypeDecl, d: LegacyModelData.LegacyModelData, i: nat)
    requires d.modelName == t.identifier
    requires 2 <= i < |CreateConversions(FromLegacy(d))| && i % 2 == 1
    ensures CreateConversions(FromLegacy(d))[i].returnType == BuildDTOClass(t, FromLegacy(d)).identifier
    ensures CreateConversions(FromLegacy(d))[i - 1].parameter.typeName == BuildDTOClass(t, FromLegacy(d)).identifier
  {
    var name := LegacyModelData.DTOName(d);
    assert name == "DTO<" + d.modelName + ">" by {
      assert name == name[..4] + name[4..|name| - 1] + [name[|name| - 1]];
    }
  }

  /** With the newer descriptor's default template the operators convert to
      `ModelDTO`, which is not the class the generator emits (`DTO<Model>`). */
  lemma DefaultTemplateOperatorsMissTheClass(t: TypeDecl, d: ConversionSource, i: nat)
    requires d.dtoName == t.identifier + "DTO"
    requires 2 <= i < |CreateConversions(d)| && i % 2 == 1
    ensures CreateConversions(d)[i].returnType != BuildDTOClass(t, d).identifier
  {
    assert |CreateConversions(d)[i].returnType| == |t.identifier| + 3;
  }

  /** Every operator calls a helper that is emitted, with the same parameter. */
  lemma OperatorsCallEmittedHelpers(d: ConversionSource, i: nat)
    requires i < |CreateConversions(d)|
    requires CreateConversions(d)[i].ConversionOperator?
    ensures exists j :: (0 <= j < |CreateConversions(d)| && CreateConversions(d)[j].HelperField?
      && CreateConversions(d)[j].name == CreateConversions(d)[i].helper
      && CreateConversions(d)[j].parameter == CreateConversions(d)[i].parameter)
  {
    var r := CreateConversions(d);
    assert r[..2] == Helpers(d);
    if r[i].helper == ToDTOHelper {
      assert r[0] == Helpers(d)[0];
    } else {
      assert r[1] == Helpers(d)[1];
    }
  }

  /** Explicit and Implicit together emit both operator pairs, although the
      attribute's documentation says Implicit is then ignored. */
  lemma BothFormsEmitFourOperators(d: ConversionSource)
    requires d.conversion == HasDtoAttribute.Explicit | HasDtoAttribute.Implicit
    ensures CreateConversions(d) == Helpers(d) + OperatorPair(d, ExplicitOperator) + OperatorPair(d, ImplicitOperator)
    ensures !HasDtoAttribute.HasFlag(HasDtoAttribute.DocumentedForm(d.conversion), HasDtoAttribute.Implicit)
  {
  }

  /** The method-based forms emit only the two helpers. */
  lemma MethodFormsEmitOnlyHelpers(d: ConversionSource)
    requires d.conversion == HasDtoAttribute.StaticMethods || d.conversion == HasDtoAttribute.ReferenceMethods
    ensures CreateConversions(d) == Helpers(d)
  {
  }

  // ----- the derived class -----

  function Copy(): MemberDecl -> DerivedMember {
    (m: MemberDecl) => CopiedMember(m)
  }

  function FieldOrProperty(): MemberDecl -> bool {
    (m: MemberDecl) => IsFieldOrProperty(m)
  }

  /** The member loop of `CreateDTOClass`: every field and property, in order. */
  function CopyFieldsAndProperties(members: seq<MemberDecl>): (r: seq<DerivedMember>)
    ensures r == Map(Filter(members, FieldOrProperty()), Copy())
    decreases |members|
  {
    if |members| == 0 then []
    else
      var m := members[|members| - 1];
      var init := members[..|members| - 1];
      var rest := CopyFieldsAndProperties(init);
      MapConcat(Filter(init, FieldOrProperty()), if IsFieldOrProperty(m) then [m] else [], Copy());
      rest + (if IsFieldOrProperty(m) then [CopiedMember(m)] else [])
  }

  /** The derived class: named `DTO<Model>` whatever the template, holding
      the model's fields and properties and then the conversion members. */
  datatype DerivedClass = DerivedClass(identifier: string, members: seq<DerivedMember>)

  function BuildDTOClass(t: TypeDecl, d: ConversionSource): (c: DerivedClass)
    ensures c.identifier == "DTO<" + t.identifier + ">"
    ensures |c.members| == |Filter(t.members, FieldOrProperty())| + |CreateConversions(d)|
    ensures c.members[|Filter(t.members, FieldOrProperty())|..] == CreateConversions(d)
    ensures forall i :: 0 <= i < |Filter(t.members, FieldOrProperty())| ==>
      c.members[i] == CopiedMember(Filter(t.members, FieldOrProperty())[i])
  {
    var copied := CopyFieldsAndProperties(t.members);
    DerivedClass("DTO<" + t.identifier + ">", copied + CreateConversions(d))
  }

  /** `CreateDTOClass`: the descriptor, then the derived class. */
  function CreateDTOClass(t: TypeDecl): (r: Result<DerivedClass, Error>)
    ensures r.Success? <==> DtoModelData.GetDTOModelData(t).Success?
    ensures r.Success? ==> r.value == BuildDTOClass(t, FromDescriptor(DtoModelData.GetDTOModelData(t).value))
  {
    var d :- DtoModelData.GetDTOModelData(t);
    Success(BuildDTOClass(t, FromDescriptor(d)))
  }

  /** Ignored members are copied too: the ignore attribute only affects the
      descriptor, not the member list of the derived class. */
  lemma IgnoredMembersAreCopied(t: TypeDecl, d: ConversionSource, m: MemberDecl)
    requires m in t.members && IsFieldOrProperty(m) && DtoModelData.IsIgnored(m)
    ensures CopiedMember(m) in BuildDTOClass(t, d).members
  {
    var kept := Filter(t.members, FieldOrProperty());
    FilterMembership(t.members, FieldOrProperty(), m);
    var k :| 0 <= k < |kept| && kept[k] == m;
    assert BuildDTOClass(t, d).members[k] == CopiedMember(m);
  }
}
