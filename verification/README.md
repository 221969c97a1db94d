# DTOGenerator decision logic in Dafny

DTOGenerator is a Roslyn incremental source generator. For every class
marked `[HasDTO]` it emits a data-transfer class `DTO<Model>`, which holds:

- the model's fields and properties;
- optionally, helper delegates and conversion operators between the model and
  the DTO.

This project models the pure decision logic under the generator's Roslyn
plumbing, over abstract syntax records:

- **Attribute reading** (`AttributeVisitor`, `IdentifierNameVisitor`):
  - which attribute spellings are accepted;
  - how arguments are split into field arguments (positional and `name:`)
    and property arguments (`Name =`);
  - which value is stored for each argument;
  - how the recorded data accumulate over lists, properties and fields.
- **Payload binding** (`HasConversion`, `HasIndirectConversion`,
  `DtoModelData.GetHasDTOData`): null rejection, positional and by-name slot
  filling over defaults, dispatch on argument count, and the exception kind of
  every failure.
- **The `ConversionForm` flag enum** (`HasDtoAttribute`): flag values, unique
  decomposition, and the documented rule that Explicit overrides Implicit.
- **Member classification** (`ModelMemberVisitor`): which of five buckets
  each field or property lands in, and the guard that makes a second type
  visit a no-op.
- **Descriptor building** (`DtoModelData`, for DTOModelData.cs; and
  `LegacyModelData`, for the record of the same name in TheGenerator.cs). This
  covers:
  - the `[class]` template substitution;
  - the kept and ignored-required members;
  - the getter-only property name list;
  - the legacy descriptor's `DTO<Model>` naming and its field quirk.
- **Synthesis selection** (`Generator`):
  - which type nodes get a DTO;
  - the filtering of `using` directives by the "SynoLib" prefix;
  - the derived class's member list;
  - which conversion members a flag set emits;
  - the per-property assignment list of the helper bodies.

Exceptions the C# code throws are modelled as `Failure(e)` of a `Result`,
where `e` names the .NET exception type (`ArgumentNull`, `IndexOutOfRange`,
`InvalidCast`, `InvalidOperation`, `ArgumentOutOfRange`, `NullReference`).

Roslyn's computation of an argument's constant value is an input: an argument
expression is `Constant(v)`, `TypeOf(name)` or `NonConstant`. The `required`
modifier is the boolean `isRequired` of a member. A using directive carries a
node identity, because `Distinct()` compares syntax nodes by reference.

The C# constructors of `HasConversionAttribute`, `MemberHasConversion` and
`MemberHasIndirectConversion` only store their arguments. They are modelled by
the Dafny datatype constructors. The two `HasIndirectConversionAttribute`
constructors are `WithMethod` and `WithConverter`.

Modules, one per source file plus shared helpers:

- `Wrappers`: `Option` and `Result`.
- `Strings`: `String.Replace`, decimal rendering.
- `Sequences`: filter, map, flatten, subsequence.
- `Syntax`: abstract syntax records.
- `IdentifierNameVisitor`, `AttributeVisitor`, `HasConversion`,
  `HasIndirectConversion`, `HasDtoAttribute`, `ModelMemberVisitor`,
  `DtoModelData`, `LegacyModelData`, `Generator`.

## Model

| member | source | states |
|---|---|---|
| AttributeVisitor.Create | DTOGenerator/Visitors/AttributeVisitor.cs:20-23 | A new visitor has recorded nothing. Its accepted names are exactly the given names plus each given name with every "Attribute" occurrence removed. |
| AttributeVisitor.BothSpellingsAccepted | DTOGenerator/Visitors/AttributeVisitor.cs:20-23 | If `XAttribute` is a given name, both `X` and `XAttribute` are accepted, and both record the attribute name `X`. |
| AttributeVisitor.Positions | DTOGenerator/Visitors/AttributeVisitor.cs:33-47 | The selected argument positions are exactly those of the requested kind (property `Name =` or not), each once, in source order. |
| AttributeVisitor.SelectArguments | DTOGenerator/Visitors/AttributeVisitor.cs:33-47 | The field (or property) argument list holds one entry per argument of that kind, in source order. Each entry carries the argument's key and stored value. |
| AttributeVisitor.PositionalArgumentNamedByPosition | DTOGenerator/Visitors/AttributeVisitor.cs:34-47 | A positional argument at position i is stored among the field arguments under the decimal name of i. The position counts every argument, including `Name =` ones. |
| AttributeVisitor.TypeOfStoredAsNull | DTOGenerator/Visitors/AttributeVisitor.cs:36-45 | A `typeof(...)` argument is stored with a null value, because only the operation's constant value is stored. |
| AttributeVisitor.VisitAttribute | DTOGenerator/Visitors/AttributeVisitor.cs:25-57 | An attribute whose written name is not accepted yields null, and the visitor is unchanged. An accepted one is appended to the cumulative data and returned as a singleton, under its name with "Attribute" removed. |
| AttributeVisitor.VisitAttributeList | DTOGenerator/Visitors/AttributeVisitor.cs:58-64 | Visiting a list keeps the accepted names and appends exactly the returned records to the cumulative data. |
| AttributeVisitor.VisitAttributeListRecords | DTOGenerator/Visitors/AttributeVisitor.cs:58-64 | A list visit returns the records of the recognised attributes only, in order. |
| AttributeVisitor.VisitAttributeLists | DTOGenerator/Visitors/AttributeVisitor.cs:65-70 | Visiting all lists of a member keeps the accepted names and appends exactly the returned records. |
| AttributeVisitor.VisitAttributeListsRecords | DTOGenerator/Visitors/AttributeVisitor.cs:65-70 | A property or field visit returns the in-order concatenation of the per-list results, that is, the recognised attributes across all lists. |
| AttributeVisitor.VisitMember | DTOGenerator/Visitors/AttributeVisitor.cs:65-70 | Only properties and fields yield a list. Its records are the recognised attributes, tagged with the member's identifier. Other members leave the visitor unchanged. |
| AttributeVisitor.FindIndex | DTOGenerator/Attributes/HasConversion.cs:40-46 | The result is the first index whose argument has the given name, or -1 exactly when no argument has it. |
| AttributeVisitor.CopyLeadingArguments | DTOGenerator/Attributes/HasIndirectConversion.cs:83-89 | The binders' copy loop over slots `from`..1 succeeds iff it copies nothing or there are at least two field arguments. On success each of those slots receives the field argument at its own position, and every other slot keeps its value. On failure the error is IndexOutOfRange. |
| IdentifierNameVisitor.MemberIdentifier | DTOGenerator/Visitors/IdentifierNameVisitor.cs:11-18 | A nested class or struct maps to its identifier, a property to its identifier, and a field to its first declarator's identifier. Every other member maps to null. |
| IdentifierNameVisitor.FieldNamedByFirstDeclarator | DTOGenerator/Visitors/IdentifierNameVisitor.cs:17-18 | A field's name does not depend on the declarators after the first. |
| HasConversion.FormsAreDistinct | DTOGenerator/Attributes/HasConversion.cs:55-62 | Explicit, Implicit and StaticMethods are pairwise distinct. |
| HasConversion.GetAttributeFromData | DTOGenerator/Attributes/HasConversion.cs:31-48 | Any null field argument gives ArgumentNull. Otherwise, fewer than two field arguments give IndexOutOfRange. The call succeeds iff there is no null, there are at least two arguments, argument 0 is an int and argument 1 is a string. The form then comes from argument 0 and the converted type from argument 1; later arguments are ignored. |
| HasConversion.NamesDoNotAffectPlacement | DTOGenerator/Attributes/HasConversion.cs:40-47 | Renaming the field arguments never changes the result, because placement is by position. |
| HasIndirectConversion.WithMethod | DTOGenerator/Attributes/HasIndirectConversion.cs:28-32 | The 2-argument constructor leaves the converter type null and stores the method name and converted type unchanged. |
| HasIndirectConversion.WithConverter | DTOGenerator/Attributes/HasIndirectConversion.cs:47-51 | The 3-argument constructor stores all three values unchanged. |
| HasIndirectConversion.GetAttributeWith2Args | DTOGenerator/Attributes/HasIndirectConversion.cs:61-75 | The call succeeds iff there are at least two field arguments and both are strings or null. The method name then comes from argument 0 and the converted type from argument 1, by position. Fewer than two arguments give IndexOutOfRange. |
| HasIndirectConversion.GetAttributeWith3Args | DTOGenerator/Attributes/HasIndirectConversion.cs:76-91 | The same success condition as the 2-argument form. The converter type comes from argument 0, the method name from argument 1, and the converted type is always null. |
| HasIndirectConversion.GetAttributeFromData | DTOGenerator/Attributes/HasIndirectConversion.cs:53-60 | A null field argument gives ArgumentNull. Otherwise exactly two arguments select the 2-argument form and any other count selects the 3-argument path. A success always carries a method name. |
| HasIndirectConversion.ThirdArgumentIsLost | DTOGenerator/Attributes/HasIndirectConversion.cs:83-90 | With three string arguments the converted type in the result is null, although a third argument was given. |
| HasIndirectConversion.TwoArgumentsByPosition | DTOGenerator/Attributes/HasIndirectConversion.cs:67-74 | With two string arguments the result is (null converter, argument 0, argument 1). |
| HasDtoAttribute.Default | DTOGenerator/Attributes/HasDTOAttribute.cs:15-26 | The default DTO class name is "[class]DTO" and the default conversion form is Explicit. |
| HasDtoAttribute.FlagsAreDisjointBits | DTOGenerator/Attributes/HasDTOAttribute.cs:37-74 | The four non-None flags are pairwise disjoint bits. None combined with any flag set f is f, and every set contains None. |
| HasDtoAttribute.Combine | DTOGenerator/Attributes/HasDTOAttribute.cs:42-73 | A combined flag set has each flag exactly when it was chosen, and equals None exactly when no flag was chosen. |
| HasDtoAttribute.DecomposeUniquely | DTOGenerator/Attributes/HasDTOAttribute.cs:42-73 | Every value within the four flag bits is the combination of the flags it has, and no other choice of flags produces it. |
| HasDtoAttribute.FromInt32 | DTOGenerator/DTOModelData.cs:61-63 | Casting an int in 0..15 to the enum yields a value within the four flag bits. |
| HasDtoAttribute.SmallValuesDecode | DTOGenerator/Attributes/HasDTOAttribute.cs:42-73 | The int n in 0..15 denotes the flag set whose members are n's binary digits: bit 0 Explicit, bit 1 Implicit, bit 2 StaticMethods, bit 3 ReferenceMethods. |
| HasDtoAttribute.DocumentedForm | DTOGenerator/Attributes/HasDTOAttribute.cs:19-20 | The documented reading of a flag set ignores Implicit whenever Explicit is set. It leaves every other flag as written. |
| ModelMemberVisitor.Create | DTOGenerator/Visitors/ModelMemberVisitor.cs:13-24 | A new member visitor shares the given attribute visitor and has four empty lists. |
| ModelMemberVisitor.MemberNames | DTOGenerator/Visitors/ModelMemberVisitor.cs:15 | One name per plain member, in order: its identifier, or "" when it has none. |
| ModelMemberVisitor.Single | DTOGenerator/Visitors/ModelMemberVisitor.cs:52-53 | `Single` succeeds iff exactly one record has the name, and then returns that record. Otherwise it fails with InvalidOperation. |
| ModelMemberVisitor.SingleFailsOnlyOnRepeats | DTOGenerator/Visitors/ModelMemberVisitor.cs:51-53 | Once the attribute is known to be present, `Single` fails exactly when it occurs twice or more. |
| ModelMemberVisitor.Classify | DTOGenerator/Visitors/ModelMemberVisitor.cs:41-86 | The buckets, each stated as an iff, in order of precedence: (1) plain exactly when there are no recognised attributes; (2) ignored-required exactly when DTOIgnore is present and the member is required; (3) direct conversion exactly when HasConversion is present and (2) does not apply; (4) indirect conversion exactly when HasIndirectConversion is present without HasConversion and (2) does not apply. |
| ModelMemberVisitor.IgnoredOptionalMemberIsDropped | DTOGenerator/Visitors/ModelMemberVisitor.cs:46-62 | A member whose only attribute is DTOIgnore and that is not required lands in no list. |
| ModelMemberVisitor.VisitFieldOrProperty | DTOGenerator/Visitors/ModelMemberVisitor.cs:41-86 | The member's recognised attributes are appended to the shared data. The member is appended to Members iff it is plain, and its name to the ignored-required list iff that is its bucket. Each conversion list grows by one iff that is the member's bucket. A failure only comes from binding a conversion attribute. |
| ModelMemberVisitor.ConversionBucketBinds | DTOGenerator/Visitors/ModelMemberVisitor.cs:74-79 | A direct-conversion member is recorded exactly when its single HasConversion record binds, and it is recorded with the bound attribute. |
| ModelMemberVisitor.IndirectConversionBucketBinds | DTOGenerator/Visitors/ModelMemberVisitor.cs:80-85 | An indirect-conversion member is recorded exactly when its single HasIndirectConversion record binds, and it is recorded with the bound attribute. |
| ModelMemberVisitor.AtMostOneBucket | DTOGenerator/Visitors/ModelMemberVisitor.cs:41-86 | A visited field or property adds exactly one entry across the four lists, or none when it is dropped. |
| ModelMemberVisitor.VisitType | DTOGenerator/Visitors/ModelMemberVisitor.cs:25-40 | A class or struct visit does nothing once Members is non-empty. Otherwise it only extends the visitor's lists. |
| ModelMemberVisitor.VisitMembers | DTOGenerator/Visitors/ModelMemberVisitor.cs:29-31 | Visiting the members in order only extends the visitor's lists. |
| ModelMemberVisitor.VisitMember | DTOGenerator/Visitors/ModelMemberVisitor.cs:29-31 | A member visit only extends the lists. Members that are neither fields, properties nor nested types are ignored. |
| ModelMemberVisitor.VisitMemberPlainStep | DTOGenerator/Visitors/ModelMemberVisitor.cs:43-45 | One field or property visit appends the member to Members exactly when it has no recognised attributes. |
| ModelMemberVisitor.VisitMembersCollectsPlain | DTOGenerator/Visitors/ModelMemberVisitor.cs:29-31 | Over a type without nested types, Members gains exactly the unattributed fields and properties, in source order. |
| ModelMemberVisitor.FlatTypeVisit | DTOGenerator/Visitors/ModelMemberVisitor.cs:15 | After visiting such a type with a fresh visitor, MemberNames lists the names of the unattributed fields and properties, in source order. |
| ModelMemberVisitor.SecondVisitChangesNothing | DTOGenerator/Visitors/ModelMemberVisitor.cs:25-40 | Once plain members were collected, visiting any further type changes nothing. |
| DtoModelData.FindHasDTO | DTOGenerator/DTOModelData.cs:39-46 | This succeeds iff exactly one class attribute is written `HasDTO` or `HasDTOAttribute`, and it returns that attribute. Otherwise it fails with InvalidOperation. |
| DtoModelData.TwoHasDTOAttributesFail | DTOGenerator/DTOModelData.cs:40-43 | Two HasDTO attributes on one class make the lookup fail. |
| DtoModelData.BindArguments | DTOGenerator/DTOModelData.cs:48-60 | Binding succeeds iff every argument without a `name:` prefix sits at a position below 2. Otherwise it fails with ArgumentOutOfRange. A success has exactly the two slots. |
| DtoModelData.BindStep | DTOGenerator/DTOModelData.cs:53-60 | The last argument overwrites only the slot it targets, leaving the slots bound by the earlier arguments. |
| DtoModelData.UnwrittenSlotKeepsDefault | DTOGenerator/DTOModelData.cs:48-51 | A slot that no argument targets keeps its default value. |
| DtoModelData.LastWriterWins | DTOGenerator/DTOModelData.cs:53-60 | A slot holds the constant value of the last argument that targets it. That argument targets it by position or by matching `name:` key. |
| DtoModelData.GetHasDTOData | DTOGenerator/DTOModelData.cs:47-64 | No arguments give the defaults. An out-of-range position gives ArgumentOutOfRange. Once bound, the call succeeds iff slot 0 is not an int and slot 1 is an int. An int template gives InvalidCast; after that, a null form gives NullReference and a string form gives InvalidCast. A success takes its form from the int in slot 1 and its class name from slot 0 (null when slot 0 is null). |
| DtoModelData.NamedPropertyBindsByPosition | DTOGenerator/DTOModelData.cs:55-56 | `ConversionForm = 2` is bound by position into the class-name slot, so the cast fails with InvalidCast. |
| DtoModelData.NamedArgumentBindsByKey | DTOGenerator/DTOModelData.cs:57-58 | `conversionForm:` and `dtoClassname:` arguments bind by key, whatever their order. |
| DtoModelData.GetPropertiesAndFields | DTOGenerator/DTOModelData.cs:67-85 | This succeeds iff every attribute of every field and property is a simple name; otherwise the cast fails with InvalidCast. Members are the non-ignored fields and properties in source order. IgnoredRequired holds the names of the ignored required ones. |
| DtoModelData.GetMembersNames | DTOGenerator/DTOModelData.cs:86-95 | The names, in order, of the properties that have a `get` accessor. |
| DtoModelData.PropertiesNamesAreMemberNames | DTOGenerator/DTOModelData.cs:35 | The getter names form an order-preserving subsequence of the members' names. In a built descriptor, PropertiesNames therefore only names kept members. |
| DtoModelData.GetDTOModelData | DTOGenerator/DTOModelData.cs:23-36 | This succeeds iff the HasDTO lookup, the argument binding and the member scan succeed and the template is non-null. The DTO name is the template with every "[class]" replaced by the class identifier. PropertiesNames are the getter names of the kept members. |
| DtoModelData.DefaultTemplateAppendsDTO | DTOGenerator/DTOModelData.cs:30 | The default template "[class]DTO" yields the model name followed by "DTO". |
| DtoModelData.FixedTemplateIsKept | DTOGenerator/DTOModelData.cs:30 | A template without "[class]" is used unchanged. |
| LegacyModelData.DTOName | DTOGenerator/TheGenerator.cs:251 | The legacy DTO name is "DTO<", then the model name, then ">". |
| LegacyModelData.DTONameIsInjective | DTOGenerator/TheGenerator.cs:251 | Distinct model names give distinct legacy DTO names. |
| LegacyModelData.FindHasDTO | DTOGenerator/TheGenerator.cs:267-272 | The legacy lookup succeeds iff exactly one class attribute is written "HasDTO", and it returns that attribute. With none, or with two or more, it fails with InvalidOperation. |
| LegacyModelData.LongSpellingRejected | DTOGenerator/TheGenerator.cs:269 | `[HasDTOAttribute]` is rejected by the legacy lookup but accepted by the newer descriptor. |
| LegacyModelData.GetPropertiesAndFields | DTOGenerator/TheGenerator.cs:291-302 | Success iff every field or property attribute is a simple name. The result is the non-ignored fields and properties in source order. |
| LegacyModelData.SameMembersAsDescriptor | DTOGenerator/TheGenerator.cs:291-302 | The legacy member scan agrees with the newer descriptor's Members. |
| LegacyModelData.PropertiesNames | DTOGenerator/TheGenerator.cs:264 | Taking the single identifier token fails with InvalidOperation iff some member is a field. Otherwise the result is every member's name, in order. |
| LegacyModelData.GetDTOModelData | DTOGenerator/TheGenerator.cs:258-265 | This succeeds iff the lookup, the conversion-form construction and the member scan succeed and no kept member is a field. It records the model name, the constructed form, the kept members, and all of their names. |
| LegacyModelData.KeptFieldFails | DTOGenerator/TheGenerator.cs:264 | A class with a non-ignored field cannot get a legacy descriptor. |
| Generator.AnyWritten | DTOGenerator/TheGenerator.cs:35-36 | True iff some attribute is written with the given name. |
| Generator.ShouldHaveDTO | DTOGenerator/TheGenerator.cs:31-37 | True iff the node is a class declaration with an attribute written exactly "HasDTO". |
| Generator.DedupProperties | DTOGenerator/TheGenerator.cs:82 | Removing repeats keeps the first occurrences in order, keeps every element and leaves no duplicate. |
| Generator.Distinct | DTOGenerator/TheGenerator.cs:82 | The loop computes the first-occurrence deduplication: an order-preserving, duplicate-free subsequence with the same elements. |
| Generator.FetchAllNonGeneratorUsings | DTOGenerator/TheGenerator.cs:76-97 | The output is an order-preserving, duplicate-free subsequence of all using directives. A directive is in it iff it occurs in the input and its filter text does not start with "SynoLib". |
| Generator.KeptUsingsProperties | DTOGenerator/TheGenerator.cs:76-97 | The same three properties, stated of the reference definition. |
| Generator.NoDuplicatesInSubsequence | DTOGenerator/TheGenerator.cs:82-94 | Filtering a duplicate-free sequence leaves it duplicate-free. |
| Generator.GlobalQualifiedGeneratorUsingKept | DTOGenerator/TheGenerator.cs:90-91 | `using global::SynoLib.Generators;` is kept: it is a qualified name whose left part reads `global::SynoLib`, and that text does not start with "SynoLib". |
| Generator.PrefixNotNamespace | DTOGenerator/TheGenerator.cs:84-94 | The check is a textual prefix test: "SynoLibrary" is dropped like "SynoLib.Generators". |
| Generator.TextualRepeatsKept | DTOGenerator/TheGenerator.cs:78-82 | Two distinct directive nodes with the same text are both kept, because repeats are removed by node identity. |
| Generator.CreateStaticConversionBlock | DTOGenerator/TheGenerator.cs:200-218 | Exactly one assignment per property name, in the same order, each reading the same-named member of the parameter. |
| Generator.Initialize | DTOGenerator/TheGenerator.cs:200-218 | An object initialiser sets exactly the assigned properties, each to the source's value of that property. |
| Generator.ConversionRoundTrip | DTOGenerator/TheGenerator.cs:142-146 | Converting a model to a DTO with `_toDTOFunc` and back with `_toModelFunc` restores every listed property and sets no other. |
| Generator.CreateConversions | DTOGenerator/TheGenerator.cs:122-172 | The member count is 2·[c≠None] + 2·[Explicit∈c] + 2·[Implicit∈c]. None emits nothing. Otherwise the two helpers come first. An explicit (implicit) operator is emitted iff c has Explicit (Implicit). After the helpers, operators come in pairs of one kind. Each pair is first DTO→Model (returns the model type, takes `dto`, calls `_toModelFunc`), then Model→DTO (returns the DTO name, takes `model`, calls `_toDTOFunc`). Every explicit operator precedes every implicit one. |
| Generator.LegacyOperatorsUseTheClass | DTOGenerator/TheGenerator.cs:108 | With the legacy descriptor, whose DTO name is `DTO<Model>`, the Model→DTO operators return exactly the emitted class's name, and the DTO→Model operators take it. |
| Generator.DefaultTemplateOperatorsMissTheClass | DTOGenerator/DTOModelData.cs:30 | With the newer descriptor's default template the DTO name is `ModelDTO`. The Model→DTO operators then return a type other than the emitted class `DTO<Model>`. |
| Generator.OperatorsCallEmittedHelpers | DTOGenerator/TheGenerator.cs:184-198 | Every emitted operator calls a helper that is itself emitted with the same parameter. |
| Generator.BothFormsEmitFourOperators | DTOGenerator/TheGenerator.cs:148-169 | Explicit\|Implicit emits both operator pairs, each DTO→Model first. This holds although the documented reading drops Implicit. |
| Generator.MethodFormsEmitOnlyHelpers | DTOGenerator/TheGenerator.cs:142-171 | StaticMethods or ReferenceMethods alone emit only the two helpers. |
| Generator.CopyFieldsAndProperties | DTOGenerator/TheGenerator.cs:110-114 | The copied members are the model's fields and properties, in source order. |
| Generator.BuildDTOClass | DTOGenerator/TheGenerator.cs:100-118 | The class is named "DTO<" + model + ">". Its members are the copied fields and properties in source order, followed by exactly the conversion members. |
| Generator.CreateDTOClass | DTOGenerator/TheGenerator.cs:100-118 | A class is produced iff the descriptor can be built, and then it is built from that descriptor. |
| Generator.IgnoredMembersAreCopied | DTOGenerator/TheGenerator.cs:110-114 | A DTOIgnore'd field or property is still copied into the DTO, because the copy step reads the raw member list. |

## Left out

- Incremental-generator plumbing: `Initialize`, `Execute`, the semantic model,
  `GetOperation` and `AddSource` in DTOGenerator/TheGenerator.cs:19-74. This
  is host I/O. Constant values are inputs.
- Rendering of the emitted syntax: tokens, trivia, whitespace and the
  `SyntaxFactory` calls (DTOGenerator/TheGenerator.cs:174-198, 219-246).
  Emitted members are abstract records (`HelperField`, `ConversionOperator`,
  `Assignment`).
- `GetAttributeFromSyntax` (DTOGenerator/TheGenerator.cs:274-289) selects a
  constructor by reflection and invokes it. In the legacy descriptor it is the
  `construct` parameter of `LegacyModelData.GetDTOModelData`.
- The semantic `HasDTOAttribute` type check in `Execute`
  (DTOGenerator/TheGenerator.cs:42-52). It needs compiler type information,
  and its result is unused.
- Detection of the `required` keyword by token equality
  (DTOGenerator/Visitors/ModelMemberVisitor.cs:47, 70). It is the boolean
  `isRequired`.
- DTOGenerator/Attributes/DTOIgnore.cs is an empty marker attribute. Only its
  name matters.
- Identifier text versus value text: `@`-escaped identifiers are taken as
  plain strings.
- `StartsWith` in the using filter is culture-sensitive in .NET. It is modelled
  as an ordinal prefix test.
- DTOModelData.cs:61 calls a two-argument `HasDTOAttribute` constructor that
  HasDTOAttribute.cs does not declare. It is modelled as the evident record of
  the two values.
- The helper delegate types are hard-coded as "DTO<Product>" and "Product"
  (DTOGenerator/TheGenerator.cs:143-144). They are kept as these constants.
- The two `DTOModelData` definitions are modelled separately.
  Both are top-level records of the same namespace, so the call in
  `CreateDTOClass` does not resolve to one. `Generator.CreateDTOClass` uses the
  one in DTOModelData.cs. The legacy descriptor feeds the same conversion
  builder through `Generator.FromLegacy`, as `LegacyOperatorsUseTheClass`
  states.
- Enum-typed argument values are modelled as ints; an unboxing cast to the
  enum accepts exactly the ints.
- Constant argument values are strings or ints only. Bool, char and floating
  constants are not expressible. Every cast in the modelled code rejects them
  with InvalidCast, the same outcome as the wrong one of string and int.
- HasDtoAttribute.FromInt32: only values 0..15 are characterised (the flag
  bits). Wider and negative ints are cast bit-for-bit but not stated.
- ModelMemberVisitor.VisitFieldOrProperty: states the conversion lists' growth
  by prefix and length. The appended entry itself is stated by
  `ConversionBucketBinds` and `IndirectConversionBucketBinds`.
