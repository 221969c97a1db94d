/** The declarations the generator reads, reduced to what its decisions depend
    on: attribute names and argument values, member kinds and identifiers, the
    `required` modifier and the presence of a `get` accessor. */
module Syntax {
  import opened Wrappers
  import Sequences

  /** A C# `int`. */
  newtype Int32 = x: int | -0x8000_0000 <= x < 0x8000_0000

  /** A compile-time constant of an attribute argument, as the compiler
      reports it. Enum constants are reported as their underlying `int`. */
  datatype Value = Str(text: string) | Int(number: Int32)

  /** An attribute argument expression, reduced to what decides its constant value. */
  datatype ArgExpr =
    | Constant(value: Value)    // a literal or constant expression
    | TypeOf(typeName: string)  // `typeof(T)`: an operation without a constant value
    | NonConstant               // any other expression, including the `null` literal

  /** `operation?.ConstantValue.Value`: the constant, or null. */
  function ConstantValueOf(e: ArgExpr): (r: Option<Value>)
    ensures r.Some? <==> e.Constant?
    ensures e.Constant? ==> r.value == e.value
  {
    match e
    case Constant(v) => Some(v)
    case _ => None
  }

  /** How an attribute argument is written: `v`, `name: v` or `Name = v`. */
  datatype ArgForm = Positional | NameColon(name: string) | NameEquals(name: string)

  datatype Argument = Argument(form: ArgForm, expr: ArgExpr)

  /** A name as written in source: `A`, `A.B`, `alias::B` or `A<T>`. */
  datatype NameSyntax =
    | IdentifierName(identifier: string)
    | QualifiedName(left: NameSyntax, right: string)
    | AliasQualifiedName(alias: string, name: string)
    | GenericName(text: string)  // `A<T>`, kept as its full text

  /** `name.ToString()`. */
  function NameText(n: NameSyntax): string {
    match n
    case IdentifierName(id) => id
    case QualifiedName(left, right) => NameText(left) + "." + right
    case AliasQualifiedName(alias, name) => alias + "::" + name
    case GenericName(text) => text
  }

  datatype Attribute = Attribute(name: NameSyntax, args: seq<Argument>)

  /** The attribute's name as written, `node.Name.ToString()`. */
  function WrittenName(a: Attribute): string {
    NameText(a.name)
  }

  /** `attributeLists.SelectMany(al => al.Attributes)`. */
  function AllAttributes(lists: seq<seq<Attribute>>): seq<Attribute> {
    Sequences.Flatten(lists)
  }

  datatype TypeKind = Class | Struct

  /** A member of a class or struct. A field declaration always has at least
      one variable declarator. */
  datatype MemberKind =
    | Field(firstVariable: string, otherVariables: seq<string>)
    | Property(identifier: string, hasGetAccessor: bool)
    | NestedType(declaration: TypeDecl)
    | OtherMember

  datatype MemberDecl = MemberDecl(kind: MemberKind, attributeLists: seq<seq<Attribute>>, isRequired: bool)

  datatype TypeDecl = TypeDecl(kind: TypeKind, identifier: string, attributeLists: seq<seq<Attribute>>, members: seq<MemberDecl>)

  predicate IsFieldOrProperty(m: MemberDecl) {
    m.kind.Field? || m.kind.Property?
  }

  /** The .NET exception a step of the generator throws. */
  datatype Error =
    | ArgumentNull         // ArgumentNullException
    | IndexOutOfRange      // IndexOutOfRangeException / ArgumentOutOfRangeException of a list indexer
    | ArgumentOutOfRange   // ArgumentOutOfRangeException of `ElementAt`
    | InvalidOperation     // InvalidOperationException of `Single`
    | InvalidCast          // InvalidCastException of a cast or unboxing
    | NullReference        // NullReferenceException

  /** `(string)value`: null stays null; a non-string throws. */
  function CastToString(v: Option<Value>): (r: Result<Option<string>, Error>)
    ensures r.Success? <==> !(v.Some? && v.value.Int?)
    ensures r.Success? ==> (r.value.Some? <==> v.Some?)
    ensures r.Success? && v.Some? ==> r.value.value == v.value.text
  {
    match v
    case None => Success(None)
    case Some(Str(s)) => Success(Some(s))
    case Some(Int(_)) => Failure(InvalidCast)
  }

  /** `(E)value` for an `int`-backed enum `E`: unboxing null throws a
      NullReferenceException, unboxing a string an InvalidCastException. */
  function UnboxInt32(v: Option<Value>): (r: Result<Int32, Error>)
    ensures r.Success? <==> v.Some? && v.value.Int?
    ensures r.Success? ==> r.value == v.value.number
    ensures v.None? ==> r == Failure(NullReference)
  {
    match v
    case None => Failure(NullReference)
    case Some(Int(n)) => Success(n)
    case Some(Str(_)) => Failure(InvalidCast)
  }
}
