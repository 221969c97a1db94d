/** The identifier of a declaration: `IdentifierNameVisitor` answers for
    classes, structs, properties and fields, and null for everything else. */
module IdentifierNameVisitor {
  import opened Wrappers
  import opened Syntax

  /** The identifier of a member declaration; a field answers with its first
      declarator only. */
  function MemberIdentifier(m: MemberDecl): (r: Option<string>)
    ensures r.None? <==> m.kind.OtherMember?
    ensures m.kind.Field? ==> r == Some(m.kind.firstVariable)
    ensures m.kind.Property? ==> r == Some(m.kind.identifier)
    ensures m.kind.NestedType? ==> r == Some(m.kind.declaration.identifier)
  {
    match m.kind
    case Field(first, _) => Some(first)
    case Property(identifier, _) => Some(identifier)
    case NestedType(t) => Some(t.identifier)
    case OtherMember => None
  }

  /** `member.Accept(IdentifierNameVisitor.Instance) ?? ""`. */
  function NameOrEmpty(m: MemberDecl): string {
    MemberIdentifier(m).GetOr("")
  }

  /** A field declaring several variables is named by its first one: the other
      declarators never influence the answer. */
  lemma FieldNamedByFirstDeclarator(m: MemberDecl, others: seq<string>)
    requires m.kind.Field?
    ensures MemberIdentifier(m.(kind := Field(m.kind.firstVariable, others))) == MemberIdentifier(m)
    ensures NameOrEmpty(m) == m.kind.firstVariable
  {
  }
}
