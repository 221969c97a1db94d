/** The class-level `HasDTO` attribute: the derived-name template, the
    `ConversionForm` flag set and their defaults. */
module HasDtoAttribute {
  import Wrappers
  import opened Syntax

  /** `ConversionForm`, a `[Flags]`-style enum over a 32-bit `int`. */
  type ConversionForm = bv32

  const None: ConversionForm := 0
  const Explicit: ConversionForm := 1
  const Implicit: ConversionForm := 2
  const StaticMethods: ConversionForm := 4
  const ReferenceMethods: ConversionForm := 8

  /** The placeholder replaced by the model's name. */
  const ClassPlaceholder: string := "[class]"
  const DefaultDTOClassName: string := "[class]DTO"
  const DefaultConversionForm: ConversionForm := Explicit

  /** The attribute's settings; the class name is a nullable string. */
  datatype HasDTOAttribute = HasDTOAttribute(dtoClassName: Wrappers.Option<string>, conversionForm: ConversionForm)

  /** `new HasDTOAttribute()`: the property initialisers. */
  function Default(): (a: HasDTOAttribute)
    ensures a.dtoClassName == Wrappers.Some("[class]DTO")
    ensures a.conversionForm == Explicit
  {
    HasDTOAttribute(Wrappers.Some(DefaultDTOClassName), DefaultConversionForm)
  }

  /** `c.HasFlag(flag)`. */
  predicate HasFlag(c: ConversionForm, flag: ConversionForm) {
    c & flag == flag
  }

  /** The enum value of a boxed `int`, bit for bit (two's complement). */
  function FromInt32(n: Int32): (c: ConversionForm)
    ensures 0 <= n < 16 ==> c & 0xFFFF_FFF0 == 0
  {
    if n >= 0 then (n as int) as bv32 else ((n as int) + 0x1_0000_0000) as bv32
  }

  /** The named flags occupy distinct bits, and `None` adds nothing to any flag. */
  lemma FlagsAreDisjointBits(f: ConversionForm)
    ensures Explicit & Implicit == 0 && Explicit & StaticMethods == 0 && Explicit & ReferenceMethods == 0
    ensures Implicit & StaticMethods == 0 && Implicit & ReferenceMethods == 0 && StaticMethods & ReferenceMethods == 0
    ensures None | f == f
    ensures HasFlag(f, None)
  {
  }

  /** The combination of a choice of the four named flags. */
  function Combine(explicit: bool, implicit: bool, staticMethods: bool, referenceMethods: bool): (c: ConversionForm)
    ensures HasFlag(c, Explicit) == explicit && HasFlag(c, Implicit) == implicit
    ensures HasFlag(c, StaticMethods) == staticMethods && HasFlag(c, ReferenceMethods) == referenceMethods
    ensures c == None <==> !explicit && !implicit && !staticMethods && !referenceMethods
  {
    (if explicit then Explicit else None) | (if implicit then Implicit else None)
    | (if staticMethods then StaticMethods else None) | (if referenceMethods then ReferenceMethods else None)
  }

  /** Every value within the four flag bits is the combination of exactly the
      flags it has: the decomposition exists and is unique. */
  lemma DecomposeUniquely(c: ConversionForm, e: bool, i: bool, s: bool, r: bool)
    requires c & 0xFFFF_FFF0 == 0
    ensures c == Combine(HasFlag(c, Explicit), HasFlag(c, Implicit), HasFlag(c, StaticMethods), HasFlag(c, ReferenceMethods))
    ensures c == Combine(e, i, s, r) ==>
      e == HasFlag(c, Explicit) && i == HasFlag(c, Implicit) && s == HasFlag(c, StaticMethods) && r == HasFlag(c, ReferenceMethods)
  {
  }

  /** The binary digits of a small `int` are exactly the flags of its enum value. */
  lemma SmallValuesDecode(n: Int32)
    requires 0 <= n < 16
    ensures FromInt32(n) == Combine(n % 2 == 1, (n / 2) % 2 == 1, (n / 4) % 2 == 1, n / 8 == 1)
  {
    if n == 0 {} else if n == 1 {} else if n == 2 {} else if n == 3 {}
    else if n == 4 {} else if n == 5 {} else if n == 6 {} else if n == 7 {}
    else if n == 8 {} else if n == 9 {} else if n == 10 {} else if n == 11 {}
    else if n == 12 {} else if n == 13 {} else if n == 14 {} else {}
  }

  /** The rule the attribute's documentation states: Implicit is ignored when
      Explicit is also set. The generator does not apply it. */
  function DocumentedForm(c: ConversionForm): (d: ConversionForm)
    ensures HasFlag(c, Explicit) ==> !HasFlag(d, Implicit) && HasFlag(d, Explicit)
    ensures !HasFlag(c, Explicit) ==> d == c
    ensures HasFlag(d, StaticMethods) == HasFlag(c, StaticMethods)
    ensures HasFlag(d, ReferenceMethods) == HasFlag(c, ReferenceMethods)
  {
    if HasFlag(c, Explicit) then c & !Implicit else c
  }
}
