/** The C++ element type `xftcpp::DType` (xftcpp/src/dtype.h, dtype.cpp):
    a kind whose numeric code coincides with XLA's `PrimitiveType` code,
    its storage size, its name, and the conversions to and from XLA codes. */
module XftDType {
  import opened Wrappers

  datatype Kind =
    | Invalid | Pred
    | S2 | S4 | S8 | S16 | S32 | S64
    | U2 | U4 | U8 | U16 | U32 | U64
    | F16 | F32 | F64 | BF16 | C64 | C128
    | Token | Opaque
    | F4E2M1FN | F8E3M4 | F8E4M3 | F8E4M3FN | F8E4M3B11FNUZ | F8E4M3FNUZ
    | F8E5M2 | F8E5M2FNUZ | F8E8M0FNU
    | String

  /** The enumerator value of each kind; it is also XLA's code for it. */
  function Code(k: Kind): nat
  {
    match k
    case Invalid => 0        case Pred => 1
    case S2 => 26            case S4 => 21          case S8 => 2
    case S16 => 3            case S32 => 4          case S64 => 5
    case U2 => 27            case U4 => 22          case U8 => 6
    case U16 => 7            case U32 => 8          case U64 => 9
    case F16 => 10           case F32 => 11         case F64 => 12
    case BF16 => 16          case C64 => 15         case C128 => 18
    case Token => 17         case Opaque => 14
    case F4E2M1FN => 32      case F8E3M4 => 29      case F8E4M3 => 28
    case F8E4M3FN => 20      case F8E4M3B11FNUZ => 23
    case F8E4M3FNUZ => 25    case F8E5M2 => 19      case F8E5M2FNUZ => 24
    case F8E8M0FNU => 33
    case String => 99
  }

  /** No two kinds share a code, so a code names at most one kind. */
  lemma CodeInjective(a: Kind, b: Kind)
    ensures Code(a) == Code(b) <==> a == b
  {
  }

  predicate IsSubByte(k: Kind) { k in {S2, S4, U2, U4, F4E2M1FN} }

  /** `DType::byte_size`: whole bytes per element; none for sub-byte kinds
      and for kinds without a fixed-size representation. */
  function ByteSize(k: Kind): (r: Option<nat>)
    ensures r.Some? ==> r.value in {1, 2, 4, 8, 16}
    ensures r.None? <==> IsSubByte(k) || k in {Token, Opaque, Invalid, String}
  {
    match k
    case S2 | U2 | S4 | U4 | F4E2M1FN => None
    case Pred | S8 | U8 | F8E3M4 | F8E4M3 | F8E8M0FNU | F8E4M3FN
      | F8E4M3B11FNUZ | F8E4M3FNUZ | F8E5M2 | F8E5M2FNUZ => Some(1)
    case S16 | U16 | F16 | BF16 => Some(2)
    case S32 | U32 | F32 => Some(4)
    case S64 | U64 | F64 | C64 => Some(8)
    case C128 => Some(16)
    case Token | Opaque | Invalid | String => None
  }

  /** `DType::bit_size`: bits per element. */
  function BitSize(k: Kind): (r: Option<nat>)
  {
    match k
    case S2 | U2 => Some(2)
    case S4 | U4 | F4E2M1FN => Some(4)
    case Pred | S8 | U8 | F8E3M4 | F8E4M3 | F8E8M0FNU | F8E4M3FN
      | F8E4M3B11FNUZ | F8E4M3FNUZ | F8E5M2 | F8E5M2FNUZ => Some(8)
    case S16 | U16 | F16 | BF16 => Some(16)
    case S32 | U32 | F32 => Some(32)
    case S64 | U64 | F64 | C64 => Some(64)
    case C128 => Some(128)
    case Token | Opaque | Invalid | String => None
  }

  /** The two size queries agree: a kind with a byte size has eight bits per
      byte, and a kind has a bit size but no byte size exactly when it is
      narrower than a byte. */
  lemma BitSizeMatchesByteSize(k: Kind)
    ensures ByteSize(k).Some? ==> BitSize(k) == Some(8 * ByteSize(k).value)
    ensures ByteSize(k).None? && BitSize(k).Some? <==> IsSubByte(k)
    ensures IsSubByte(k) ==> BitSize(k).value in {2, 4}
    ensures BitSize(k).None? <==> k in {Token, Opaque, Invalid, String}
  {
  }

  /** `DType::DebugString`. */
  function DebugString(k: Kind): string
  {
    match k
    case Invalid => "INVALID"    case Pred => "PRED"
    case S2 => "S2"              case S4 => "S4"            case S8 => "S8"
    case S16 => "S16"            case S32 => "S32"          case S64 => "S64"
    case U2 => "U2"              case U4 => "U4"            case U8 => "U8"
    case U16 => "U16"            case U32 => "U32"          case U64 => "U64"
    case F16 => "F16"            case F32 => "F32"          case F64 => "F64"
    case BF16 => "BF16"          case C64 => "C64"          case C128 => "C128"
    case Token => "TOKEN"        case Opaque => "OPAQUE"
    case F4E2M1FN => "F4E2M1FN"  case F8E3M4 => "F8E3M4"    case F8E4M3 => "F8E4M3"
    case F8E4M3FN => "F8E4M3FN"  case F8E4M3B11FNUZ => "F8E4M3B11FNUZ"
    case F8E4M3FNUZ => "F8E4M3FNUZ"  case F8E5M2 => "F8E5M2"
    case F8E5M2FNUZ => "F8E5M2FNUZ"  case F8E8M0FNU => "F8E8M0FNU"
    case String => "STRING"
  }

  /** Each kind prints as its fixed upper-case name. */
  lemma DebugStringExamples()
    ensures DebugString(F32) == "F32" && DebugString(BF16) == "BF16"
    ensures DebugString(Invalid) == "INVALID" && DebugString(String) == "STRING"
    ensures DebugString(F8E4M3B11FNUZ) == "F8E4M3B11FNUZ"
  {
  }

  /** Distinct kinds print under distinct names. */
  lemma DebugStringInjective(a: Kind, b: Kind)
    ensures DebugString(a) == DebugString(b) <==> a == b
  {
    if DebugString(a) == DebugString(b) {
      if a in {S2, S4, S8, S16, S32, S64} {
        SignedDebugStringNamesOne(a, b);
      } else if a in {U2, U4, U8, U16, U32, U64} {
        UnsignedDebugStringNamesOne(a, b);
      } else if a in {F16, F32, F64, BF16, C64, C128} {
        WideDebugStringNamesOne(a, b);
      } else if a in {F4E2M1FN, F8E3M4, F8E4M3, F8E5M2, F8E4M3FN} {
        NarrowDebugStringNamesOne(a, b);
      } else if a in {F8E4M3B11FNUZ, F8E4M3FNUZ, F8E5M2FNUZ, F8E8M0FNU} {
        FiniteDebugStringNamesOne(a, b);
      } else {
        OtherDebugStringNamesOne(a, b);
      }
    }
  }

  /** Among the signed integer kinds, a debug string names one kind. */
  lemma SignedDebugStringNamesOne(a: Kind, b: Kind)
    requires a in {S2, S4, S8, S16, S32, S64}
    requires DebugString(a) == DebugString(b)
    ensures a == b
  {
  }

  /** Among the unsigned integer kinds, a debug string names one kind. */
  lemma UnsignedDebugStringNamesOne(a: Kind, b: Kind)
    requires a in {U2, U4, U8, U16, U32, U64}
    requires DebugString(a) == DebugString(b)
    ensures a == b
  {
  }

  /** Among the floating-point and complex kinds of sixteen bits and more, a debug string names one kind. */
  lemma WideDebugStringNamesOne(a: Kind, b: Kind)
    requires a in {F16, F32, F64, BF16, C64, C128}
    requires DebugString(a) == DebugString(b)
    ensures a == b
  {
  }

  /** Among the first small floating-point kinds, a debug string names one kind. */
  lemma NarrowDebugStringNamesOne(a: Kind, b: Kind)
    requires a in {F4E2M1FN, F8E3M4, F8E4M3, F8E5M2, F8E4M3FN}
    requires DebugString(a) == DebugString(b)
    ensures a == b
  {
  }

  /** Among the small floating-point kinds without infinities, a debug string names one kind. */
  lemma FiniteDebugStringNamesOne(a: Kind, b: Kind)
    requires a in {F8E4M3B11FNUZ, F8E4M3FNUZ, F8E5M2FNUZ, F8E8M0FNU}
    requires DebugString(a) == DebugString(b)
    ensures a == b
  {
  }

  /** Among the remaining kinds, a debug string names one kind. */
  lemma OtherDebugStringNamesOne(a: Kind, b: Kind)
    requires a in {Invalid, Pred, Token, Opaque, String}
    requires DebugString(a) == DebugString(b)
    ensures a == b
  {
  }

  /** `ToPrimitiveType`: every kind except the string kind maps to the XLA
      code equal to its own enumerator value. */
  function ToPrimitiveType(k: Kind): (r: Result<nat>)
    ensures r.Ok? <==> k != String
    ensures r.Ok? ==> r.value == Code(k)
    ensures r.Err? ==> r.error == InvalidArgument
  {
    if k == String then Err(InvalidArgument) else Ok(Code(k))
  }

  /** The XLA codes `FromPrimitiveType` accepts. */
  const SupportedCodes: set<int> :=
    {0, 1, 26, 21, 2, 3, 4, 5, 27, 22, 6, 7, 8, 9, 32, 29, 28, 20, 23, 25,
     19, 24, 33, 10, 11, 16, 12, 15, 18, 17, 14}

  function KindOfCode(c: int): (k: Kind)
    requires c in SupportedCodes
    ensures Code(k) == c
  {
    match c
    case 0 => Invalid        case 1 => Pred
    case 26 => S2            case 21 => S4          case 2 => S8
    case 3 => S16            case 4 => S32          case 5 => S64
    case 27 => U2            case 22 => U4          case 6 => U8
    case 7 => U16            case 8 => U32          case 9 => U64
    case 32 => F4E2M1FN      case 29 => F8E3M4      case 28 => F8E4M3
    case 20 => F8E4M3FN      case 23 => F8E4M3B11FNUZ
    case 25 => F8E4M3FNUZ    case 19 => F8E5M2      case 24 => F8E5M2FNUZ
    case 33 => F8E8M0FNU
    case 10 => F16           case 11 => F32         case 16 => BF16
    case 12 => F64           case 15 => C64         case 18 => C128
    case 17 => Token         case 14 => Opaque
  }

  /** `FromPrimitiveType`: a listed XLA code becomes the kind with that
      enumerator value; any other code is an InvalidArgument error. */
  function FromPrimitiveType(c: int): (r: Result<Kind>)
    ensures r.Ok? <==> c in SupportedCodes
    ensures r.Ok? ==> Code(r.value) == c && r.value != String
    ensures r.Err? ==> r.error == InvalidArgument
  {
    if c in SupportedCodes then Ok(KindOfCode(c)) else Err(InvalidArgument)
  }

  /** The two conversions are inverse: every kind that XLA knows survives a
      trip through its code, and every accepted code survives a trip through
      its kind. The supported codes are exactly the codes of the kinds other
      than the string kind. */
  lemma PrimitiveTypeRoundTrip(k: Kind, c: int)
    ensures k != String ==> FromPrimitiveType(ToPrimitiveType(k).value) == Ok(k)
    ensures FromPrimitiveType(c).Ok? ==> ToPrimitiveType(FromPrimitiveType(c).value) == Ok(c)
    ensures Code(k) in SupportedCodes <==> k != String
  {
    if k != String {
      CodeInjective(k, KindOfCode(Code(k)));
    }
  }
}
