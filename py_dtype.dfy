/** The Python dtype layer (xft/_internal/dtype.py): the registry of dtypes,
    the type-promotion lattice and its least upper bounds, x64
    canonicalisation, the inexact and complex conversions, safe casting and
    short names.

    The module globals `x64_enabled` and `_DTYPE_PROMOTION_MODE` are the
    fields of a `Settings` object; the functions that read them take them
    as arguments. The inputs are xft dtypes and the three weak Python types;
    conversion from NumPy dtypes and other Python objects is not modelled. */
module XftPyDType {
  import opened Wrappers
  import Text

  // ---------------------------------------------------------------------
  // The dtypes
  // ---------------------------------------------------------------------

  /** The members of the `dtypes` namespace. */
  datatype DType =
    | Void | Float0 | Bool
    | Int2 | UInt2 | Int4 | UInt4 | Int8 | UInt8 | Int16 | UInt16
    | Int32 | UInt32 | Int64 | UInt64
    | Float4E2M1FN | Float8E3M4 | Float8E4M3 | Float8E5M2 | Float8E4M3FN
    | Float8E8M0FNU | Float8E4M3B11FNUZ | Float8E4M3FNUZ | Float8E5M2FNUZ
    | Float16 | BFloat16 | Float32 | Float64
    | Complex64 | Complex128
    | String

  function Name(t: DType): string
  {
    match t
    case Void => "void"
    case Float0 => "float0"
    case Bool => "bool"
    case Int2 => "int2"
    case UInt2 => "uint2"
    case Int4 => "int4"
    case UInt4 => "uint4"
    case Int8 => "int8"
    case UInt8 => "uint8"
    case Int16 => "int16"
    case UInt16 => "uint16"
    case Int32 => "int32"
    case UInt32 => "uint32"
    case Int64 => "int64"
    case UInt64 => "uint64"
    case Float4E2M1FN => "float4_e2m1fn"
    case Float8E3M4 => "float8_e3m4"
    case Float8E4M3 => "float8_e4m3"
    case Float8E5M2 => "float8_e5m2"
    case Float8E4M3FN => "float8_e4m3fn"
    case Float8E8M0FNU => "float8_e8m0fnu"
    case Float8E4M3B11FNUZ => "float8_e4m3b11fnuz"
    case Float8E4M3FNUZ => "float8_e4m3fnuz"
    case Float8E5M2FNUZ => "float8_e5m2fnuz"
    case Float16 => "float16"
    case BFloat16 => "bfloat16"
    case Float32 => "float32"
    case Float64 => "float64"
    case Complex64 => "complex64"
    case Complex128 => "complex128"
    case String => "string"
  }

  function Priority(t: DType): int
  {
    match t
    case Void => -2
    case Float0 => -1
    case Bool => 0
    case Int2 => 4
    case UInt2 => 5
    case Int4 => 6
    case UInt4 => 7
    case Int8 => 8
    case UInt8 => 9
    case Int16 => 10
    case UInt16 => 11
    case Int32 => 12
    case UInt32 => 13
    case Int64 => 14
    case UInt64 => 15
    case Float4E2M1FN => 16
    case Float8E3M4 => 17
    case Float8E4M3 => 18
    case Float8E5M2 => 19
    case Float8E4M3FN => 20
    case Float8E8M0FNU => 21
    case Float8E4M3B11FNUZ => 22
    case Float8E4M3FNUZ => 23
    case Float8E5M2FNUZ => 24
    case Float16 => 25
    case BFloat16 => 26
    case Float32 => 27
    case Float64 => 28
    case Complex64 => 30
    case Complex128 => 32
    case String => 40
  }

  /** The dtype with a given priority, if any. */
  function FromPriority(p: int): (r: Option<DType>)
    ensures r.Some? ==> Priority(r.value) == p
  {
    match p
    case -2 => Some(Void)
    case -1 => Some(Float0)
    case 0 => Some(Bool)
    case 4 => Some(Int2)
    case 5 => Some(UInt2)
    case 6 => Some(Int4)
    case 7 => Some(UInt4)
    case 8 => Some(Int8)
    case 9 => Some(UInt8)
    case 10 => Some(Int16)
    case 11 => Some(UInt16)
    case 12 => Some(Int32)
    case 13 => Some(UInt32)
    case 14 => Some(Int64)
    case 15 => Some(UInt64)
    case 16 => Some(Float4E2M1FN)
    case 17 => Some(Float8E3M4)
    case 18 => Some(Float8E4M3)
    case 19 => Some(Float8E5M2)
    case 20 => Some(Float8E4M3FN)
    case 21 => Some(Float8E8M0FNU)
    case 22 => Some(Float8E4M3B11FNUZ)
    case 23 => Some(Float8E4M3FNUZ)
    case 24 => Some(Float8E5M2FNUZ)
    case 25 => Some(Float16)
    case 26 => Some(BFloat16)
    case 27 => Some(Float32)
    case 28 => Some(Float64)
    case 30 => Some(Complex64)
    case 32 => Some(Complex128)
    case 40 => Some(String)
    case _ => None
  }

  /** Every dtype has its own priority, so `DType.__eq__`, which compares
      name and priority, holds exactly between a dtype and itself, and the
      `<` and `>` orderings are strict total orders on the dtypes. */
  lemma PrioritiesDistinct(a: DType, b: DType)
    ensures Priority(a) == Priority(b) <==> a == b
    ensures (Name(a) == Name(b) && Priority(a) == Priority(b)) <==> a == b
  {
    assert FromPriority(Priority(a)) == Some(a) by { PriorityRoundTrip(a); }
    assert FromPriority(Priority(b)) == Some(b) by { PriorityRoundTrip(b); }
  }

  lemma PriorityRoundTrip(t: DType)
    ensures FromPriority(Priority(t)) == Some(t)
  {
  }

  // The groupings of the namespace.
  const SInts: seq<DType> := [Int2, Int4, Int8, Int16, Int32, Int64]
  const UInts: seq<DType> := [UInt2, UInt4, UInt8, UInt16, UInt32, UInt64]
  const Ints: seq<DType> := SInts + UInts
  const Fp4s: seq<DType> := [Float4E2M1FN]
  const Fp8s: seq<DType> := [Float8E3M4, Float8E4M3, Float8E5M2, Float8E4M3FN, Float8E8M0FNU,
                             Float8E4M3B11FNUZ, Float8E4M3FNUZ, Float8E5M2FNUZ]
  const Floats: seq<DType> := Fp4s + Fp8s + [Float16, BFloat16, Float32, Float64]
  const Complexes: seq<DType> := [Complex64, Complex128]
  const CustomFps: seq<DType> := Fp4s + Fp8s + [BFloat16]
  const All: seq<DType> := [Bool] + Ints + Floats + Complexes

  /** `dtypes.is_float`: a priority in the float band and a member of
      `floats`. */
  predicate IsFloat(t: DType)
  {
    16 <= Priority(t) <= 28 && t in Floats
  }

  /** `dtypes.is_int`: a priority in the integer band and a member of
      `ints`. */
  predicate IsInt(t: DType)
  {
    4 <= Priority(t) <= 15 && t in Ints
  }

  lemma FloatClassification(t: DType)
    ensures IsFloat(t) <==> t in Floats
  {
  }

  lemma IntClassification(t: DType)
    ensures IsInt(t) <==> t in Ints
  {
  }

  lemma AllPartition(t: DType)
    ensures t in All <==> t == Bool || t in Ints || t in Floats || t in Complexes
    ensures t !in All <==> t in {Void, Float0, String}
  {
  }

  /** The classification is exactly membership of the groupings, and the
      groupings split `all` into bool, integers, floats and complexes. */
  lemma Classification(t: DType)
    ensures IsFloat(t) <==> t in Floats
    ensures IsInt(t) <==> t in Ints
    ensures t in All <==> t == Bool || IsInt(t) || IsFloat(t) || t in Complexes
    ensures t !in All <==> t in {Void, Float0, String}
  {
    FloatClassification(t);
    IntClassification(t);
    AllPartition(t);
  }

  // ---------------------------------------------------------------------
  // Settings and defaults
  // ---------------------------------------------------------------------

  datatype Mode = Standard | Strict

  /** The promotion-mode names `set_promotion_mode` and
      `_type_promotion_lattice` accept; anything else is a value error. */
  function ParseMode(s: string): (r: Result<Mode>)
    ensures r.Ok? <==> s == "standard" || s == "strict"
    ensures r.Err? ==> r.error == ValueError
    ensures r == Ok(Standard) <==> s == "standard"
  {
    if s == "standard" then Ok(Standard)
    else if s == "strict" then Ok(Strict)
    else Err(ValueError)
  }

  /** The module's configuration globals. */
  class Settings {
    var x64Enabled: bool
    var promotionMode: Mode

    /** `x64_enabled = True` and `_DTYPE_PROMOTION_MODE = "standard"`. */
    constructor ()
      ensures x64Enabled && promotionMode == Standard
    {
      x64Enabled := true;
      promotionMode := Standard;
    }

    /** `set_promotion_mode`: an unknown name is a value error and leaves
        the mode as it was. */
    method SetPromotionMode(mode: string) returns (r: Status)
      modifies this
      ensures r == Pass <==> ParseMode(mode).Ok?
      ensures r != Pass ==> r == Fail(ValueError) && promotionMode == old(promotionMode)
      ensures r == Pass ==> promotionMode == ParseMode(mode).value
      ensures x64Enabled == old(x64Enabled)
    {
      var parsed := ParseMode(mode);
      if parsed.Err? {
        return Fail(parsed.error);
      }
      promotionMode := parsed.value;
      return Pass;
    }

    /** `set_x64_enabled`. */
    method SetX64Enabled(enabled: bool)
      modifies this
      ensures x64Enabled == enabled && promotionMode == old(promotionMode)
    {
      x64Enabled := enabled;
    }

    /** `get_promotion_mode`. */
    function GetPromotionMode(): (m: Mode)
      reads this
      ensures m == promotionMode
    {
      promotionMode
    }

    /** `get_x64_enabled`. */
    function GetX64Enabled(): (b: bool)
      reads this
      ensures b == x64Enabled
    {
      x64Enabled
    }
  }

  /** `_get_default_int`, `_get_default_uint`, `_get_default_float` and
      `_get_default_complex`: the 64-bit type with x64 enabled, the 32-bit
      one without. */
  function DefaultInt(x64: bool): (t: DType)
    ensures t == if x64 then Int64 else Int32
  {
    if x64 then Int64 else Int32
  }

  function DefaultUInt(x64: bool): (t: DType)
    ensures t == if x64 then UInt64 else UInt32
  {
    if x64 then UInt64 else UInt32
  }

  function DefaultFloat(x64: bool): (t: DType)
    ensures t == if x64 then Float64 else Float32
  {
    if x64 then Float64 else Float32
  }

  function DefaultComplex(x64: bool): (t: DType)
    ensures t == if x64 then Complex128 else Complex64
  {
    if x64 then Complex128 else Complex64
  }

  // ---------------------------------------------------------------------
  // Canonicalisation and conversions
  // ---------------------------------------------------------------------

  /** The four 64-bit types `_64_to_32_map` narrows. */
  predicate Is64Bit(t: DType)
  {
    t in {Int64, UInt64, Float64, Complex128}
  }

  /** `_64_to_32_map.get(t, t)`. */
  function Narrow(t: DType): DType
  {
    match t
    case Int64 => Int32
    case UInt64 => UInt32
    case Float64 => Float32
    case Complex128 => Complex64
    case _ => t
  }

  /** `_canonicalize_dtype(x64, t)`: the identity with x64 enabled;
      otherwise the 64-bit types become their 32-bit counterparts and every
      other type is left as it is. */
  function Canonicalize(x64: bool, t: DType): (r: DType)
    ensures x64 ==> r == t
    ensures !x64 ==> !Is64Bit(r)
    ensures !Is64Bit(t) ==> r == t
    ensures Is64Bit(t) && !x64 ==> r != t && Priority(r) < Priority(t)
  {
    if x64 then t else Narrow(t)
  }

  /** Canonicalisation is idempotent, and the defaults are already
      canonical. */
  lemma CanonicalizeIdempotent(x64: bool, t: DType)
    ensures Canonicalize(x64, Canonicalize(x64, t)) == Canonicalize(x64, t)
    ensures Canonicalize(x64, DefaultInt(x64)) == DefaultInt(x64)
    ensures Canonicalize(x64, DefaultUInt(x64)) == DefaultUInt(x64)
    ensures Canonicalize(x64, DefaultFloat(x64)) == DefaultFloat(x64)
    ensures Canonicalize(x64, DefaultComplex(x64)) == DefaultComplex(x64)
  {
  }

  /** What `check_and_canonicalize_user_dtype` returns, together with
      whether it warned that the dtype was truncated. */
  datatype UserDType = UserDType(dtype: DType, truncated: bool)

  /** `check_and_canonicalize_user_dtype` on an xft dtype or None: None is
      a value error; otherwise the canonical dtype, with a warning exactly
      when canonicalisation changed it. */
  function CheckAndCanonicalizeUserDType(x64: bool, dtypeIn: Option<DType>): (r: Result<UserDType>)
    ensures r.Err? <==> dtypeIn.None?
    ensures r.Err? ==> r.error == ValueError
    ensures r.Ok? ==> r.value.dtype == Canonicalize(x64, dtypeIn.value)
    ensures r.Ok? ==> (r.value.truncated <==> !x64 && Is64Bit(dtypeIn.value))
  {
    match dtypeIn
    case None => Err(ValueError)
    case Some(t) =>
      var c := Canonicalize(x64, t);
      Ok(UserDType(c, c != t))
  }

  /** `_change_to_inexact`: bool and the integers up to 32 bits become
      float32, the 64-bit integers float64. */
  function ChangeToInexact(t: DType): Option<DType>
  {
    match t
    case Bool => Some(Float32)
    case UInt8 => Some(Float32)
    case Int8 => Some(Float32)
    case UInt16 => Some(Float32)
    case Int16 => Some(Float32)
    case UInt32 => Some(Float32)
    case Int32 => Some(Float32)
    case UInt64 => Some(Float64)
    case Int64 => Some(Float64)
    case Int2 => Some(Float32)
    case Int4 => Some(Float32)
    case UInt2 => Some(Float32)
    case UInt4 => Some(Float32)
    case _ => None
  }

  /** `to_inexact`: floats and complexes are kept, bool and the integers
      map through `_change_to_inexact`, anything else is returned as it
      is. */
  function ToInexact(t: DType): (r: DType)
    ensures IsFloat(t) || t in Complexes ==> r == t
    ensures t == Bool || IsInt(t) ==> IsFloat(r) && (r == Float64 <==> t in {Int64, UInt64}) && (r != Float64 ==> r == Float32)
    ensures t !in All ==> r == t
  {
    if IsFloat(t) || t in Complexes then t
    else match ChangeToInexact(t)
      case Some(u) => u
      case None => t
  }

  /** Converting to inexact twice is converting once, and a numeric type
      always becomes a float or a complex. */
  lemma ToInexactIdempotent(t: DType)
    ensures ToInexact(ToInexact(t)) == ToInexact(t)
    ensures t in All ==> IsFloat(ToInexact(t)) || ToInexact(t) in Complexes
  {
    Classification(t);
  }

  /** `to_complex` AS WRITTEN: complex128 exactly when the inexact form is
      float64, complex64 otherwise. */
  function ToComplexAsWritten(t: DType): (r: DType)
    ensures r in Complexes
  {
    if ToInexact(t) == Float64 then Complex128 else Complex64
  }

  /** As written, converting complex128 "to complex" narrows it to
      complex64: its inexact form is complex128 itself, not float64. */
  lemma ToComplexNarrowsComplex128()
    ensures ToInexact(Complex128) == Complex128
    ensures ToComplexAsWritten(Complex128) == Complex64
  {
  }

  /** `to_complex` as evidently intended: the double-precision types (the
      inexact form is float64 or complex128) become complex128, all others
      complex64. It differs from the code as written only on complex128. */
  function ToComplex(t: DType): (r: DType)
    ensures r in Complexes
    ensures r == Complex128 <==> ToInexact(t) in {Float64, Complex128}
  {
    if ToInexact(t) in {Float64, Complex128} then Complex128 else Complex64
  }

  /** The corrected conversion keeps complex types and is idempotent. */
  lemma ToComplexIdempotent(t: DType)
    ensures t in Complexes ==> ToComplex(t) == t
    ensures ToComplex(ToComplex(t)) == ToComplex(t)
  {
    assert ToInexact(Complex64) == Complex64;
    assert ToInexact(Complex128) == Complex128;
    assert ToComplex(t) in {Complex64, Complex128};
  }

  /** Only complex128 has complex128 as its inexact form. */
  lemma InexactComplex128(t: DType)
    ensures ToInexact(t) == Complex128 ==> t == Complex128
  {
    Classification(t);
  }

  /** The corrected conversion agrees with the code as written on every
      type but complex128, and matches the tested cases (int32 to
      complex64, float64 to complex128). */
  lemma ToComplexAgreesElsewhere(t: DType)
    ensures t != Complex128 ==> ToComplex(t) == ToComplexAsWritten(t)
    ensures ToComplex(Int32) == Complex64 && ToComplex(Float64) == Complex128
  {
    InexactComplex128(t);
  }

  /** The replacements of `DType.short_name`: float, uint, int and complex
      abbreviated to f, u, i and c, replaced in that order. */
  function Abbreviate(s: string): string
  {
    Text.Replace(Text.Replace(Text.Replace(Text.Replace(s, "float", "f"), "uint", "u"), "int", "i"), "complex", "c")
  }

  /** `DType.short_name`. */
  function ShortName(t: DType): string
  {
    Abbreviate(Name(t))
  }

  /** uint is abbreviated before int, so uint8 becomes u8 rather than
      ui8. */
  lemma ShortNameUInt8()
    ensures ShortName(UInt8) == "u8"
  {
    PartsOfUInt8();
    AbbreviateParts("", "uint", "8", "", "");
  }

  lemma ShortNameInt64()
    ensures ShortName(Int64) == "i64"
  {
    PartsOfInt64();
    AbbreviateParts("", "int", "64", "", "");
  }

  lemma ShortNameFloat32()
    ensures ShortName(Float32) == "f32"
  {
    PartsOfFloat32();
    AbbreviateParts("", "float", "32", "", "");
  }

  /** bool holds none of the four words and is unchanged. */
  lemma ShortNameBool()
    ensures ShortName(Bool) == "bool"
  {
    PartsOfBool();
    AbbreviateParts("", "", "bool", "", "");
  }

  /** The word of the name that `short_name` abbreviates: the type word the
      name is built from, or nothing for void, bool and string. */
  function TypeWord(t: DType): string
  {
    match t
    case Int2 => "int"    case Int4 => "int"    case Int8 => "int"
    case Int16 => "int"   case Int32 => "int"   case Int64 => "int"
    case UInt2 => "uint"  case UInt4 => "uint"  case UInt8 => "uint"
    case UInt16 => "uint" case UInt32 => "uint" case UInt64 => "uint"
    case Complex64 => "complex"  case Complex128 => "complex"
    case Void => ""  case Bool => ""  case String => ""
    case _ => "float"
  }

  lemma TypeWordIsWord(t: DType)
    ensures TypeWord(t) in {"float", "uint", "int", "complex", ""}
  {
  }

  /** What comes before the type word: the "b" of bfloat16. */
  function Lead(t: DType): string
  {
    if t == BFloat16 then "b" else ""
  }

  /** The abbreviation of a type word: its first letter. */
  function Initial(w: string): (a: string)
    ensures |a| == if w == [] then 0 else 1
    ensures w != [] ==> a[0] == w[0]
  {
    if w == [] then [] else [w[0]]
  }

  /** None of the letters the four words start with. */
  predicate NoneOfFirsts(s: string)
  {
    'f' !in s && 'u' !in s && 'i' !in s && 'c' !in s
  }

  /** `n` is `lead + w + x + t0 + t1` where only the type word `w` starts
      one of the four words: the middle `x` has none of their first
      letters, and the suffix `t0 + t1` (the "fn", "fnu" or "fnuz" of the
      small floats) is too short to hold one of them, with the letter u
      only in the part `t1`, shorter than "uint". */
  predicate Parts(n: string, lead: string, w: string, x: string, t0: string, t1: string)
  {
    n == lead + w + x + t0 + t1 && NoneOfFirsts(lead) && NoneOfFirsts(x) && |t0 + t1| < 5 && |t1| < 4 &&
    'u' !in t0 && 'i' !in t0 + t1 && 'c' !in t0 + t1
  }

  /** One replacement step: the word `w` is replaced when it is the
      pattern, and nothing else in the name is. */
  lemma ReplaceStage(lead: string, w: string, x: string, t0: string, t1: string, pat: string, rep: string)
    requires |pat| > 0 && pat[0] !in lead && pat[0] !in x && (w == pat || pat[0] !in w)
    requires pat[0] !in t0 + t1 || (pat[0] !in t0 && |t1| < |pat|) || |t0 + t1| < |pat|
    ensures Text.Replace(lead + w + x + t0 + t1, pat, rep) == lead + (if w == pat then rep else w) + x + t0 + t1
  {
    var rest := x + t0 + t1;
    assert lead + w + x + t0 + t1 == lead + (w + rest);
    Text.ReplaceSplit(lead, w + rest, pat, rep);
    if w == pat {
      Text.ReplaceAtFront(pat, rest, rep);
    } else {
      Text.ReplaceSplit(w, rest, pat, rep);
    }
    if pat[0] !in t0 + t1 {
      Text.ReplaceWithoutFirstChar(rest, pat, rep);
    } else if pat[0] !in t0 && |t1| < |pat| {
      assert rest == (x + t0) + t1;
      Text.ReplaceSplit(x + t0, t1, pat, rep);
    } else {
      assert rest == x + (t0 + t1);
      Text.ReplaceSplit(x, t0 + t1, pat, rep);
    }
  }

  /** The four replacements abbreviate the type word and keep the rest. */
  lemma AbbreviateParts(lead: string, w: string, x: string, t0: string, t1: string)
    requires w in {"float", "uint", "int", "complex", ""}
    requires Parts(lead + w + x + t0 + t1, lead, w, x, t0, t1)
    ensures Abbreviate(lead + w + x + t0 + t1) == lead + Initial(w) + x + t0 + t1
  {
    var w1 := if w == "float" then "f" else w;
    var w2 := if w1 == "uint" then "u" else w1;
    var w3 := if w2 == "int" then "i" else w2;
    var w4 := if w3 == "complex" then "c" else w3;
    ReplaceStage(lead, w, x, t0, t1, "float", "f");
    ReplaceStage(lead, w1, x, t0, t1, "uint", "u");
    ReplaceStage(lead, w2, x, t0, t1, "int", "i");
    ReplaceStage(lead, w3, x, t0, t1, "complex", "c");
    assert w4 == Initial(w);
  }

  // Each name other than void and string, split into its parts.

  lemma PartsOfBool()
    ensures Parts(Name(Bool), Lead(Bool), TypeWord(Bool), "bool", "", "")
  {
  }

  lemma PartsOfInt2()
    ensures Parts(Name(Int2), Lead(Int2), TypeWord(Int2), "2", "", "")
  {
  }

  lemma PartsOfInt4()
    ensures Parts(Name(Int4), Lead(Int4), TypeWord(Int4), "4", "", "")
  {
  }

  lemma PartsOfInt8()
    ensures Parts(Name(Int8), Lead(Int8), TypeWord(Int8), "8", "", "")
  {
  }

  lemma PartsOfInt16()
    ensures Parts(Name(Int16), Lead(Int16), TypeWord(Int16), "16", "", "")
  {
  }

  lemma PartsOfInt32()
    ensures Parts(Name(Int32), Lead(Int32), TypeWord(Int32), "32", "", "")
  {
  }

  lemma PartsOfInt64()
    ensures Parts(Name(Int64), Lead(Int64), TypeWord(Int64), "64", "", "")
  {
  }

  lemma PartsOfUInt2()
    ensures Parts(Name(UInt2), Lead(UInt2), TypeWord(UInt2), "2", "", "")
  {
  }

  lemma PartsOfUInt4()
    ensures Parts(Name(UInt4), Lead(UInt4), TypeWord(UInt4), "4", "", "")
  {
  }

  lemma PartsOfUInt8()
    ensures Parts(Name(UInt8), Lead(UInt8), TypeWord(UInt8), "8", "", "")
  {
  }

  lemma PartsOfUInt16()
    ensures Parts(Name(UInt16), Lead(UInt16), TypeWord(UInt16), "16", "", "")
  {
  }

  lemma PartsOfUInt32()
    ensures Parts(Name(UInt32), Lead(UInt32), TypeWord(UInt32), "32", "", "")
  {
  }

  lemma PartsOfUInt64()
    ensures Parts(Name(UInt64), Lead(UInt64), TypeWord(UInt64), "64", "", "")
  {
  }

  lemma PartsOfFloat0()
    ensures Parts(Name(Float0), Lead(Float0), TypeWord(Float0), "0", "", "")
  {
  }

  lemma PartsOfFloat16()
    ensures Parts(Name(Float16), Lead(Float16), TypeWord(Float16), "16", "", "")
  {
  }

  lemma PartsOfBFloat16()
    ensures Parts(Name(BFloat16), Lead(BFloat16), TypeWord(BFloat16), "16", "", "")
  {
  }

  lemma PartsOfFloat32()
    ensures Parts(Name(Float32), Lead(Float32), TypeWord(Float32), "32", "", "")
  {
  }

  lemma PartsOfFloat64()
    ensures Parts(Name(Float64), Lead(Float64), TypeWord(Float64), "64", "", "")
  {
  }

  lemma PartsOfComplex64()
    ensures Parts(Name(Complex64), Lead(Complex64), TypeWord(Complex64), "64", "", "")
  {
  }

  lemma PartsOfComplex128()
    ensures Parts(Name(Complex128), Lead(Complex128), TypeWord(Complex128), "128", "", "")
  {
  }

  lemma PartsOfFloat4E2M1FN()
    ensures Parts(Name(Float4E2M1FN), Lead(Float4E2M1FN), TypeWord(Float4E2M1FN), "4_e2m1", "fn", "")
  {
  }

  lemma PartsOfFloat8E3M4()
    ensures Parts(Name(Float8E3M4), Lead(Float8E3M4), TypeWord(Float8E3M4), "8_e3m4", "", "")
  {
  }

  lemma PartsOfFloat8E4M3()
    ensures Parts(Name(Float8E4M3), Lead(Float8E4M3), TypeWord(Float8E4M3), "8_e4m3", "", "")
  {
  }

  lemma PartsOfFloat8E5M2()
    ensures Parts(Name(Float8E5M2), Lead(Float8E5M2), TypeWord(Float8E5M2), "8_e5m2", "", "")
  {
  }

  lemma PartsOfFloat8E4M3FN()
    ensures Parts(Name(Float8E4M3FN), Lead(Float8E4M3FN), TypeWord(Float8E4M3FN), "8_e4m3", "fn", "")
  {
  }

  lemma PartsOfFloat8E8M0FNU()
    ensures Parts(Name(Float8E8M0FNU), Lead(Float8E8M0FNU), TypeWord(Float8E8M0FNU), "8_e8m0", "fn", "u")
  {
  }

  lemma PartsOfFloat8E4M3B11FNUZ()
    ensures Parts(Name(Float8E4M3B11FNUZ), Lead(Float8E4M3B11FNUZ), TypeWord(Float8E4M3B11FNUZ), "8_e4m3b11", "fn", "uz")
  {
  }

  lemma PartsOfFloat8E4M3FNUZ()
    ensures Parts(Name(Float8E4M3FNUZ), Lead(Float8E4M3FNUZ), TypeWord(Float8E4M3FNUZ), "8_e4m3", "fn", "uz")
  {
  }

  lemma PartsOfFloat8E5M2FNUZ()
    ensures Parts(Name(Float8E5M2FNUZ), Lead(Float8E5M2FNUZ), TypeWord(Float8E5M2FNUZ), "8_e5m2", "fn", "uz")
  {
  }
  /** Every name other than void and string splits into its parts. */
  lemma NameHasParts(t: DType)
    requires t != Void && t != String
    ensures exists x, t0, t1 :: Parts(Name(t), Lead(t), TypeWord(t), x, t0, t1)
  {
    match t
    case Bool => PartsOfBool();
    case Int2 => PartsOfInt2();
    case Int4 => PartsOfInt4();
    case Int8 => PartsOfInt8();
    case Int16 => PartsOfInt16();
    case Int32 => PartsOfInt32();
    case Int64 => PartsOfInt64();
    case UInt2 => PartsOfUInt2();
    case UInt4 => PartsOfUInt4();
    case UInt8 => PartsOfUInt8();
    case UInt16 => PartsOfUInt16();
    case UInt32 => PartsOfUInt32();
    case UInt64 => PartsOfUInt64();
    case Float0 => PartsOfFloat0();
    case Float16 => PartsOfFloat16();
    case BFloat16 => PartsOfBFloat16();
    case Float32 => PartsOfFloat32();
    case Float64 => PartsOfFloat64();
    case Complex64 => PartsOfComplex64();
    case Complex128 => PartsOfComplex128();
    case Float4E2M1FN => PartsOfFloat4E2M1FN();
    case Float8E3M4 => PartsOfFloat8E3M4();
    case Float8E4M3 => PartsOfFloat8E4M3();
    case Float8E5M2 => PartsOfFloat8E5M2();
    case Float8E4M3FN => PartsOfFloat8E4M3FN();
    case Float8E8M0FNU => PartsOfFloat8E8M0FNU();
    case Float8E4M3B11FNUZ => PartsOfFloat8E4M3B11FNUZ();
    case Float8E4M3FNUZ => PartsOfFloat8E4M3FNUZ();
    case Float8E5M2FNUZ => PartsOfFloat8E5M2FNUZ();
  }

  /** Void holds an i but not the word int, so no replacement touches
      it. */
  lemma VoidNameKept()
    ensures Abbreviate("void") == "void"
  {
    Text.ReplaceWithoutFirstChar("void", "float", "f");
    Text.ReplaceWithoutFirstChar("void", "uint", "u");
    assert "void" == "vo" + "id";
    Text.ReplaceSplit("vo", "id", "int", "i");
    Text.ReplaceWithoutFirstChar("void", "complex", "c");
  }

  /** String holds an i but not the word int, so no replacement touches
      it. */
  lemma StringNameKept()
    ensures Abbreviate("string") == "string"
  {
    Text.ReplaceWithoutFirstChar("string", "float", "f");
    Text.ReplaceWithoutFirstChar("string", "uint", "u");
    StringHoldsNoInt();
    Text.ReplaceWithoutFirstChar("string", "complex", "c");
  }

  /** The i of string starts "ing", not int. */
  lemma StringHoldsNoInt()
    ensures Text.Replace("string", "int", "i") == "string"
  {
    assert "string" == "str" + "ing";
    Text.ReplaceSplit("str", "ing", "int", "i");
    assert "ing"[..3] != "int" by { assert "ing"[..3][2] == 'g'; }
    Text.ReplaceWithoutFirstChar("ng", "int", "i");
  }

  /** The same, read on the name: it starts with the lead and the word, and
      its abbreviation is the lead, the initial and the rest of the name. */
  lemma AbbreviatePartsOf(n: string, lead: string, w: string, x: string, t0: string, t1: string)
    requires w in {"float", "uint", "int", "complex", ""}
    requires Parts(n, lead, w, x, t0, t1)
    ensures |n| >= |lead + w| && n[..|lead + w|] == lead + w
    ensures Abbreviate(n) == lead + Initial(w) + n[|lead + w|..]
  {
    var rest := x + t0 + t1;
    assert n == (lead + w) + rest;
    SplitAt(n, lead + w, rest);
    AbbreviateParts(lead, w, x, t0, t1);
    assert lead + Initial(w) + x + t0 + t1 == lead + Initial(w) + rest;
  }

  lemma SplitAt(n: string, a: string, b: string)
    requires n == a + b
    ensures |n| >= |a| && n[..|a|] == a && n[|a|..] == b
  {
  }

  /** A name with parts: the type word cut to its initial, the rest kept. */
  lemma PartsAbbreviated(t: DType)
    requires t != Void && t != String
    ensures |Name(t)| >= |Lead(t) + TypeWord(t)| && Name(t)[..|Lead(t) + TypeWord(t)|] == Lead(t) + TypeWord(t)
    ensures ShortName(t) == Lead(t) + Initial(TypeWord(t)) + Name(t)[|Lead(t) + TypeWord(t)|..]
  {
    NameHasParts(t);
    TypeWordIsWord(t);
    var x, t0, t1 :| Parts(Name(t), Lead(t), TypeWord(t), x, t0, t1);
    AbbreviatePartsOf(Name(t), Lead(t), TypeWord(t), x, t0, t1);
  }

  /** Every name in the table: `short_name` cuts the type word of the name
      (float, uint, int or complex, after the "b" of bfloat16) to its first
      letter and keeps every other character; void, bool and string, which
      have no type word, keep their names. */
  lemma ShortNameAbbreviatesTypeWord(t: DType)
    ensures |Name(t)| >= |Lead(t) + TypeWord(t)| && Name(t)[..|Lead(t) + TypeWord(t)|] == Lead(t) + TypeWord(t)
    ensures ShortName(t) == Lead(t) + Initial(TypeWord(t)) + Name(t)[|Lead(t) + TypeWord(t)|..]
  {
    if t == Void {
      VoidNameKept();
    } else if t == String {
      StringNameKept();
    } else {
      PartsAbbreviated(t);
    }
  }

  // ---------------------------------------------------------------------
  // The promotion lattice
  // ---------------------------------------------------------------------

  /** A lattice node: an xft dtype, or one of the weak Python types int,
      float and complex. */
  datatype Node = Strong(dtype: DType) | WeakInt | WeakFloat | WeakComplex

  /** The keys of both lattices: the weak types and every dtype of `all`
      (void, float0 and string are not nodes). */
  const LatticeNodes: set<Node> := {
    WeakInt, WeakFloat, WeakComplex, Strong(Bool),
    Strong(Int2), Strong(UInt2), Strong(Int4), Strong(UInt4), Strong(Int8), Strong(UInt8),
    Strong(Int16), Strong(UInt16), Strong(Int32), Strong(UInt32), Strong(Int64), Strong(UInt64),
    Strong(Float4E2M1FN), Strong(Float8E3M4), Strong(Float8E4M3), Strong(Float8E5M2),
    Strong(Float8E4M3FN), Strong(Float8E8M0FNU), Strong(Float8E4M3B11FNUZ),
    Strong(Float8E4M3FNUZ), Strong(Float8E5M2FNUZ),
    Strong(Float16), Strong(BFloat16), Strong(Float32), Strong(Float64),
    Strong(Complex64), Strong(Complex128)
  }

  /** The lattice nodes are exactly the weak types and the dtypes of
      `all`. */
  lemma LatticeNodesAre(n: Node)
    ensures n in LatticeNodes <==> !n.Strong? || n.dtype in All
  {
    if n.Strong? {
      Classification(n.dtype);
    }
  }

  /** The successors of each node in `_type_promotion_lattice(method)`.
      In standard mode the weak float's successors are the custom floats
      (the four-bit and eight-bit floats and bfloat16), bfloat16 again,
      float16 and the weak complex; bfloat16 is listed among the custom
      floats without successors and again with successor float32, and the
      later entry is the one the dictionary keeps. In strict mode the weak
      int leads to the weak float and every integer, the weak float to the
      weak complex and every float, the weak complex to both complex
      types. */
  function Successors(m: Mode, n: Node): seq<Node>
  {
    match m
    case Standard =>
      (match n
       case Strong(Bool) => [WeakInt]
       case WeakInt => [Strong(UInt2), Strong(UInt4), Strong(UInt8), Strong(Int2), Strong(Int4), Strong(Int8)]
       case Strong(UInt8) => [Strong(Int16), Strong(UInt16)]
       case Strong(Int8) => [Strong(Int16)]
       case Strong(UInt16) => [Strong(Int32), Strong(UInt32)]
       case Strong(Int16) => [Strong(Int32)]
       case Strong(UInt32) => [Strong(Int64), Strong(UInt64)]
       case Strong(Int32) => [Strong(Int64)]
       case Strong(UInt64) => [WeakFloat]
       case Strong(Int64) => [WeakFloat]
       case WeakFloat =>
         [Strong(Float4E2M1FN), Strong(Float8E3M4), Strong(Float8E4M3), Strong(Float8E5M2),
          Strong(Float8E4M3FN), Strong(Float8E8M0FNU), Strong(Float8E4M3B11FNUZ),
          Strong(Float8E4M3FNUZ), Strong(Float8E5M2FNUZ), Strong(BFloat16),
          Strong(BFloat16), Strong(Float16), WeakComplex]
       case Strong(BFloat16) => [Strong(Float32)]
       case Strong(Float16) => [Strong(Float32)]
       case Strong(Float32) => [Strong(Float64), Strong(Complex64)]
       case Strong(Float64) => [Strong(Complex128)]
       case WeakComplex => [Strong(Complex64)]
       case Strong(Complex64) => [Strong(Complex128)]
       case _ => [])
    case Strict =>
      (match n
       case Strong(Bool) => [WeakInt]
       case WeakInt =>
         [WeakFloat, Strong(Int2), Strong(Int4), Strong(Int8), Strong(Int16), Strong(Int32), Strong(Int64),
          Strong(UInt2), Strong(UInt4), Strong(UInt8), Strong(UInt16), Strong(UInt32), Strong(UInt64)]
       case WeakFloat =>
         [WeakComplex, Strong(Float4E2M1FN), Strong(Float8E3M4), Strong(Float8E4M3), Strong(Float8E5M2),
          Strong(Float8E4M3FN), Strong(Float8E8M0FNU), Strong(Float8E4M3B11FNUZ),
          Strong(Float8E4M3FNUZ), Strong(Float8E5M2FNUZ),
          Strong(Float16), Strong(BFloat16), Strong(Float32), Strong(Float64)]
       case WeakComplex => [Strong(Complex64), Strong(Complex128)]
       case _ => [])
  }

  /** The successor lists are the source's groupings. */
  lemma StandardFloatSuccessors(t: DType)
    ensures Strong(t) in Successors(Standard, WeakFloat) <==> t in CustomFps || t == Float16
  {
  }

  lemma StrictIntSuccessors(t: DType)
    ensures Strong(t) in Successors(Strict, WeakInt) <==> t in Ints
  {
  }

  lemma StrictFloatSuccessors(t: DType)
    ensures Strong(t) in Successors(Strict, WeakFloat) <==> t in Floats
  {
  }

  lemma StrictComplexSuccessors(t: DType)
    ensures Strong(t) in Successors(Strict, WeakComplex) <==> t in Complexes
  {
  }

  /** `_type_promotion_lattice(m)` as a map from node to successors. */
  function Lattice(m: Mode): (g: map<Node, seq<Node>>)
    ensures g.Keys == LatticeNodes
    ensures forall n :: n in g ==> g[n] == Successors(m, n)
  {
    map n | n in LatticeNodes :: Successors(m, n)
  }

  /** `_type_promotion_lattice(method)`: an unknown method name is a value
      error. */
  function TypePromotionLattice(methodName: string): (r: Result<map<Node, seq<Node>>>)
    ensures r.Err? <==> ParseMode(methodName).Err?
    ensures r.Err? ==> r.error == ValueError
    ensures r.Ok? ==> r.value == Lattice(ParseMode(methodName).value)
  {
    match ParseMode(methodName)
    case Err(e) => Err(e)
    case Ok(m) => Ok(Lattice(m))
  }

  // ---- closures over a successor map --------------------------------

  /** Every successor is itself a node. */
  predicate Closed(g: map<Node, seq<Node>>)
  {
    forall a, b :: a in g && b in g[a] ==> b in g
  }

  /** A set of nodes that contains the successors of its members. */
  predicate ClosedSet(g: map<Node, seq<Node>>, s: set<Node>)
  {
    forall a, b :: a in s && a in g && b in g[a] ==> b in s
  }

  /** The successors of the members of `s`. */
  function Post(g: map<Node, seq<Node>>, s: set<Node>): set<Node>
  {
    set a, b | a in s && a in g && b in g[a] :: b
  }

  lemma PostMonotone(g: map<Node, seq<Node>>, s: set<Node>, t: set<Node>)
    requires s <= t
    ensures Post(g, s) <= Post(g, t)
  {
  }

  lemma PostAdd(g: map<Node, seq<Node>>, s: set<Node>, a: Node)
    requires a in g
    ensures Post(g, s + {a}) == Post(g, s) + set b | b in g[a]
  {
  }

  lemma ClosedSetPost(g: map<Node, seq<Node>>, s: set<Node>)
    ensures ClosedSet(g, s) <==> Post(g, s) <= s
  {
    if Post(g, s) <= s {
      forall a, b | a in s && a in g && b in g[a]
        ensures b in s
      {
        assert b in Post(g, s);
      }
    }
  }

  /** Adding a strictly larger set of nodes leaves fewer nodes outside. */
  lemma FewerOutside(k: set<Node>, s: set<Node>, t: set<Node>, x: Node)
    requires s <= t <= k && x in t && x !in s
    ensures |k - t| < |k - s|
  {
    assert k - s == (k - t) + (t - s);
    assert (k - t) * (t - s) == {};
    assert x in t - s;
  }

  /** The least closed set of nodes containing `s`: the fixed point the
      cycle-checking loop of `_make_lattice_upper_bounds` reaches, adding
      the successors of the set found so far until nothing new appears. */
  function Closure(g: map<Node, seq<Node>>, s: set<Node>): (r: set<Node>)
    requires Closed(g) && s <= g.Keys
    ensures s <= r <= g.Keys && ClosedSet(g, r)
    decreases |g.Keys - s|
  {
    var p := Post(g, s);
    ClosedSetPost(g, s);
    if p <= s then s
    else
      var x :| x in p && x !in s;
      FewerOutside(g.Keys, s, s + p, x);
      Closure(g, s + p)
  }

  /** The closure is the least closed superset. */
  lemma {:induction false} ClosureLeast(g: map<Node, seq<Node>>, s: set<Node>, t: set<Node>)
    requires Closed(g) && s <= g.Keys && s <= t && ClosedSet(g, t)
    ensures Closure(g, s) <= t
    decreases |g.Keys - s|
  {
    var p := Post(g, s);
    if !(p <= s) {
      PostMonotone(g, s, t);
      ClosedSetPost(g, t);
      var x :| x in p && x !in s;
      FewerOutside(g.Keys, s, s + p, x);
      ClosureLeast(g, s + p, t);
    }
  }

  /** Growing the set by its successors does not change the closure, and a
      closed set is its own closure. */
  lemma ClosureStep(g: map<Node, seq<Node>>, s: set<Node>)
    requires Closed(g) && s <= g.Keys
    ensures Closure(g, s + Post(g, s)) == Closure(g, s)
    ensures Post(g, s) <= s ==> Closure(g, s) == s
  {
    assert Post(g, s) <= g.Keys;
    if Post(g, s) <= s {
      assert s + Post(g, s) == s;
    }
  }

  /** A node lies on a cycle when it is a successor of one of its own
      upper bounds. */
  predicate CycleAt(g: map<Node, seq<Node>>, n: Node)
    requires Closed(g) && n in g
  {
    n in Post(g, Closure(g, {n}))
  }

  /** The inner loop of `_make_lattice_upper_bounds`: the union of the
      successors of every bound found so far. */
  method SuccessorsOfAll(g: map<Node, seq<Node>>, bounds: set<Node>) returns (newBounds: set<Node>)
    requires bounds <= g.Keys
    ensures newBounds == Post(g, bounds)
  {
    newBounds := {};
    var pending := bounds;
    while pending != {}
      invariant pending <= bounds
      invariant newBounds == Post(g, bounds - pending)
      decreases |pending|
    {
      var ancestor :| ancestor in pending;
      PostAdd(g, bounds - pending, ancestor);
      assert bounds - pending + {ancestor} == bounds - (pending - {ancestor});
      newBounds := newBounds + set b | b in g[ancestor];
      pending := pending - {ancestor};
    }
    assert bounds - pending == bounds;
  }

  /** The fixed-point loop of `_make_lattice_upper_bounds` for one node:
      starting from the node, add the successors of the bounds until
      nothing new appears; the node itself among the successors is a cycle
      (a value error). */
  method NodeUpperBounds(g: map<Node, seq<Node>>, node: Node) returns (r: Result<set<Node>>)
    requires Closed(g) && node in g
    ensures r.Err? <==> CycleAt(g, node)
    ensures r.Err? ==> r.error == ValueError
    ensures r.Ok? ==> r.value == Closure(g, {node})
  {
    var bounds := {node};
    while true
      invariant node in bounds && bounds <= g.Keys
      invariant Closure(g, bounds) == Closure(g, {node})
      decreases |g.Keys - bounds|
    {
      var newBounds := SuccessorsOfAll(g, bounds);
      if node in newBounds {
        PostMonotone(g, bounds, Closure(g, bounds));
        return Err(ValueError);
      }
      ClosureStep(g, bounds);
      if newBounds <= bounds {
        return Ok(bounds);
      }
      var x :| x in newBounds && x !in bounds;
      FewerOutside(g.Keys, bounds, bounds + newBounds, x);
      bounds := bounds + newBounds;
    }
  }

  /** `_make_lattice_upper_bounds` over a successor map: every node maps
      to its closure, unless some node lies on a cycle (a value error). */
  method UpperBoundsTable(g: map<Node, seq<Node>>) returns (r: Result<map<Node, set<Node>>>)
    requires Closed(g)
    ensures r.Err? <==> exists n :: n in g && CycleAt(g, n)
    ensures r.Err? ==> r.error == ValueError
    ensures r.Ok? ==> r.value.Keys == g.Keys
    ensures r.Ok? ==> forall n :: n in g ==> r.value[n] == Closure(g, {n})
  {
    var upperBounds: map<Node, set<Node>> := map n | n in g :: {n};
    var remaining := g.Keys;
    while remaining != {}
      invariant remaining <= g.Keys && upperBounds.Keys == g.Keys
      invariant forall n :: n in g && n !in remaining ==> upperBounds[n] == Closure(g, {n}) && !CycleAt(g, n)
      decreases |remaining|
    {
      var node :| node in remaining;
      var bounds := NodeUpperBounds(g, node);
      if bounds.Err? {
        return Err(bounds.error);
      }
      upperBounds := upperBounds[node := bounds.value];
      remaining := remaining - {node};
    }
    return Ok(upperBounds);
  }

  /** The upper bounds of a node: the closure of the node alone. */
  function Bounds(g: map<Node, seq<Node>>, n: Node): (r: set<Node>)
    requires Closed(g) && n in g
    ensures n in r && r <= g.Keys && ClosedSet(g, r)
  {
    Closure(g, {n})
  }

  /** The bounds of one node are the node and the bounds of its
      successors. */
  lemma BoundsUnfold(g: map<Node, seq<Node>>, n: Node, c: Node)
    requires Closed(g) && n in g
    ensures c in Bounds(g, n) <==> c == n || exists s :: s in g[n] && c in Bounds(g, s)
  {
    var t := {n} + set s, d | s in g[n] && d in Bounds(g, s) :: d;
    forall a, b | a in t && a in g && b in g[a]
      ensures b in t
    {
      if a != n {
        var s :| s in g[n] && a in Bounds(g, s);
        assert b in Bounds(g, s);
      } else {
        assert b in Bounds(g, b);
      }
    }
    ClosureLeast(g, {n}, t);
    forall s | s in g[n]
      ensures Bounds(g, s) <= Bounds(g, n)
    {
      BoundsTransitive(g, n, s);
    }
  }

  /** A bound of a bound is a bound. */
  lemma BoundsTransitive(g: map<Node, seq<Node>>, n: Node, b: Node)
    requires Closed(g) && n in g && b in Bounds(g, n)
    ensures Bounds(g, b) <= Bounds(g, n)
  {
    ClosureLeast(g, {b}, Bounds(g, n));
  }

  /** A successor is a bound, and its own bounds are bounds. */
  lemma EdgeBounds(g: map<Node, seq<Node>>, a: Node, b: Node)
    requires Closed(g) && a in g && b in g[a]
    ensures b in g && b in Bounds(g, a) && Bounds(g, b) <= Bounds(g, a)
  {
    BoundsTransitive(g, a, b);
  }

  /** A node without successors bounds only itself. */
  lemma SinkBounds(g: map<Node, seq<Node>>, n: Node)
    requires Closed(g) && n in g && g[n] == []
    ensures Bounds(g, n) == {n}
  {
    ClosureLeast(g, {n}, {n});
  }

  /** A rank that every edge strictly increases. */
  ghost predicate RankIncreases(g: map<Node, seq<Node>>, rank: Node -> nat)
  {
    forall a, b :: a in g && b in g[a] ==> rank(b) > rank(a)
  }

  /** Under such a rank every other bound of a node ranks higher, so no
      node is a successor of its own bounds. */
  lemma BoundsAbove(g: map<Node, seq<Node>>, rank: Node -> nat, n: Node)
    requires Closed(g) && n in g && RankIncreases(g, rank)
    ensures forall c :: c in Bounds(g, n) ==> c == n || rank(c) > rank(n)
    ensures !CycleAt(g, n)
  {
    var t := {n} + set c | c in g.Keys && rank(c) > rank(n);
    ClosureLeast(g, {n}, t);
  }

  /** Two nodes that bound each other are the same node. */
  ghost predicate Antisymmetric(g: map<Node, seq<Node>>)
    requires Closed(g)
  {
    forall a, b :: a in g && b in g && a in Bounds(g, b) && b in Bounds(g, a) ==> a == b
  }

  /** A rank makes the bounds antisymmetric. */
  lemma RankedAntisymmetric(g: map<Node, seq<Node>>, rank: Node -> nat)
    requires Closed(g) && RankIncreases(g, rank)
    ensures Antisymmetric(g)
  {
    forall a, b | a in g && b in g && a in Bounds(g, b) && b in Bounds(g, a)
      ensures a == b
    {
      BoundsAbove(g, rank, a);
      BoundsAbove(g, rank, b);
    }
  }

  // ---- least upper bounds over a successor map ----------------------

  /** The set of the inputs. */
  function Inputs(nodes: seq<Node>): set<Node>
  {
    set n | n in nodes
  }

  /** The nodes that bound every member of `ns`. */
  function CommonBounds(g: map<Node, seq<Node>>, ns: set<Node>): (r: set<Node>)
    requires Closed(g) && ns <= g.Keys
    ensures r <= g.Keys
  {
    set c | c in g.Keys && forall n :: n in ns ==> c in Bounds(g, n)
  }

  /** `x` bounds every member of `ns`, and every such bound bounds `x`. */
  predicate IsLeastBound(g: map<Node, seq<Node>>, ns: set<Node>, x: Node)
    requires Closed(g) && ns <= g.Keys
  {
    x in CommonBounds(g, ns) && CommonBounds(g, ns) <= Bounds(g, x)
  }

  /** The candidates `_least_upper_bound` keeps: the common bounds that
      are inputs, or, when there are none, the common bounds whose own
      bounds include all the common ones. */
  function Candidates(g: map<Node, seq<Node>>, ns: set<Node>): set<Node>
    requires Closed(g) && ns <= g.Keys
  {
    var common := CommonBounds(g, ns);
    if common * ns != {} then common * ns
    else set c | c in common && common <= Bounds(g, c)
  }

  lemma SingletonUnique(s: set<Node>)
    requires |s| == 1
    ensures forall x, y :: x in s && y in s ==> x == y
  {
    var x :| x in s;
    var rest := s - {x};
    assert s == rest + {x};
    assert |rest| == 0;
    assert s == {x};
  }

  /** `_least_upper_bound` over the table of `g`: a node outside it is a
      value error, and no node at all makes the intersection fail (a type
      error). Exactly one candidate is the result; none or several are a
      promotion error. */
  function LeastBound(g: map<Node, seq<Node>>, nodes: seq<Node>): (r: Result<Node>)
    requires Closed(g)
    ensures r.Err? ==> r.error in {ValueError, TypeError, TypePromotionError}
    ensures r.Err? && r.error == ValueError <==> exists n :: n in nodes && n !in g
    ensures r.Err? && r.error == TypeError <==> nodes == []
    ensures r.Ok? ==> r.value in g
  {
    var nodeSet := Inputs(nodes);
    if exists n :: n in nodeSet && n !in g then Err(ValueError)
    else if nodes == [] then Err(TypeError)
    else
      var least := Candidates(g, nodeSet);
      if |least| == 1 then
        SingletonUnique(least);
        var c :| c in least;
        Ok(c)
      else Err(TypePromotionError)
  }

  /** Every candidate is a least bound. */
  lemma CandidatesAreLeast(g: map<Node, seq<Node>>, ns: set<Node>, c: Node)
    requires Closed(g) && ns <= g.Keys && c in Candidates(g, ns)
    ensures IsLeastBound(g, ns, c)
  {
    var common := CommonBounds(g, ns);
    if common * ns != {} {
      assert c in ns && c in common;
      forall d | d in common
        ensures d in Bounds(g, c)
      {
      }
    }
  }

  /** A least bound is the only candidate. */
  lemma LeastIsOnlyCandidate(g: map<Node, seq<Node>>, ns: set<Node>, x: Node)
    requires Closed(g) && Antisymmetric(g) && ns <= g.Keys && IsLeastBound(g, ns, x)
    ensures Candidates(g, ns) == {x}
  {
    var common := CommonBounds(g, ns);
    forall c | c in Candidates(g, ns)
      ensures c == x
    {
      CandidatesAreLeast(g, ns, c);
    }
    if common * ns != {} {
      var c :| c in common * ns;
      CandidatesAreLeast(g, ns, c);
    }
    assert x in Candidates(g, ns);
  }

  /** With antisymmetric bounds, the promotion of nodes of `g` succeeds
      exactly when they have a least bound, and then returns it; otherwise
      it is a promotion error. */
  lemma LeastBoundSpec(g: map<Node, seq<Node>>, nodes: seq<Node>)
    requires Closed(g) && Antisymmetric(g)
    requires |nodes| > 0 && forall n :: n in nodes ==> n in g
    ensures LeastBound(g, nodes).Ok? <==> exists x :: IsLeastBound(g, Inputs(nodes), x)
    ensures LeastBound(g, nodes).Ok? ==> IsLeastBound(g, Inputs(nodes), LeastBound(g, nodes).value)
    ensures LeastBound(g, nodes).Err? ==> LeastBound(g, nodes).error == TypePromotionError
  {
    var ns := Inputs(nodes);
    assert nodes[0] in ns;
    if x :| IsLeastBound(g, ns, x) {
      LeastIsOnlyCandidate(g, ns, x);
      assert |Candidates(g, ns)| == 1;
    }
    if LeastBound(g, nodes).Ok? {
      CandidatesAreLeast(g, ns, LeastBound(g, nodes).value);
    }
  }

  /** An input that bounds all the others is the result. */
  lemma InputBoundingAll(g: map<Node, seq<Node>>, nodes: seq<Node>, a: Node)
    requires Closed(g) && Antisymmetric(g)
    requires a in nodes && forall n :: n in nodes ==> n in g && a in Bounds(g, n)
    ensures LeastBound(g, nodes) == Ok(a)
  {
    var ns := Inputs(nodes);
    assert a in ns;
    assert IsLeastBound(g, ns, a);
    LeastBoundSpec(g, nodes);
  }

  /** Two nodes do not promote when the first bounds only itself and is
      not a bound of the second. */
  lemma NoCommonBound(g: map<Node, seq<Node>>, a: Node, b: Node)
    requires Closed(g) && Antisymmetric(g) && a in g && b in g
    requires g[a] == [] && a !in Bounds(g, b)
    ensures LeastBound(g, [a, b]) == Err(TypePromotionError)
  {
    SinkBounds(g, a);
    var ns := Inputs([a, b]);
    assert ns == {a, b};
    assert CommonBounds(g, ns) == {};
    LeastBoundSpec(g, [a, b]);
  }

  /** Two nodes that do not bound each other and whose only successor is
      the same node `j` promote to `j`. */
  lemma JoinAtSharedSuccessor(g: map<Node, seq<Node>>, a: Node, b: Node, j: Node)
    requires Closed(g) && Antisymmetric(g) && a in g && b in g
    requires g[a] == [j] && g[b] == [j]
    requires a !in Bounds(g, b) && b !in Bounds(g, a)
    ensures LeastBound(g, [a, b]) == Ok(j)
  {
    var ns := Inputs([a, b]);
    assert ns == {a, b};
    EdgeBounds(g, a, j);
    EdgeBounds(g, b, j);
    forall c | c in CommonBounds(g, ns)
      ensures c in Bounds(g, j)
    {
      BoundsUnfold(g, a, c);
    }
    assert IsLeastBound(g, ns, j);
    LeastBoundSpec(g, [a, b]);
  }

  // ---- the promotion lattices ---------------------------------------

  lemma SuccessorsAreNodes(m: Mode, a: Node, b: Node)
    requires b in Successors(m, a)
    ensures b in LatticeNodes
  {
  }

  lemma LatticeClosed(m: Mode)
    ensures Closed(Lattice(m))
  {
    forall a, b | a in Lattice(m) && b in Lattice(m)[a]
      ensures b in Lattice(m)
    {
      SuccessorsAreNodes(m, a, b);
    }
  }

  /** `_lattice_upper_bounds[method]`: the upper-bound table of a lattice
      node. */
  function UpperBounds(m: Mode, n: Node): (r: set<Node>)
    requires n in LatticeNodes
    ensures n in r && r <= LatticeNodes
    ensures ClosedSet(Lattice(m), r)
  {
    LatticeClosed(m);
    Bounds(Lattice(m), n)
  }

  /** A rank on the nodes that every lattice edge, in either mode, strictly
      increases. */
  function Level(n: Node): nat
  {
    match n
    case WeakInt => 1
    case WeakFloat => 6
    case WeakComplex => 7
    case Strong(t) =>
      match t
      case Bool => 0
      case Int2 => 2
      case UInt2 => 2
      case Int4 => 2
      case UInt4 => 2
      case Int8 => 2
      case UInt8 => 2
      case Int16 => 3
      case UInt16 => 3
      case Int32 => 4
      case UInt32 => 4
      case Int64 => 5
      case UInt64 => 5
      case Float32 => 8
      case Float64 => 9
      case Complex64 => 9
      case Complex128 => 10
      case Void => 0
      case Float0 => 0
      case String => 0
      case _ => 7
  }

  lemma StandardLevelsIncrease(a: Node, b: Node)
    requires b in Successors(Standard, a)
    ensures Level(b) > Level(a)
  {
    match a
    case Strong(Bool) =>
    case WeakInt => AboveWeakInt(b);
    case Strong(UInt8) =>
    case Strong(Int8) =>
    case Strong(UInt16) =>
    case Strong(Int16) =>
    case Strong(UInt32) =>
    case Strong(Int32) =>
    case Strong(UInt64) =>
    case Strong(Int64) =>
    case WeakFloat => AboveWeakFloat(b);
    case Strong(BFloat16) =>
    case Strong(Float16) =>
    case Strong(Float32) =>
    case Strong(Float64) =>
    case WeakComplex =>
    case Strong(Complex64) =>
    case _ =>
  }

  lemma StrictLevelsIncrease(a: Node, b: Node)
    requires b in Successors(Strict, a)
    ensures Level(b) > Level(a)
  {
    match a
    case Strong(Bool) =>
    case WeakInt => AboveWeakInt(b);
    case WeakFloat => AboveWeakFloat(b);
    case WeakComplex =>
    case _ =>
  }

  /** The nodes the weak int node leads to in either mode. */
  lemma AboveWeakInt(b: Node)
    requires b in {WeakFloat, Strong(Int2), Strong(Int4), Strong(Int8), Strong(Int16), Strong(Int32), Strong(Int64),
                   Strong(UInt2), Strong(UInt4), Strong(UInt8), Strong(UInt16), Strong(UInt32), Strong(UInt64)}
    ensures Level(b) > Level(WeakInt)
  {
  }

  /** The nodes the weak float node leads to in either mode. */
  lemma AboveWeakFloat(b: Node)
    requires b in {WeakComplex, Strong(Float4E2M1FN), Strong(Float8E3M4), Strong(Float8E4M3), Strong(Float8E5M2),
                   Strong(Float8E4M3FN), Strong(Float8E8M0FNU), Strong(Float8E4M3B11FNUZ),
                   Strong(Float8E4M3FNUZ), Strong(Float8E5M2FNUZ),
                   Strong(Float16), Strong(BFloat16), Strong(Float32), Strong(Float64)}
    ensures Level(b) > Level(WeakFloat)
  {
  }

  lemma LevelsIncrease(m: Mode, a: Node, b: Node)
    requires b in Successors(m, a)
    ensures Level(b) > Level(a)
  {
    match m
    case Standard => StandardLevelsIncrease(a, b);
    case Strict => StrictLevelsIncrease(a, b);
  }

  lemma LatticeRanked(m: Mode)
    ensures Closed(Lattice(m)) && RankIncreases(Lattice(m), Level)
  {
    LatticeClosed(m);
    forall a, b | a in Lattice(m) && b in Lattice(m)[a]
      ensures Level(b) > Level(a)
    {
      LevelsIncrease(m, a, b);
    }
  }

  /** Neither lattice has a cycle, so building the upper-bound tables never
      raises, and two nodes bounding each other are equal. */
  lemma LatticeAcyclic(m: Mode)
    ensures Closed(Lattice(m)) && Antisymmetric(Lattice(m))
    ensures forall n :: n in Lattice(m) ==> !CycleAt(Lattice(m), n)
  {
    var g := Lattice(m);
    LatticeRanked(m);
    RankedAntisymmetric(g, Level);
    forall n | n in g
      ensures !CycleAt(g, n)
    {
      BoundsAbove(g, Level, n);
    }
  }

  /** `_make_lattice_upper_bounds(method)`: an unknown method name is a
      value error; otherwise the table maps every node to its upper
      bounds (the cycle check never fires). */
  method MakeLatticeUpperBounds(methodName: string) returns (r: Result<map<Node, set<Node>>>)
    ensures r.Err? <==> ParseMode(methodName).Err?
    ensures r.Err? ==> r.error == ValueError
    ensures r.Ok? ==> r.value.Keys == LatticeNodes
    ensures r.Ok? ==> forall n :: n in LatticeNodes ==> r.value[n] == UpperBounds(ParseMode(methodName).value, n)
  {
    var lattice := TypePromotionLattice(methodName);
    if lattice.Err? {
      return Err(lattice.error);
    }
    LatticeAcyclic(ParseMode(methodName).value);
    r := UpperBoundsTable(lattice.value);
  }

  /** Every upper bound of a node other than the node itself has a higher
      rank. */
  lemma UpperBoundsAbove(m: Mode, n: Node)
    requires n in LatticeNodes
    ensures forall c :: c in UpperBounds(m, n) ==> c == n || Level(c) > Level(n)
  {
    LatticeRanked(m);
    BoundsAbove(Lattice(m), Level, n);
  }

  /** The upper bounds of a node are the node and the upper bounds of its
      successors. */
  lemma UpperBoundsUnfold(m: Mode, n: Node, c: Node)
    requires n in LatticeNodes
    ensures c in UpperBounds(m, n) <==>
              c == n || exists s :: s in Successors(m, n) && s in LatticeNodes && c in UpperBounds(m, s)
  {
    LatticeClosed(m);
    BoundsUnfold(Lattice(m), n, c);
  }

  /** A bound of a bound is a bound. */
  lemma UpperBoundsTransitive(m: Mode, n: Node, b: Node)
    requires n in LatticeNodes && b in UpperBounds(m, n)
    ensures UpperBounds(m, b) <= UpperBounds(m, n)
  {
    LatticeClosed(m);
    BoundsTransitive(Lattice(m), n, b);
  }

  /** Two nodes that bound each other are the same node. */
  lemma UpperBoundsAntisymmetric(m: Mode, a: Node, b: Node)
    requires a in LatticeNodes && b in LatticeNodes
    requires a in UpperBounds(m, b) && b in UpperBounds(m, a)
    ensures a == b
  {
    LatticeAcyclic(m);
  }

  /** `_least_upper_bound(method, *nodes)`. */
  function LeastUpperBound(m: Mode, nodes: seq<Node>): (r: Result<Node>)
    ensures r.Err? ==> r.error in {ValueError, TypeError, TypePromotionError}
    ensures r.Err? && r.error == ValueError <==> exists n :: n in nodes && n !in LatticeNodes
    ensures r.Err? && r.error == TypeError <==> nodes == []
    ensures r.Ok? ==> r.value in LatticeNodes
  {
    LatticeClosed(m);
    LeastBound(Lattice(m), nodes)
  }

  /** `x` bounds every node of `ns` in the lattice of `m`, and every such
      bound bounds `x`. */
  predicate IsLeastUpperBound(m: Mode, ns: set<Node>, x: Node)
    requires ns <= LatticeNodes
  {
    LatticeClosed(m);
    IsLeastBound(Lattice(m), ns, x)
  }

  /** The promotion of lattice nodes succeeds exactly when they have a
      least upper bound, and then returns it; it fails with a promotion
      error otherwise, so an ambiguous result never happens. */
  lemma LeastUpperBoundSpec(m: Mode, nodes: seq<Node>)
    requires |nodes| > 0 && forall n :: n in nodes ==> n in LatticeNodes
    ensures LeastUpperBound(m, nodes).Ok? <==> exists x :: IsLeastUpperBound(m, Inputs(nodes), x)
    ensures LeastUpperBound(m, nodes).Ok? ==> IsLeastUpperBound(m, Inputs(nodes), LeastUpperBound(m, nodes).value)
    ensures LeastUpperBound(m, nodes).Err? ==> LeastUpperBound(m, nodes).error == TypePromotionError
  {
    var g, ns := Lattice(m), Inputs(nodes);
    LatticeAcyclic(m);
    LeastBoundSpec(g, nodes);
    if x :| IsLeastBound(g, ns, x) {
      assert IsLeastUpperBound(m, ns, x);
    }
    if x :| IsLeastUpperBound(m, ns, x) {
      assert IsLeastBound(g, ns, x);
    }
  }

  /** The result depends only on the set of inputs: their order and
      repetitions do not matter. */
  lemma LeastUpperBoundOfSet(m: Mode, xs: seq<Node>, ys: seq<Node>)
    requires forall n :: n in xs <==> n in ys
    ensures LeastUpperBound(m, xs) == LeastUpperBound(m, ys)
  {
    assert Inputs(xs) == Inputs(ys);
    assert xs == [] <==> ys == [] by {
      if xs != [] { assert xs[0] in ys; }
      if ys != [] { assert ys[0] in xs; }
    }
  }

  /** An input that bounds all the others is the result. */
  lemma InputBoundingAllIsResult(m: Mode, nodes: seq<Node>, a: Node)
    requires a in nodes && forall n :: n in nodes ==> n in LatticeNodes && a in UpperBounds(m, n)
    ensures LeastUpperBound(m, nodes) == Ok(a)
  {
    LatticeAcyclic(m);
    InputBoundingAll(Lattice(m), nodes, a);
  }

  // ---- promote_types and can_cast_safely ----------------------------

  /** The dtype a lattice result stands for: the weak types become the
      x64-dependent defaults. */
  function ResultDType(x64: bool, n: Node): (t: DType)
    ensures n == WeakInt ==> t == DefaultInt(x64)
    ensures n == WeakFloat ==> t == DefaultFloat(x64)
    ensures n == WeakComplex ==> t == DefaultComplex(x64)
    ensures n.Strong? ==> t == n.dtype
  {
    match n
    case WeakInt => DefaultInt(x64)
    case WeakFloat => DefaultFloat(x64)
    case WeakComplex => DefaultComplex(x64)
    case Strong(t) => t
  }

  /** `promote_types(a, b)` under the current mode and x64 setting. */
  function PromoteTypes(m: Mode, x64: bool, a: Node, b: Node): (r: Result<DType>)
    ensures r.Err? <==> LeastUpperBound(m, [a, b]).Err?
    ensures r.Err? ==> r.error == LeastUpperBound(m, [a, b]).error
    ensures r.Ok? ==> r.value == ResultDType(x64, LeastUpperBound(m, [a, b]).value)
  {
    match LeastUpperBound(m, [a, b])
    case Err(e) => Err(e)
    case Ok(n) => Ok(ResultDType(x64, n))
  }

  /** Promotion is symmetric. */
  lemma PromoteSymmetric(m: Mode, x64: bool, a: Node, b: Node)
    ensures PromoteTypes(m, x64, a, b) == PromoteTypes(m, x64, b, a)
  {
    LeastUpperBoundOfSet(m, [a, b], [b, a]);
  }

  /** A lattice dtype promoted with itself is itself. */
  lemma PromoteReflexive(m: Mode, x64: bool, t: DType)
    requires t in All
    ensures PromoteTypes(m, x64, Strong(t), Strong(t)) == Ok(t)
  {
    LatticeNodesAre(Strong(t));
    PromoteAlongPath(m, x64, [Strong(t)]);
  }

  /** `can_cast_safely(from, to)`: after canonicalising both, the same type
      is a safe cast, and otherwise the cast is safe when promotion of the
      two yields the target (a failed promotion propagates its error). */
  function CanCastSafely(m: Mode, x64: bool, from: DType, to: DType): (r: Result<bool>)
    ensures Canonicalize(x64, from) == Canonicalize(x64, to) ==> r == Ok(true)
    ensures from == to ==> r == Ok(true)
  {
    var f := Canonicalize(x64, from);
    var t := Canonicalize(x64, to);
    if f == t then Ok(true)
    else
      match PromoteTypes(m, x64, Strong(f), Strong(t))
      case Err(e) => Err(e)
      case Ok(p) => Ok(p == t)
  }

  /** For lattice dtypes, a cast is safe exactly when promoting the
      canonical source and target yields the canonical target. */
  lemma CanCastSafelyIsPromotion(m: Mode, x64: bool, from: DType, to: DType)
    requires from in All && to in All
    ensures CanCastSafely(m, x64, from, to) == Ok(true) <==>
              PromoteTypes(m, x64, Strong(Canonicalize(x64, from)), Strong(Canonicalize(x64, to))) == Ok(Canonicalize(x64, to))
  {
    var t := Canonicalize(x64, to);
    assert t in All;
    PromoteReflexive(m, x64, t);
  }

  // ---- concrete promotions ------------------------------------------

  /** A path of successors: each node is a successor of the one before. */
  predicate IsPath(m: Mode, path: seq<Node>)
  {
    forall i :: 0 <= i < |path| - 1 ==> path[i + 1] in Successors(m, path[i])
  }

  /** The end of a path from a lattice node is one of its upper bounds. */
  lemma {:induction false} PathBound(m: Mode, path: seq<Node>)
    requires |path| > 0 && path[0] in LatticeNodes && IsPath(m, path)
    ensures path[|path| - 1] in LatticeNodes
    ensures path[|path| - 1] in UpperBounds(m, path[0])
    decreases |path|
  {
    if |path| > 1 {
      LatticeClosed(m);
      EdgeBounds(Lattice(m), path[0], path[1]);
      assert IsPath(m, path[1..]);
      PathBound(m, path[1..]);
    }
  }

  /** The two ends of a path promote to its end. */
  lemma PromoteAlongPath(m: Mode, x64: bool, path: seq<Node>)
    requires |path| > 0 && path[0] in LatticeNodes && IsPath(m, path)
    ensures PromoteTypes(m, x64, path[0], path[|path| - 1]) == Ok(ResultDType(x64, path[|path| - 1]))
  {
    var a, b := path[0], path[|path| - 1];
    PathBound(m, path);
    InputBoundingAllIsResult(m, [a, b], b);
  }

  /** A node without successors does not promote with a different node
      of no lower rank. */
  lemma SinkDoesNotPromote(m: Mode, x64: bool, a: Node, b: Node)
    requires a in LatticeNodes && b in LatticeNodes && Successors(m, a) == []
    requires a != b && Level(a) <= Level(b)
    ensures PromoteTypes(m, x64, a, b) == Err(TypePromotionError)
  {
    LatticeAcyclic(m);
    UpperBoundsAbove(m, b);
    NoCommonBound(Lattice(m), a, b);
  }

  /** Two different nodes of the same rank whose only successor is `j`
      promote to `j`. */
  lemma SharedSuccessorPromotes(m: Mode, x64: bool, a: Node, b: Node, j: Node)
    requires a in LatticeNodes && b in LatticeNodes
    requires Successors(m, a) == [j] && Successors(m, b) == [j]
    requires a != b && Level(a) == Level(b)
    ensures PromoteTypes(m, x64, a, b) == Ok(ResultDType(x64, j))
  {
    LatticeAcyclic(m);
    UpperBoundsAbove(m, a);
    UpperBoundsAbove(m, b);
    JoinAtSharedSuccessor(Lattice(m), a, b, j);
  }

  /** float8_e4m3fn has no upper bound but itself, and bfloat16 is none
      of its bounds, so the two do not promote (in either mode). */
  lemma Float8AndBFloat16DoNotPromote(m: Mode, x64: bool)
    ensures PromoteTypes(m, x64, Strong(Float8E4M3FN), Strong(BFloat16)) == Err(TypePromotionError)
  {
    SinkDoesNotPromote(m, x64, Strong(Float8E4M3FN), Strong(BFloat16));
  }

  /** In standard mode int8 promotes with float32 to float32 (the chain
      int8, int16, int32, int64, float, float16, float32). */
  lemma Int8WithFloat32Standard(x64: bool)
    ensures PromoteTypes(Standard, x64, Strong(Int8), Strong(Float32)) == Ok(Float32)
  {
    var path := [Strong(Int8), Strong(Int16), Strong(Int32), Strong(Int64), WeakFloat, Strong(Float16), Strong(Float32)];
    assert IsPath(Standard, path);
    PromoteAlongPath(Standard, x64, path);
  }

  /** In strict mode integers and floats do not mix: int8 has no bound but
      itself, and it is not a bound of float32. */
  lemma Int8WithFloat32Strict(x64: bool)
    ensures PromoteTypes(Strict, x64, Strong(Int8), Strong(Float32)) == Err(TypePromotionError)
  {
    SinkDoesNotPromote(Strict, x64, Strong(Int8), Strong(Float32));
  }

  /** int64 and uint64 share no integer bound: their least upper bound is
      the weak float, which becomes the default float type. */
  lemma Int64WithUInt64(x64: bool)
    ensures PromoteTypes(Standard, x64, Strong(Int64), Strong(UInt64)) == Ok(DefaultFloat(x64))
  {
    SharedSuccessorPromotes(Standard, x64, Strong(Int64), Strong(UInt64), WeakFloat);
  }
}
