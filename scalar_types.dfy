/** The host runtime's scalar-type registry (cpp/xft/scalar_types.h): one
    enumeration value per registered type, each with a fixed name and a
    byte size. */
module XftScalarTypes {
  import opened Wrappers

  /** `enum class ScalarType`: Float32 = 0, Float64 = 1. */
  datatype ScalarType = Float32 | Float64

  /** The registered name of each type. */
  const RegisteredNames: seq<string> := ["float32", "float64"]

  /** `scalarTypeToString`: the type's registered name. */
  function ScalarTypeToString(t: ScalarType): (s: string)
    ensures s in RegisteredNames
    ensures t == Float32 ==> s == "float32"
    ensures t == Float64 ==> s == "float64"
  {
    match t
    case Float32 => "float32"
    case Float64 => "float64"
  }

  /** `stringToScalarType`: the type whose registered name is `s`, or
      nothing when no type has that name (the comparison is exact). */
  function StringToScalarType(s: string): (r: Option<ScalarType>)
    ensures r.Some? <==> s in RegisteredNames
    ensures r.Some? ==> ScalarTypeToString(r.value) == s
  {
    if s == "float32" then Some(Float32)
    else if s == "float64" then Some(Float64)
    else None
  }

  /** Parsing a type's name gives the type back, so names are distinct. */
  lemma NameRoundTrip(t: ScalarType)
    ensures StringToScalarType(ScalarTypeToString(t)) == Some(t)
  {
  }

  /** Names are unique: two types with the same name are the same type. */
  lemma NamesInjective(t: ScalarType, u: ScalarType)
    ensures ScalarTypeToString(t) == ScalarTypeToString(u) <==> t == u
  {
    NameRoundTrip(t);
    NameRoundTrip(u);
  }

  /** Strings that differ from the registered names only in case are not
      recognised. */
  lemma UnknownNames()
    ensures StringToScalarType("Float32") == None
    ensures StringToScalarType("float16") == None
    ensures StringToScalarType("") == None
  {
  }

  /** `scalarTypeSize`: `sizeof(float)` is 4 and `sizeof(double)` is 8 on
      the x86_64 Linux targets the header fixes. */
  function ScalarTypeSize(t: ScalarType): (n: nat)
    ensures n == 4 || n == 8
    ensures t == Float32 ==> n == 4
    ensures t == Float64 ==> n == 8
  {
    match t
    case Float32 => 4
    case Float64 => 8
  }

  /** `scalarTypeName`: an alias of `scalarTypeToString`. */
  function ScalarTypeName(t: ScalarType): (s: string)
    ensures s == ScalarTypeToString(t)
  {
    ScalarTypeToString(t)
  }
}
