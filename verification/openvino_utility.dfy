/** The enum mappings of the Intel OpenVINO driver's utility file: NNAdapter
    auto-pad codes to OpenVINO pad types, NNAdapter precisions to OpenVINO
    element types, and C scalar types to OpenVINO element types.
 */
module OpenvinoUtility {
  import opened Status
  import opened Types

  /** `NNAdapterAutoPadCode`; a C enum can hold any other integer as well. */
  datatype AutoPadCode = AutoPadNone | AutoPadSame | AutoPadValid | AutoPadRaw(code: int)

  /** OpenVINO's `PadType` values the driver produces. */
  datatype PadType = NotSet | SameUpper | Valid

  /** OpenVINO's `ov::element::Type` values. */
  datatype ElementType = Boolean | I8 | U8 | I16 | U16 | I32 | U32 | I64 | U64 | F16 | F32 | F64

  /** The C scalar types `GetElementType<T>` is specialised for. */
  datatype CType = CInt8 | CInt16 | CInt32 | CInt64 | CUInt8 | CUInt16 | CUInt32 | CUInt64 | CFloat | CDouble

  /** ConvertToOVPadType: total; only VALID and SAME give a pad type other
      than NOTSET. */
  function ConvertToOVPadType(code: AutoPadCode): (p: PadType)
    ensures p == Valid <==> code == AutoPadValid
    ensures p == SameUpper <==> code == AutoPadSame
    ensures p == NotSet <==> code != AutoPadValid && code != AutoPadSame
  {
    match code
    case AutoPadValid => Valid
    case AutoPadSame => SameUpper
    case AutoPadNone => NotSet
    case AutoPadRaw(_) => NotSet
  }

  /** The element width in bits a precision stores, and whether it is signed;
      an independent description used to state what the mapping preserves. */
  function PrecisionWidth(p: Precision): nat {
    match p
    case Bool8 | Int8 | UInt8 | QuantInt8SymmPerLayer | QuantInt8SymmPerChannel | QuantUInt8AsymmPerLayer => 8
    case Int16 | UInt16 | Float16 | QuantInt16SymmPerLayer | QuantInt16SymmPerChannel => 16
    case Int32 | UInt32 | Float32 | QuantInt32SymmPerLayer | QuantInt32SymmPerChannel | QuantUInt32AsymmPerLayer => 32
    case Int64 | UInt64 | Float64 => 64
  }

  function ElementWidth(e: ElementType): nat {
    match e
    case Boolean | I8 | U8 => 8
    case I16 | U16 | F16 => 16
    case I32 | U32 | F32 => 32
    case I64 | U64 | F64 => 64
  }

  predicate IsFloatPrecision(p: Precision) {
    p == Float16 || p == Float32 || p == Float64
  }

  predicate IsFloatElement(e: ElementType) {
    e == F16 || e == F32 || e == F64
  }

  predicate IsUnsignedPrecision(p: Precision) {
    p == UInt8 || p == UInt16 || p == UInt32 || p == UInt64
    || p == QuantUInt8AsymmPerLayer || p == QuantUInt32AsymmPerLayer
  }

  predicate IsUnsignedElement(e: ElementType) {
    e == U8 || e == U16 || e == U32 || e == U64
  }

  /** ConvertToOVElementType: every precision except UINT16 has an element
      type of the same width, signedness and kind; UINT16 is fatal. */
  function ConvertToOVElementType(p: Precision): (r: Result<ElementType>)
    ensures r.Fatal? <==> p == UInt16
    ensures r.Fatal? ==> r.fault == UnsupportedElementType
    ensures r.Ok? ==> ElementWidth(r.value) == PrecisionWidth(p)
    ensures r.Ok? ==> (IsFloatElement(r.value) <==> IsFloatPrecision(p))
    ensures r.Ok? ==> (IsUnsignedElement(r.value) <==> IsUnsignedPrecision(p))
    ensures r.Ok? ==> (r.value == Boolean <==> p == Bool8)
  {
    match p
    case Bool8 => Ok(Boolean)
    case Int8 | QuantInt8SymmPerLayer | QuantInt8SymmPerChannel => Ok(I8)
    case UInt8 | QuantUInt8AsymmPerLayer => Ok(U8)
    case Int16 | QuantInt16SymmPerLayer | QuantInt16SymmPerChannel => Ok(I16)
    case Int32 | QuantInt32SymmPerLayer | QuantInt32SymmPerChannel => Ok(I32)
    case UInt32 | QuantUInt32AsymmPerLayer => Ok(U32)
    case Int64 => Ok(I64)
    case UInt64 => Ok(U64)
    case Float16 => Ok(F16)
    case Float32 => Ok(F32)
    case Float64 => Ok(F64)
    case UInt16 => Fatal(UnsupportedElementType)
  }

  /** An `NNAdapterOperandPrecisionCode` as the C enum carries it: one of
      the named precisions or any other integer. */
  datatype PrecisionCode = KnownPrecision(precision: Precision) | RawPrecision(code: int)

  /** ConvertToOVElementType on the raw enum value: a value outside the
      named precisions reaches the `default:` branch like UINT16 does. */
  function ConvertCodeToOVElementType(c: PrecisionCode): (r: Result<ElementType>)
    ensures r.Ok? <==> c.KnownPrecision? && c.precision != UInt16
    ensures r.Fatal? ==> r.fault == UnsupportedElementType
    ensures r.Ok? ==> ElementWidth(r.value) == PrecisionWidth(c.precision)
    ensures r.Ok? ==> (IsFloatElement(r.value) <==> IsFloatPrecision(c.precision))
    ensures r.Ok? ==> (IsUnsignedElement(r.value) <==> IsUnsignedPrecision(c.precision))
    ensures r.Ok? ==> (r.value == Boolean <==> c.precision == Bool8)
  {
    match c
    case KnownPrecision(p) => ConvertToOVElementType(p)
    case RawPrecision(_) => Fatal(UnsupportedElementType)
  }

  /** GetElementType<T> for the ten specialisations. */
  function GetElementType(t: CType): ElementType {
    match t
    case CInt8 => I8
    case CInt16 => I16
    case CInt32 => I32
    case CInt64 => I64
    case CUInt8 => U8
    case CUInt16 => U16
    case CUInt32 => U32
    case CUInt64 => U64
    case CFloat => F32
    case CDouble => F64
  }

  /** The NNAdapter precision naming the same scalar type as a C type. */
  function CTypePrecision(t: CType): Precision {
    match t
    case CInt8 => Int8
    case CInt16 => Int16
    case CInt32 => Int32
    case CInt64 => Int64
    case CUInt8 => UInt8
    case CUInt16 => UInt16
    case CUInt32 => UInt32
    case CUInt64 => UInt64
    case CFloat => Float32
    case CDouble => Float64
  }

  /** No two specialisations of GetElementType share an element type. */
  lemma GetElementTypeInjective(s: CType, t: CType)
    ensures GetElementType(s) == GetElementType(t) ==> s == t
  {
  }

  /** The two tables agree wherever both are defined: the C type and the
      precision that name the same scalar give the same element type, and
      the only C type whose precision has no element type is uint16_t. */
  lemma ElementTablesAgree(t: CType)
    ensures ConvertToOVElementType(CTypePrecision(t)).Ok?
            ==> ConvertToOVElementType(CTypePrecision(t)).value == GetElementType(t)
    ensures ConvertToOVElementType(CTypePrecision(t)).Fatal? <==> t == CUInt16
  {
  }
}
