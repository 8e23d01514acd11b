/** The generic QUANTIZE operation: validation, output type inference and
    (unsupported) reference execution. */
module Quantize {
  import opened Status
  import opened Types

  /** What the operation's extraction macro reads from its operands: the
      input and output operand types and the two quantisation mode flags. */
  datatype QuantizeOperation = QuantizeOperation(
    input: OperandType,
    output: OperandType,
    isPerLayer: bool,
    isSymmetric: bool)

  /** ValidateQuantize: no back-end claims to support the operation. */
  function ValidateQuantize(op: QuantizeOperation): (supported: bool)
    ensures !supported
  {
    false
  }

  predicate IsQuantizedPrecision(p: Precision) {
    p == QuantInt8SymmPerLayer || p == QuantInt8SymmPerChannel || p == QuantUInt8AsymmPerLayer
    || p == QuantInt16SymmPerLayer || p == QuantInt16SymmPerChannel
    || p == QuantInt32SymmPerLayer || p == QuantInt32SymmPerChannel || p == QuantUInt32AsymmPerLayer
  }

  /** The precision the decision table picks for the two mode flags. */
  function OutputPrecision(isPerLayer: bool, isSymmetric: bool): (r: Result<Precision>)
    ensures r.Ok? ==> IsQuantizedPrecision(r.value)
    ensures r.Ok? <==> isPerLayer || isSymmetric
    ensures r.Fatal? ==> r.fault == UnsupportedQuantMode
  {
    if isPerLayer && isSymmetric then Ok(QuantInt8SymmPerLayer)
    else if !isPerLayer && isSymmetric then Ok(QuantInt8SymmPerChannel)
    else if isPerLayer && !isSymmetric then Ok(QuantUInt8AsymmPerLayer)
    else Fatal(UnsupportedQuantMode)
  }

  /** PrepareQuantize: the output operand takes the input's type except for
      its own quantisation parameters and a precision chosen by the
      (per-layer, symmetric) table; per-channel asymmetric is fatal. */
  function PrepareQuantize(op: QuantizeOperation): (r: Result<(ReturnCode, OperandType)>)
    ensures r.Ok? <==> op.isPerLayer || op.isSymmetric
    ensures r.Fatal? ==> r.fault == UnsupportedQuantMode
    ensures r.Ok? ==> r.value.0 == NoError
    ensures r.Ok? ==> r.value.1.dimensions == op.input.dimensions
    ensures r.Ok? ==> r.value.1.quant == op.output.quant
    ensures r.Ok? && op.isPerLayer && op.isSymmetric ==> r.value.1.precision == QuantInt8SymmPerLayer
    ensures r.Ok? && !op.isPerLayer && op.isSymmetric ==> r.value.1.precision == QuantInt8SymmPerChannel
    ensures r.Ok? && op.isPerLayer && !op.isSymmetric ==> r.value.1.precision == QuantUInt8AsymmPerLayer
  {
    var copied := CopyOperandTypeExceptQuantParams(op.output, op.input);
    var precision :- OutputPrecision(op.isPerLayer, op.isSymmetric);
    Ok((NoError, copied.(precision := precision)))
  }

  /** Copies every field of `src` into `dst` except the quantisation
      parameters, which `dst` keeps. */
  function CopyOperandTypeExceptQuantParams(dst: OperandType, src: OperandType): (t: OperandType)
    ensures t.precision == src.precision && t.dimensions == src.dimensions
    ensures t.quant == dst.quant
  {
    OperandType(src.precision, src.dimensions, dst.quant)
  }

  /** ExecuteQuantize: there is no reference implementation. */
  function ExecuteQuantize(op: QuantizeOperation): (code: ReturnCode)
    ensures code == FeatureNotSupported
  {
    FeatureNotSupported
  }
}
