/** Error handling of the NNAdapter TensorRT driver.

    The driver has two tiers of failure. A `NNADAPTER_LOG(FATAL)` or a failed
    `NNADAPTER_CHECK` aborts the process; here it becomes `Fatal(fault)`, a
    failure-compatible value that stops the computation. A recoverable error
    is an ordinary return code (`ReturnCode`) carried inside `Ok`.
 */
module Status {

  /** The return codes of the driver that this model produces. */
  datatype ReturnCode = NoError | InvalidDimensions | FeatureNotSupported

  /** Why the process aborted. One case per distinct fatal site. */
  datatype Fault =
    | UnsupportedDeviceId(id: int)          // engine.cc: unknown back-end id
    | EmptyPartition                        // engine.cc: no sub-model produced
    | CacheTruncated                        // a Deserialize helper ran out of bytes
    | CacheTrailingBytes                    // bytes left after the last sub-model
    | ModelDecodeFailed                     // DeserializeModel returned false
    | DynamicCountNotThree(count: nat)      // dynamic_count must be 3
    | TypeIndexOutOfRange(index: nat)       // std::vector::at past the end
    | MissingArgument(index: nat)           // FindArgumentByIndex found nothing
    | MissingTensor(key: int)               // a tensor index absent from its map
    | UnsupportedDeviceType                 // device type string not GPU/DLA
    | UnsupportedPrecision                  // precision string not recognised
    | MissingCalibration                    // int8 without a calibration source
    | UnsupportedOperationName              // allow-list entry not recognised
    | Int8WithDynamicShape                  // int8 and dynamic shape together
    | NoModelInput                          // input_operands.at(0) on no inputs
    | BuilderFailed                         // the TensorRT builder returned null
    | EngineLoadFailed                      // the runtime could not load a plan
    | BindingCountMismatch                  // getNbBindings() != inputs+outputs
    | BindingIndexOutOfRange                // a binding slot outside the array
    | NullDevicePointer                     // a binding slot never filled
    | InputDimensionsUnspecified            // allInputDimensionsSpecified() false
    | UnsupportedOperation                  // no kernel registered for a kind
    | KernelFailed(index: nat)              // a kernel's Run returned an error
    | UnsupportedElementType                // no OpenVINO element type
    | UnsupportedQuantMode                  // per-channel asymmetric quantize

  datatype Option<+T> = None | Some(value: T)

  /** A computation that either yields a value or aborts the process. */
  datatype Result<+T> = Ok(value: T) | Fatal(fault: Fault) {
    predicate IsFailure() {
      Fatal?
    }

    function PropagateFailure<U>(): Result<U>
      requires Fatal?
    {
      Fatal(fault)
    }

    function Extract(): T
      requires Ok?
    {
      value
    }
  }

  /** The failure-compatible form of a `NNADAPTER_CHECK`. */
  datatype Check = Pass | Fail(fault: Fault) {
    predicate IsFailure() {
      Fail?
    }

    function PropagateFailure<U>(): Result<U>
      requires Fail?
    {
      Fatal(fault)
    }
  }

  function Need(condition: bool, fault: Fault): (c: Check)
    ensures c.Pass? <==> condition
    ensures c.Fail? ==> c.fault == fault
  {
    if condition then Pass else Fail(fault)
  }
}
