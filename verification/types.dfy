/** The NNAdapter data model that the TensorRT driver consumes: operand
    precisions, dimensions with an optional dynamic {opt, min, max} triple,
    operand types, operations and the model graph.
 */
module Types {

  /** A signed 32-bit integer, the C type of extents and tensor indices. */
  type int32 = x: int | -0x8000_0000 <= x < 0x8000_0000

  /** One byte of a serialised buffer. */
  type byte = x: int | 0 <= x < 256

  /** `NNADAPTER_UNKNOWN`, the extent of a dimension only known at run time. */
  const UNKNOWN: int32 := -1

  /** `NNAdapterOperandPrecisionCode`, restricted to the codes the driver
      names, plus UINT16 which it does not map. */
  datatype Precision =
    | Bool8 | Int8 | UInt8 | Int16 | UInt16 | Int32 | UInt32 | Int64 | UInt64
    | Float16 | Float32 | Float64
    | QuantInt8SymmPerLayer | QuantInt8SymmPerChannel | QuantUInt8AsymmPerLayer
    | QuantInt16SymmPerLayer | QuantInt16SymmPerChannel
    | QuantInt32SymmPerLayer | QuantInt32SymmPerChannel | QuantUInt32AsymmPerLayer

  /** `NNAdapterOperandDimensionType`: `data` holds the `count` static extents;
      `dynamic` holds `dynamic_count` rows, in the order opt, min, max. In C
      every row is a fixed array at least `count` long; `WellFormed` says so. */
  datatype Dimensions = Dimensions(data: seq<int32>, dynamic: seq<seq<int32>>) {
    function Count(): nat {
      |data|
    }

    function DynamicCount(): nat {
      |dynamic|
    }

    predicate WellFormed() {
      forall k :: 0 <= k < |dynamic| ==> |dynamic[k]| >= |data|
    }

    /** Row `k` of the dynamic triple, cut to the `count` extents in use. */
    function Row(k: nat): (row: seq<int32>)
      requires WellFormed() && k < |dynamic|
      ensures |row| == |data|
    {
      dynamic[k][..|data|]
    }
  }

  /** Dimensions as C stores them: every dynamic row covers `count` extents. */
  type Dims = d: Dimensions | d.WellFormed() witness Dimensions([], [])

  /** The quantisation parameters of an operand (scales, zero points). */
  datatype QuantParams = QuantParams(scales: seq<real>, zeroPoints: seq<int32>)

  /** `NNAdapterOperandType`. */
  datatype OperandType = OperandType(precision: Precision, dimensions: Dims, quant: QuantParams)

  /** The operation kinds; only SOFTMAX is named by the driver. */
  datatype OperationKind = Softmax | OtherKind(name: string)

  /** A graph node; operands are referred to by their position in the graph. */
  datatype Operation = Operation(kind: OperationKind, inputs: seq<nat>, outputs: seq<nat>)

  /** `core::Model`: operands, operations and the boundary operands. */
  datatype Graph = Graph(
    operands: seq<OperandType>,
    operations: seq<Operation>,
    inputOperands: seq<nat>,
    outputOperands: seq<nat>)
  {
    /** Every operand reference points into `operands`, as a valid pointer would. */
    predicate WellFormed() {
      && (forall i :: 0 <= i < |inputOperands| ==> inputOperands[i] < |operands|)
      && (forall i :: 0 <= i < |outputOperands| ==> outputOperands[i] < |operands|)
    }

    function InputTypes(): (ts: seq<OperandType>)
      requires WellFormed()
      ensures |ts| == |inputOperands|
      ensures forall i :: 0 <= i < |ts| ==> ts[i] == operands[inputOperands[i]]
    {
      seq(|inputOperands|, i requires 0 <= i < |inputOperands| => operands[inputOperands[i]])
    }

    function OutputTypes(): (ts: seq<OperandType>)
      requires WellFormed()
      ensures |ts| == |outputOperands|
      ensures forall i :: 0 <= i < |ts| ==> ts[i] == operands[outputOperands[i]]
    {
      seq(|outputOperands|, i requires 0 <= i < |outputOperands| => operands[outputOperands[i]])
    }
  }

  /** A graph whose operand references are all valid. */
  type Model = g: Graph | g.WellFormed() witness Graph([], [], [], [])

  /** One partition produced by `PartitionModelIntoSubmodels`: the back-end
      id (0 TensorRT, 1 CUDA, 2 host), the sub-graph, the partitioner's
      ownership flag, and the tensor indices of the sub-graph's inputs and
      outputs (negative: `-(i+1)` for the model's own input or output `i`;
      non-negative: a temporary between sub-models). */
  datatype SubModel = SubModel(
    deviceId: int32,
    model: Model,
    owned: bool,
    inputIndices: seq<int32>,
    outputIndices: seq<int32>)

  /** A run-time tensor as the driver sees it: a handle and its current shape. */
  datatype Tensor = Tensor(handle: nat, dims: seq<int32>)

  /** An operand has a dynamic shape when one of its extents is unknown. */
  predicate HasDynamicShape(t: OperandType) {
    exists j :: 0 <= j < |t.dimensions.data| && t.dimensions.data[j] == UNKNOWN
  }
}
