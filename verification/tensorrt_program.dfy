/** `TensorrtProgram`: one sub-model compiled by TensorRT. The TensorRT SDK
    (converter, builder, runtime, execution context) is a set of oracles in
    `Sdk`; what is modelled is the driver's own logic around them: the
    dynamic-shape flag, the builder configuration, cache reuse, binding
    lookup and the device-pointer array of a run. */
module TensorrtProgram {
  import opened Status
  import opened Types
  import opened TrtContext
  import Bindings

  /** A loaded engine, seen through its binding names in slot order. */
  datatype Engine = Engine(bindingNames: seq<string>)

  /** One optimisation profile: the opt, min and max extents of an input. */
  datatype Profile = Profile(input: nat, opt: seq<int32>, min: seq<int32>, max: seq<int32>)

  /** The int8 calibrator's arguments; `batchSize` is the first extent of
      the first input, unspecified when that input has rank 0. */
  datatype Calibrator = Calibrator(batchSize: Option<int32>, datasetPath: string, tablePath: string)

  /** The builder configuration `CompleteConfig` produces. */
  datatype BuilderConfig = BuilderConfig(
    profiles: seq<Profile>,
    deviceType: DeviceType,
    dlaCore: Option<nat>,
    fp16: bool,
    int8: bool,
    gpuFallback: bool,
    calibrator: Option<Calibrator>)

  /** The collaborators a TensorRT sub-program calls but does not define. */
  datatype Sdk = Sdk(
    optimize: Model -> Model,                                  // the three optimizer passes
    normalize: OperandType -> OperandType,                     // ConvertDynamicDimensions
    buildPlan: (Model, bool, BuilderConfig) -> Option<seq<byte>>, // converter and builder; bool: explicit batch
    loadEngine: seq<byte> -> Option<Engine>,                   // runtime deserialisation
    dlaCores: int)                                             // getNbDLACores()

  /** A built TensorRT sub-program. */
  datatype TrtState = TrtState(
    model: Model,
    engine: Engine,
    inputIndices: seq<int>,
    outputIndices: seq<int>,
    inputTypes: seq<OperandType>,
    outputTypes: seq<OperandType>)

  /** The effect of one run: output tensors sized to their maximum extents,
      the device-pointer array in slot order, the extents set on each input
      binding, and the extents the outputs end with. */
  datatype TrtRun = TrtRun(
    maxShapes: seq<seq<int32>>,
    devicePointers: seq<nat>,
    inputBindingDims: seq<(int, seq<int32>)>,
    outputShapes: seq<seq<int32>>)

  /** SetMaxDims: static extents when there is no dynamic triple, otherwise
      the first `count` extents of the max row; any other dynamic_count is
      fatal. */
  function SetMaxDims(t: OperandType): (r: Result<seq<int32>>)
    ensures r.Ok? <==> t.dimensions.DynamicCount() in {0, 3}
    ensures r.Fatal? ==> r.fault == DynamicCountNotThree(t.dimensions.DynamicCount())
    ensures r.Ok? ==> |r.value| == t.dimensions.Count()
    ensures r.Ok? && t.dimensions.DynamicCount() == 0 ==> r.value == t.dimensions.data
    ensures r.Ok? && t.dimensions.DynamicCount() == 3 ==>
              forall j :: 0 <= j < |r.value| ==> r.value[j] == t.dimensions.dynamic[2][j]
  {
    var d := t.dimensions;
    if d.DynamicCount() == 0 then Ok(d.data)
    else if d.DynamicCount() == 3 then Ok(d.Row(2))
    else Fatal(DynamicCountNotThree(d.DynamicCount()))
  }

  /** `with_dynamic_shape_`: some model input has an unknown extent. */
  function WithDynamicShape(inputs: seq<OperandType>): (b: bool)
    ensures b <==> exists i :: 0 <= i < |inputs| && HasDynamicShape(inputs[i])
  {
    if |inputs| == 0 then false
    else HasDynamicShape(inputs[0]) || WithDynamicShape(inputs[1..])
  }

  /** Every input with a dynamic triple still has three rows once normalised. */
  predicate TriplesComplete(inputs: seq<OperandType>, normalize: OperandType -> OperandType) {
    forall i :: 0 <= i < |inputs| && inputs[i].dimensions.DynamicCount() != 0 ==>
      normalize(inputs[i]).dimensions.DynamicCount() == 3
  }

  /** The profile of input `index`: the opt, min and max rows of the
      normalised triple of its type `t`. */
  function ProfileOf(index: nat, t: OperandType, normalize: OperandType -> OperandType): Profile
    requires normalize(t).dimensions.DynamicCount() == 3
  {
    var n := normalize(t).dimensions;
    Profile(index, n.Row(0), n.Row(1), n.Row(2))
  }

  /** Profile `p` is the one that input `p.input` of `inputs`, numbered
      from `first`, contributes: that input has a dynamic triple, and `p`
      carries its normalised rows. */
  predicate ProfileFor(p: Profile, inputs: seq<OperandType>, normalize: OperandType -> OperandType, first: nat) {
    && first <= p.input < first + |inputs|
    && inputs[p.input - first].dimensions.DynamicCount() != 0
    && normalize(inputs[p.input - first]).dimensions.DynamicCount() == 3
    && p == ProfileOf(p.input, inputs[p.input - first], normalize)
  }

  /** The optimisation profiles: one per input whose dynamic_count is not
      zero, taken from its normalised triple, which must have three rows.
      Profiles come in input order, each the `ProfileOf` its input;
      `ProfilesComplete` shows that no dynamic input is skipped. */
  function Profiles(inputs: seq<OperandType>, normalize: OperandType -> OperandType, first: nat): (r: Result<seq<Profile>>)
    ensures r.Ok? <==> TriplesComplete(inputs, normalize)
    ensures r.Ok? ==> |r.value| <= |inputs|
    ensures r.Ok? ==> forall k :: 0 <= k < |r.value| ==> ProfileFor(r.value[k], inputs, normalize, first)
    ensures r.Ok? ==> forall k, l :: 0 <= k < l < |r.value| ==> r.value[k].input < r.value[l].input
  {
    if |inputs| == 0 then Ok([])
    else
      var t := inputs[0];
      var rest :- Profiles(inputs[1..], normalize, first + 1);
      assert forall i :: 1 <= i < |inputs| ==> inputs[i] == inputs[1..][i - 1];
      ProfilesShift(rest, inputs, normalize, first);
      if t.dimensions.DynamicCount() == 0 then Ok(rest)
      else
        var n := normalize(t).dimensions;
        if n.DynamicCount() != 3 then Fatal(DynamicCountNotThree(n.DynamicCount()))
        else
          var p := Profile(first, n.Row(0), n.Row(1), n.Row(2));
          assert ProfileFor(p, inputs, normalize, first);
          Ok([p] + rest)
  }

  /** The profiles of the inputs after the first belong to the whole list,
      numbered one lower. */
  lemma ProfilesShift(ps: seq<Profile>, inputs: seq<OperandType>, normalize: OperandType -> OperandType, first: nat)
    requires |inputs| > 0
    requires forall k :: 0 <= k < |ps| ==> ProfileFor(ps[k], inputs[1..], normalize, first + 1)
    ensures forall k :: 0 <= k < |ps| ==> ProfileFor(ps[k], inputs, normalize, first) && ps[k].input > first
  {
    forall k | 0 <= k < |ps|
      ensures ProfileFor(ps[k], inputs, normalize, first)
    {
      assert inputs[ps[k].input - first] == inputs[1..][ps[k].input - (first + 1)];
    }
  }

  /** Every input whose dynamic_count is not zero gets its profile: the
      loop over the inputs skips only the static ones. */
  lemma {:induction false} ProfilesComplete(inputs: seq<OperandType>, normalize: OperandType -> OperandType, first: nat, i: nat)
    requires TriplesComplete(inputs, normalize)
    requires i < |inputs| && inputs[i].dimensions.DynamicCount() != 0
    ensures Profiles(inputs, normalize, first).Ok?
    ensures ProfileOf(first + i, inputs[i], normalize) in Profiles(inputs, normalize, first).value
    decreases i
  {
    var t := inputs[0];
    var tail := inputs[1..];
    assert forall j :: 1 <= j < |inputs| ==> inputs[j] == tail[j - 1];
    assert TriplesComplete(tail, normalize);
    var rest := Profiles(tail, normalize, first + 1).value;
    if i > 0 {
      ProfilesComplete(tail, normalize, first + 1, i - 1);
      assert ProfileOf(first + i, inputs[i], normalize) in rest;
    }
    if t.dimensions.DynamicCount() == 0 {
      assert Profiles(inputs, normalize, first).value == rest;
    } else {
      assert Profiles(inputs, normalize, first).value == [ProfileOf(first, t, normalize)] + rest;
    }
  }

  /** CompleteConfig: profiles for dynamic inputs, the device type and DLA
      core, the precision flags, GPU fallback, and for int8 the calibrator,
      which is incompatible with dynamic shape. */
  function CompleteConfig(ctx: Context, withDynamicShape: bool, inputs: seq<OperandType>, sdk: Sdk): (r: Result<BuilderConfig>)
    ensures r.Ok? ==> r.value.deviceType == ctx.deviceType
    ensures r.Ok? ==> (r.value.fp16 <==> ctx.precision == Float16Mode || (ctx.precision == Float32Mode && ctx.deviceType == Dla))
    ensures r.Ok? ==> (r.value.int8 <==> ctx.precision == Int8Mode)
    ensures r.Ok? ==> (r.value.gpuFallback <==> ctx.gpuFallback)
    ensures r.Ok? ==> (r.value.dlaCore.Some? <==> ctx.deviceType == Dla && sdk.dlaCores > ctx.deviceId)
    ensures r.Ok? && r.value.dlaCore.Some? ==> r.value.dlaCore.value == ctx.deviceId
    ensures r.Ok? ==> (r.value.calibrator.Some? <==> ctx.precision == Int8Mode)
    ensures r.Ok? && ctx.precision == Int8Mode ==> !withDynamicShape
    ensures ctx.precision == Int8Mode && withDynamicShape ==> r.Fatal?
    ensures r.Ok? <==> ((withDynamicShape ==> TriplesComplete(inputs, sdk.normalize))
                        && (ctx.precision == Int8Mode ==> !withDynamicShape && |inputs| > 0))
    ensures r.Ok? && !withDynamicShape ==> r.value.profiles == []
    ensures r.Ok? && withDynamicShape ==> r.value.profiles == Profiles(inputs, sdk.normalize, 0).value
    ensures r.Ok? && r.value.calibrator.Some? ==>
              && |inputs| > 0
              && r.value.calibrator.value ==
                 Calibrator(if |inputs[0].dimensions.data| > 0 then Some(inputs[0].dimensions.data[0]) else None,
                            ctx.calibrationDatasetPath, ctx.calibrationTablePath)
  {
    var profiles :- if withDynamicShape then Profiles(inputs, sdk.normalize, 0) else Ok([]);
    var dlaCore := if ctx.deviceType == Dla && sdk.dlaCores > ctx.deviceId then Some(ctx.deviceId) else None;
    var fp16 := ctx.precision == Float16Mode || (ctx.precision == Float32Mode && ctx.deviceType == Dla);
    var int8 := ctx.precision == Int8Mode;
    if !int8 then
      Ok(BuilderConfig(profiles, ctx.deviceType, dlaCore, fp16, false, ctx.gpuFallback, None))
    else
      :- Need(!withDynamicShape, Int8WithDynamicShape);
      :- Need(|inputs| > 0, NoModelInput);
      var first := inputs[0].dimensions.data;
      var batch := if |first| > 0 then Some(first[0]) else None;
      var calibrator := Calibrator(batch, ctx.calibrationDatasetPath, ctx.calibrationTablePath);
      Ok(BuilderConfig(profiles, ctx.deviceType, dlaCore, fp16, true, ctx.gpuFallback, Some(calibrator)))
  }

  /** The normalised types of a sequence of operands. */
  function NormalizeAll(ts: seq<OperandType>, normalize: OperandType -> OperandType): (r: seq<OperandType>)
    ensures |r| == |ts| && forall i :: 0 <= i < |ts| ==> r[i] == normalize(ts[i])
  {
    seq(|ts|, i requires 0 <= i < |ts| => normalize(ts[i]))
  }

  /** The builder configuration for `model`: the dynamic-shape flag is
      taken from the inputs before optimisation, the profiles from the
      inputs after it. */
  function ConfigFor(model: Model, ctx: Context, sdk: Sdk): Result<BuilderConfig> {
    CompleteConfig(ctx, WithDynamicShape(model.InputTypes()), sdk.optimize(model).InputTypes(), sdk)
  }

  /** `plan` is what the builder compiles from the optimised `model` under
      its configuration, with an explicit-batch network unless int8. */
  predicate CompiledFrom(plan: seq<byte>, model: Model, ctx: Context, sdk: Sdk) {
    var config := ConfigFor(model, ctx, sdk);
    config.Ok? && sdk.buildPlan(sdk.optimize(model), ctx.precision != Int8Mode, config.value) == Some(plan)
  }

  /** BuildFromModel: optimise the model, configure the builder, compile a
      plan and load it. Int8 uses an implicit-batch network. The result is
      the optimised model, the engine and the plan bytes; it fails exactly
      when the configuration, the builder or the runtime does. */
  function BuildFromModel(model: Model, ctx: Context, sdk: Sdk): (r: Result<(Model, Engine, seq<byte>)>)
    ensures r.Ok? <==> (var config := ConfigFor(model, ctx, sdk);
                        && config.Ok?
                        && var plan := sdk.buildPlan(sdk.optimize(model), ctx.precision != Int8Mode, config.value);
                           plan.Some? && sdk.loadEngine(plan.value).Some?)
    ensures r.Ok? ==> r.value.0 == sdk.optimize(model)
    ensures r.Ok? ==> CompiledFrom(r.value.2, model, ctx, sdk)
    ensures r.Ok? ==> sdk.loadEngine(r.value.2) == Some(r.value.1)
    ensures r.Fatal? && ConfigFor(model, ctx, sdk).Ok? ==> r.fault in {BuilderFailed, EngineLoadFailed}
  {
    var withDynamicShape := WithDynamicShape(model.InputTypes());
    var optimized := sdk.optimize(model);
    var config :- CompleteConfig(ctx, withDynamicShape, optimized.InputTypes(), sdk);
    var plan :- match sdk.buildPlan(optimized, ctx.precision != Int8Mode, config)
                case Some(p) => Ok(p)
                case None => Fatal(BuilderFailed);
    var engine :- LoadEngine(plan, sdk);
    Ok((optimized, engine, plan))
  }

  function LoadEngine(plan: seq<byte>, sdk: Sdk): (r: Result<Engine>)
    ensures r.Ok? <==> sdk.loadEngine(plan).Some?
    ensures r.Ok? ==> r.value == sdk.loadEngine(plan).value
    ensures r.Fatal? ==> r.fault == EngineLoadFailed
  {
    match sdk.loadEngine(plan)
    case Some(e) => Ok(e)
    case None => Fatal(EngineLoadFailed)
  }

  function BindingIndices(names: seq<string>, count: nat, input: bool): (idx: seq<int>)
    ensures |idx| == count
    ensures forall i :: 0 <= i < count ==>
              idx[i] == Bindings.BindingIndex(names, if input then Bindings.InputName(i) else Bindings.OutputName(i))
  {
    seq(count, i requires 0 <= i < count =>
      Bindings.BindingIndex(names, if input then Bindings.InputName(i) else Bindings.OutputName(i)))
  }

  /** TensorrtProgram::Build. With an empty cache the plan is compiled and
      becomes the cache; otherwise the cached plan is loaded and the cache
      is left as it is. The engine must have one binding per boundary
      value, found by the names "input{i}" and "output{i}". */
  /** The engine has exactly one binding per model input and output. */
  predicate BindingsMatch(e: Engine, m: Model) {
    |e.bindingNames| == |m.inputOperands| + |m.outputOperands|
  }

  function Build(model: Model, cache: seq<byte>, ctx: Context, sdk: Sdk): (r: Result<(TrtState, seq<byte>)>)
    ensures |cache| > 0 ==>
              (r.Ok? <==> sdk.loadEngine(cache).Some? && BindingsMatch(sdk.loadEngine(cache).value, model))
    ensures |cache| > 0 && r.Fatal? ==>
              r.fault == (if sdk.loadEngine(cache).Some? then BindingCountMismatch else EngineLoadFailed)
    ensures |cache| == 0 ==>
              (r.Ok? <==> (var b := BuildFromModel(model, ctx, sdk);
                           b.Ok? && BindingsMatch(b.value.1, sdk.optimize(model))))
    ensures |cache| == 0 && r.Fatal? ==>
              r.fault == (var b := BuildFromModel(model, ctx, sdk); if b.Ok? then BindingCountMismatch else b.fault)
    ensures r.Ok? && |cache| > 0 ==> r.value.1 == cache && r.value.0.model == model
    ensures r.Ok? && |cache| > 0 ==> sdk.loadEngine(cache) == Some(r.value.0.engine)
    ensures r.Ok? && |cache| == 0 ==> sdk.loadEngine(r.value.1) == Some(r.value.0.engine)
    ensures r.Ok? && |cache| == 0 ==> r.value.0.model == sdk.optimize(model) && CompiledFrom(r.value.1, model, ctx, sdk)
    ensures r.Ok? ==> |r.value.0.engine.bindingNames| == |r.value.0.model.inputOperands| + |r.value.0.model.outputOperands|
    ensures r.Ok? ==> |r.value.0.inputIndices| == |r.value.0.inputTypes| == |r.value.0.model.inputOperands|
    ensures r.Ok? ==> |r.value.0.outputIndices| == |r.value.0.outputTypes| == |r.value.0.model.outputOperands|
    ensures r.Ok? ==> r.value.0.inputTypes == NormalizeAll(r.value.0.model.InputTypes(), sdk.normalize)
    ensures r.Ok? ==> r.value.0.outputTypes == NormalizeAll(r.value.0.model.OutputTypes(), sdk.normalize)
    ensures r.Ok? ==> forall i :: 0 <= i < |r.value.0.inputIndices| ==>
              r.value.0.inputIndices[i] == Bindings.BindingIndex(r.value.0.engine.bindingNames, Bindings.InputName(i))
    ensures r.Ok? ==> forall i :: 0 <= i < |r.value.0.outputIndices| ==>
              r.value.0.outputIndices[i] == Bindings.BindingIndex(r.value.0.engine.bindingNames, Bindings.OutputName(i))
  {
    var built :- if |cache| == 0 then BuildFromModel(model, ctx, sdk)
                 else var e :- LoadEngine(cache, sdk); Ok((model, e, cache));
    var (m, engine, newCache) := built;
    var inputCount := |m.inputOperands|;
    var outputCount := |m.outputOperands|;
    var inputTypes := NormalizeAll(m.InputTypes(), sdk.normalize);
    var outputTypes := NormalizeAll(m.OutputTypes(), sdk.normalize);
    :- Need(|engine.bindingNames| == inputCount + outputCount, BindingCountMismatch);
    var inputIndices := BindingIndices(engine.bindingNames, inputCount, true);
    var outputIndices := BindingIndices(engine.bindingNames, outputCount, false);
    Ok((TrtState(m, engine, inputIndices, outputIndices, inputTypes, outputTypes), newCache))
  }

  /** Loading the plan a fresh build wrote, together with the model it
      kept, reproduces that build: the same engine, binding slots and
      boundary types, and the plan is kept as it is. */
  lemma RebuildFromPlan(model: Model, ctx: Context, sdk: Sdk)
    requires Build(model, [], ctx, sdk).Ok?
    requires |Build(model, [], ctx, sdk).value.1| > 0
    ensures var (s, plan) := Build(model, [], ctx, sdk).value;
            Build(s.model, plan, ctx, sdk) == Ok((s, plan))
  {
  }

  /** An int8 context never compiles a model one of whose inputs has an
      unknown extent, whatever the SDK does; only a cached plan can still
      be loaded for it. */
  lemma Int8RefusesDynamicShape(model: Model, ctx: Context, sdk: Sdk, i: nat)
    requires ctx.precision == Int8Mode
    requires i < |model.inputOperands| && HasDynamicShape(model.InputTypes()[i])
    ensures BuildFromModel(model, ctx, sdk).Fatal?
    ensures Build(model, [], ctx, sdk).Fatal?
  {
    assert WithDynamicShape(model.InputTypes());
  }

  /** The shape invariants `Build` establishes. */
  predicate Valid(s: TrtState) {
    && |s.inputIndices| == |s.inputTypes|
    && |s.outputIndices| == |s.outputTypes|
  }

  /** The handles of a sequence of tensors. */
  function Handles(ts: seq<Tensor>): (hs: seq<nat>)
    ensures |hs| == |ts| && forall i :: 0 <= i < |ts| ==> hs[i] == ts[i].handle
  {
    seq(|ts|, i requires 0 <= i < |ts| => ts[i].handle)
  }

  /** Sizes every output to its maximum extents, in order. */
  function MaxShapes(types: seq<OperandType>, outputs: seq<Tensor>): (r: Result<seq<seq<int32>>>)
    ensures r.Ok? <==> |outputs| >= |types| && forall i :: 0 <= i < |types| ==> SetMaxDims(types[i]).Ok?
    ensures r.Ok? ==> |r.value| == |types| && forall i :: 0 <= i < |types| ==> r.value[i] == SetMaxDims(types[i]).value
  {
    if |types| == 0 then Ok([])
    else
      :- Need(|outputs| > 0, TypeIndexOutOfRange(0));
      var first :- SetMaxDims(types[0]);
      var rest :- MaxShapes(types[1..], outputs[1..]);
      assert forall i :: 1 <= i < |types| ==> types[i] == types[1..][i - 1];
      Ok([first] + rest)
  }

  /** TensorrtProgram::Execute. Outputs are first sized to their maximum
      extents; the pointer array has one slot per binding, input `i` at
      slot `inputIndices[i]` and output `i` at `outputIndices[i]`, and a slot
      left null aborts; every input extent must be set; the outputs end
      with the extents the execution context reports for their bindings. */
  function Execute(s: TrtState, inputs: seq<Tensor>, outputs: seq<Tensor>,
                   allSpecified: bool, bindingDims: int -> seq<int32>): (r: Result<TrtRun>)
    requires Valid(s)
    ensures r.Ok? <==>
      && MaxShapes(s.outputTypes, outputs).Ok?
      && |inputs| >= |s.inputTypes|
      && Bindings.InRange(s.inputIndices + s.outputIndices, |s.inputTypes| + |s.outputTypes|)
      && Bindings.Distinct(s.inputIndices + s.outputIndices)
      && allSpecified
    ensures r.Ok? ==> r.value.maxShapes == MaxShapes(s.outputTypes, outputs).value
    ensures r.Ok? ==> |r.value.devicePointers| == |s.inputTypes| + |s.outputTypes|
    ensures r.Ok? ==> forall i :: 0 <= i < |s.inputTypes| ==>
              0 <= s.inputIndices[i] < |r.value.devicePointers| &&
              r.value.devicePointers[s.inputIndices[i]] == inputs[i].handle
    ensures r.Ok? ==> forall i :: 0 <= i < |s.outputTypes| ==>
              0 <= s.outputIndices[i] < |r.value.devicePointers| &&
              r.value.devicePointers[s.outputIndices[i]] == outputs[i].handle
    ensures r.Ok? ==> |r.value.inputBindingDims| == |s.inputTypes|
    ensures r.Ok? ==> forall i :: 0 <= i < |s.inputTypes| ==>
              r.value.inputBindingDims[i] == (s.inputIndices[i], inputs[i].dims)
    ensures r.Ok? ==> |r.value.outputShapes| == |s.outputTypes|
    ensures r.Ok? ==> forall i :: 0 <= i < |s.outputTypes| ==>
              r.value.outputShapes[i] == bindingDims(s.outputIndices[i])
  {
    var maxShapes :- MaxShapes(s.outputTypes, outputs);
    :- Need(|inputs| >= |s.inputTypes|, TypeIndexOutOfRange(|inputs|));
    var ni, no := |s.inputTypes|, |s.outputTypes|;
    var ptrs :- Bindings.BindBoundary(s.inputIndices, s.outputIndices, Handles(inputs[..ni]), Handles(outputs[..no]));
    :- Need(allSpecified, InputDimensionsUnspecified);
    var inputDims := seq(ni, i requires 0 <= i < ni => (s.inputIndices[i], inputs[i].dims));
    var outputShapes := seq(no, i requires 0 <= i < no => bindingDims(s.outputIndices[i]));
    Ok(TrtRun(maxShapes, ptrs, inputDims, outputShapes))
  }

  /** When the engine carries a binding named after every boundary value,
      the slots `Build` records are in range and pairwise distinct, which is
      exactly what a run needs to fill its pointer array. */
  lemma {:induction false} NamedBindingsFillPointerArray(s: TrtState)
    requires Valid(s)
    requires |s.engine.bindingNames| == |s.inputTypes| + |s.outputTypes|
    requires forall i :: 0 <= i < |s.inputIndices| ==>
               s.inputIndices[i] == Bindings.BindingIndex(s.engine.bindingNames, Bindings.InputName(i))
    requires forall i :: 0 <= i < |s.outputIndices| ==>
               s.outputIndices[i] == Bindings.BindingIndex(s.engine.bindingNames, Bindings.OutputName(i))
    requires forall i :: 0 <= i < |s.inputTypes| ==> Bindings.InputName(i) in s.engine.bindingNames
    requires forall i :: 0 <= i < |s.outputTypes| ==> Bindings.OutputName(i) in s.engine.bindingNames
    ensures Bindings.InRange(s.inputIndices + s.outputIndices, |s.inputTypes| + |s.outputTypes|)
    ensures Bindings.Distinct(s.inputIndices + s.outputIndices)
  {
    var ni := |s.inputTypes|;
    var idx := s.inputIndices + s.outputIndices;
    forall k | 0 <= k < |idx|
      ensures idx[k] == Bindings.BindingIndex(s.engine.bindingNames, Bindings.BoundaryName(k, ni))
      ensures Bindings.BoundaryName(k, ni) in s.engine.bindingNames
    {
      if k >= ni {
        assert idx[k] == s.outputIndices[k - ni];
      }
    }
    Bindings.LookupsDistinct(s.engine.bindingNames, idx, ni);
  }
}
