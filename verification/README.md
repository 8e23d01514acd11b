# NNAdapter NVIDIA TensorRT driver core, modelled in Dafny

This project models the program layer of Paddle Lite's NNAdapter driver for
NVIDIA TensorRT, together with two small pieces of NNAdapter it shares with
other drivers: the Intel OpenVINO type conversions and the generic QUANTIZE
operation.

A `Program` (module `Engine`) builds a model in one of two ways:

- It partitions the operations into TensorRT, CUDA and host sub-models
  according to the two operation allow-lists of the `Context`.
- It reads the sub-models back from a cache buffer it wrote earlier.

It then creates one sub-program per sub-model, dispatched on the sub-model's
device id, and builds each one. A TensorRT sub-program (`TensorrtProgram`)
compiles a serialised plan, or loads one from its cache. It also looks up
the binding slot of every `input<i>`/`output<i>` name. CUDA and host
sub-programs (`KernelProgram`) pick one kernel per operation in topological
order.

`Program::Execute` (module `EngineExecute`) runs as follows:

1. It checks the callers' input extents against the declared types, which
   may carry a dynamic {opt, min, max} triple.
2. It feeds the inputs into a tensor store keyed `-(i+1)` (`TensorStore`).
3. It runs the sub-programs in order. Each one takes the tensors its
   sub-model's indices name, and temporaries and outputs are allocated on
   first use.
4. It reads back the outputs.

The cache format (`CacheCodec`) has these parts:

- A little-endian `size_t` sub-model count.
- Per sub-model, in order:
  - an `int32` device id;
  - the encoded sub-graph;
  - the partitioner's flag;
  - the input and output index lists;
  - the sub-program's own cache.

The model has no heap and no SDK:

- Tensors are natural-number handles drawn from a counter.
- The TensorRT SDK, the partitioner, the topological sort and the sub-graph
  codec are total functions passed in the `Sdk` and `Platform` records.
- A fatal `NNADAPTER_CHECK` is the `Fatal` branch of `Status.Result`.

## Model

| member | source | states |
|---|---|---|
| OpenvinoUtility.ConvertToOVPadType | lite/backends/nnadapter/nnadapter/src/driver/intel_openvino/utility.cc:23-34 | VALID maps to VALID, SAME maps to SAME_UPPER, and every other code, NONE included, maps to NOTSET; each direction is an if-and-only-if |
| OpenvinoUtility.ConvertToOVElementType | lite/backends/nnadapter/nnadapter/src/driver/intel_openvino/utility.cc:36-76 | conversion fails exactly for the one unmapped precision (UINT16); otherwise the element type has the precision's bit width, signedness and float-ness, and is boolean exactly for BOOL8 |
| OpenvinoUtility.ConvertCodeToOVElementType | lite/backends/nnadapter/nnadapter/src/driver/intel_openvino/utility.cc:36-76 | on the raw enum value, conversion fails exactly for UINT16 and for any value outside the named precisions (the `default:` branch); otherwise the element type has the precision's bit width, signedness and float-ness, and is boolean exactly for BOOL8 |
| OpenvinoUtility.GetElementTypeInjective | lite/backends/nnadapter/nnadapter/src/driver/intel_openvino/utility.cc:78-117 | different C element types get different OpenVINO element types |
| OpenvinoUtility.ElementTablesAgree | lite/backends/nnadapter/nnadapter/src/driver/intel_openvino/utility.cc:36-117 | for each C type, the precision of that C type converts to the element type GetElementType gives it, except for uint16_t, whose precision conversion fails |
| Quantize.ValidateQuantize | lite/backends/nnadapter/nnadapter/src/operation/quantize.cc:25 | the operation is never reported as supported |
| Quantize.OutputPrecision | lite/backends/nnadapter/nnadapter/src/operation/quantize.cc:32-40 | a precision is chosen exactly when the mode is per-layer or symmetric; the chosen precision is always a quantised one; per-channel asymmetric is the unsupported-mode error |
| Quantize.PrepareQuantize | lite/backends/nnadapter/nnadapter/src/operation/quantize.cc:27-43 | succeeds with NO_ERROR exactly when per-layer or symmetric; the output then takes the input's dimensions, keeps its own quantisation parameters, and gets INT8 symmetric per-layer, INT8 symmetric per-channel or UINT8 asymmetric per-layer according to the two flags |
| Quantize.ExecuteQuantize | lite/backends/nnadapter/nnadapter/src/operation/quantize.cc:45-47 | execution always reports FEATURE_NOT_SUPPORTED |
| TrtContext.Split | lite/backends/nnadapter/nnadapter/src/driver/nvidia_tensorrt/program.cc:119-120 | splitting at commas gives comma-free pieces that join back to the original string |
| TrtContext.SplitJoin | lite/backends/nnadapter/nnadapter/src/driver/nvidia_tensorrt/program.cc:119-120 | conversely, splitting the comma-joined list of any comma-free pieces gives back exactly those pieces |
| TrtContext.ParseOperationList | lite/backends/nnadapter/nnadapter/src/driver/nvidia_tensorrt/program.cc:114-143 | an allow-list parses exactly when it is empty or every comma-separated name is "NNADAPTER_SOFTMAX"; it then holds one SOFTMAX per name; any other name is the "Not support" error |
| TrtContext.SoftmaxListParses | lite/backends/nnadapter/nnadapter/src/driver/nvidia_tensorrt/program.cc:114-143 | an allow-list of n comma-separated "NNADAPTER_SOFTMAX" names, for any n of at least 1, parses to exactly n SOFTMAX kinds |
| TrtContext.ParseDeviceType | lite/backends/nnadapter/nnadapter/src/driver/nvidia_tensorrt/program.cc:58-71 | accepted exactly for "", "GPU" and "DLA"; the result is DLA exactly for "DLA" |
| TrtContext.ParsePrecision | lite/backends/nnadapter/nnadapter/src/driver/nvidia_tensorrt/program.cc:77-92 | accepted exactly for "", "float32", "float16" and "int8"; the result is float16 or int8 exactly for those names |
| TrtContext.NewContext | lite/backends/nnadapter/nnadapter/src/driver/nvidia_tensorrt/program.cc:54-144 | a context is created exactly when every key is acceptable and int8 comes with a calibration dataset path or a calibration table path; a negative device id is raised to 0; the device type, precision and GPU fallback follow the keys; the calibration paths are the properties' own; each allow-list is the list parsed from its property |
| Bindings.NatToStringInjective | lite/backends/nnadapter/nnadapter/src/driver/nvidia_tensorrt/program.cc:188 | different indices have different decimal spellings |
| Bindings.BindingNamesDistinct | lite/backends/nnadapter/nnadapter/src/driver/nvidia_tensorrt/program.cc:187-194 | the names `input<i>` and `output<j>` are pairwise distinct, and no input name equals an output name |
| Bindings.BindingIndex | lite/backends/nnadapter/nnadapter/src/driver/nvidia_tensorrt/program.cc:187-194 | the lookup gives the first slot carrying the name, or -1 exactly when no slot does |
| Bindings.DevicePointersCorrect | lite/backends/nnadapter/nnadapter/src/driver/nvidia_tensorrt/program.cc:340-349 | with one index per slot, the device pointer array is filled exactly when the indices are in range and pairwise distinct, and slot `idx[k]` then holds pointer `k` |
| Bindings.BindBoundary | lite/backends/nnadapter/nnadapter/src/driver/nvidia_tensorrt/program.cc:340-349 | the input and output pointers land in their binding slots exactly when the combined index list is in range and duplicate-free |
| Bindings.LookupsDistinct | lite/backends/nnadapter/nnadapter/src/driver/nvidia_tensorrt/program.cc:185-194 | looking up the distinct boundary names that all occur in the binding list gives in-range, pairwise distinct slots |
| TensorrtProgram.SetMaxDims | lite/backends/nnadapter/nnadapter/src/driver/nvidia_tensorrt/program.cc:38-52 | a shape is chosen exactly when dynamic_count is 0 or 3: the static extents for 0, the max row for 3, `count` extents long either way |
| EngineExecute.MaxShapeBoundsAdmissible | lite/backends/nnadapter/nnadapter/src/driver/nvidia_tensorrt/program.cc:38-52 | for a type whose min row does not exceed its max row, the extents SetMaxDims chooses pass the input shape check of engine.cc:160-165, and every extent vector that passes that check without being the declared static extents is bounded by them |
| TensorrtProgram.WithDynamicShape | lite/backends/nnadapter/nnadapter/src/driver/nvidia_tensorrt/program.cc:276-281 | the flag is set exactly when some model input has an unknown extent |
| TensorrtProgram.Profiles | lite/backends/nnadapter/nnadapter/src/driver/nvidia_tensorrt/program.cc:202-222 | profiles are made exactly when every input with a dynamic triple still has three rows after normalising; the profiles come in input order, each belongs to an input whose dynamic_count is not zero and carries the opt, min and max rows of that input's normalised triple |
| TensorrtProgram.ProfilesComplete | lite/backends/nnadapter/nnadapter/src/driver/nvidia_tensorrt/program.cc:203-220 | every input whose dynamic_count is not zero gets a profile: input i contributes the opt, min and max rows of its normalised triple, under the index of input i |
| TensorrtProgram.CompleteConfig | lite/backends/nnadapter/nnadapter/src/driver/nvidia_tensorrt/program.cc:198-273 | the builder config carries the device type; its profiles are those of the inputs with a dynamic triple when the model has a dynamic shape, and none otherwise; fp16 is set for float16, and for float32 on DLA; int8 and the calibrator are set exactly for int8, the calibrator taking the first extent of the first input and the context's dataset and table paths; GPU fallback follows the context; a DLA core is set exactly on DLA with enough cores; int8 together with a dynamic shape is fatal |
| TensorrtProgram.BuildFromModel | lite/backends/nnadapter/nnadapter/src/driver/nvidia_tensorrt/program.cc:275-319 | the build succeeds exactly when the configuration can be completed, the builder returns a plan and the runtime loads it; the result is the optimised model, an engine the runtime loads from the plan, and the plan the builder compiled from the optimised model, with the dynamic-shape flag taken before optimisation and an explicit-batch network unless int8; a builder or runtime failure is reported as such |
| TensorrtProgram.Int8RefusesDynamicShape | lite/backends/nnadapter/nnadapter/src/driver/nvidia_tensorrt/program.cc:263-281 | whatever the SDK does, an int8 context never compiles a model that has an input with an unknown extent, neither in BuildFromModel nor in a build with an empty cache |
| TensorrtProgram.Build | lite/backends/nnadapter/nnadapter/src/driver/nvidia_tensorrt/program.cc:154-196 | with a non-empty cache the build succeeds exactly when the runtime loads the cache into an engine with one binding per model input and output, and the cache and model are kept unchanged; with an empty cache it succeeds exactly when the model compiles and the engine's bindings match the optimised model, and the compiled plan becomes the cache; otherwise the fault is the load or compile failure or the binding-count mismatch; the boundary types are the normalised model types; binding index `i` is the lookup of `input<i>`/`output<i>` |
| TensorrtProgram.RebuildFromPlan | lite/backends/nnadapter/nnadapter/src/driver/nvidia_tensorrt/program.cc:154-196 | building again from the non-empty plan and the model a fresh build left reproduces that build exactly: same engine, binding slots, boundary types and cache |
| TensorrtProgram.MaxShapes | lite/backends/nnadapter/nnadapter/src/driver/nvidia_tensorrt/program.cc:336-338 | every output is resized to its maximum extents in order; this fails exactly when an output tensor is missing or a type has a dynamic_count other than 0 or 3 |
| TensorrtProgram.Execute | lite/backends/nnadapter/nnadapter/src/driver/nvidia_tensorrt/program.cc:330-368 | a run succeeds exactly when the outputs can be sized and the binding slots form a permutation; it then puts input `i` and output `i` in their slots, binds every input's actual extents to its slot, and gives each output the shape the execution context reports for its binding |
| TensorrtProgram.NamedBindingsFillPointerArray | lite/backends/nnadapter/nnadapter/src/driver/nvidia_tensorrt/program.cc:185-194 | when the engine has a binding for every `input<i>`/`output<i>`, the slots `Build` looked up are in range and pairwise distinct, so the pointer array of program.cc:340-349 is always completely filled |
| KernelProgram.Kernels | lite/backends/nnadapter/nnadapter/src/driver/nvidia_tensorrt/program.cc:378-393 | a kernel list is made exactly when every operation kind is registered; kernel `i` is registered for operation `i`'s kind |
| KernelProgram.Build | lite/backends/nnadapter/nnadapter/src/driver/nvidia_tensorrt/program.cc:376-395 | a build succeeds exactly when every sorted operation has a kernel; it keeps the sorted operations and starts with an empty operand map; the host build at program.cc:426-445 is the same |
| KernelProgram.EnsureTensors | lite/backends/nnadapter/nnadapter/src/driver/nvidia_tensorrt/program.cc:399-403 | afterwards every operand has a tensor, existing tensors are kept, and new ones are fresh |
| KernelProgram.EnsureTensorsDistinct | lite/backends/nnadapter/nnadapter/src/driver/nvidia_tensorrt/program.cc:399-403 | no two operands that lacked a tensor share one afterwards |
| KernelProgram.Override | lite/backends/nnadapter/nnadapter/src/driver/nvidia_tensorrt/program.cc:404-411 | binding in order gives each key the value of its last occurrence and leaves unlisted keys alone |
| KernelProgram.RunAll | lite/backends/nnadapter/nnadapter/src/driver/nvidia_tensorrt/program.cc:412-416 | the run passes exactly when every kernel succeeds; otherwise it stops at the first failing one, after all earlier ones succeeded |
| KernelProgram.BindOperands | lite/backends/nnadapter/nnadapter/src/driver/nvidia_tensorrt/program.cc:399-411 | every operand has a tensor; an output operand gets the caller's tensor from its last position in the output list; an input operand that is not also an output gets the caller's tensor from its last position; every other operand keeps its tensor or gets a fresh one |
| KernelProgram.Execute | lite/backends/nnadapter/nnadapter/src/driver/nvidia_tensorrt/program.cc:397-418 | a run succeeds exactly when enough tensors are passed and every kernel succeeds; the operand map is the one BindOperands gives; CUDA runs each kernel and then synchronises, while the host run at program.cc:447-467 only runs the kernels |
| CacheCodec.LittleEndianRoundTrip | lite/backends/nnadapter/nnadapter/src/driver/nvidia_tensorrt/engine.cc:276-283 | a value below 256^k written in k little-endian bytes reads back unchanged |
| CacheCodec.SubModelsRoundTrip | lite/backends/nnadapter/nnadapter/src/driver/nvidia_tensorrt/engine.cc:277-284 | decoding the encoded sub-model records gives back every record and cache, and leaves whatever follows them untouched |
| CacheCodec.CacheRoundTrip | lite/backends/nnadapter/nnadapter/src/driver/nvidia_tensorrt/engine.cc:263-318 | deserialising a serialised cache gives back the same sub-models in order (device id, sub-graph, flag, index lists) and the same sub-program caches |
| CacheCodec.TrailingBytesRejected | lite/backends/nnadapter/nnadapter/src/driver/nvidia_tensorrt/engine.cc:316 | any bytes left after the last sub-model make deserialisation fail |
| CacheCodec.SerializedSize | lite/backends/nnadapter/nnadapter/src/driver/nvidia_tensorrt/engine.cc:264-274 | the size computed before writing equals the length of the serialised buffer |
| CacheCodec.Serialize | lite/backends/nnadapter/nnadapter/src/driver/nvidia_tensorrt/engine.cc:263-286 | the buffer starts with eight bytes that read back, little-endian, as the number of sub-models modulo 2^64 |
| CacheCodec.Deserialize | lite/backends/nnadapter/nnadapter/src/driver/nvidia_tensorrt/engine.cc:288-318 | a buffer shorter than the count is the truncation error; a success yields as many sub-models and caches as the leading count says; the only failures are truncation, an undecodable sub-graph and trailing bytes |
| TensorStore.ResolveInputs | lite/backends/nnadapter/nnadapter/src/driver/nvidia_tensorrt/engine.cc:213-221 | a sub-model's inputs resolve exactly when each negative index holds a fed input and each non-negative one a temporary; entry `j` is that tensor; otherwise a missing index is named |
| TensorStore.ResolveOutputs | lite/backends/nnadapter/nnadapter/src/driver/nvidia_tensorrt/engine.cc:223-236 | every output index ends up holding a tensor in the output map (negative) or the temporaries (non-negative); entry `j` is that tensor; nothing already held changes |
| TensorStore.ResolveOutputsKeys | lite/backends/nnadapter/nnadapter/src/driver/nvidia_tensorrt/engine.cc:223-236 | the output map gains exactly the listed negative indices and the temporaries exactly the listed non-negative ones |
| TensorStore.ResolveOutputsFresh | lite/backends/nnadapter/nnadapter/src/driver/nvidia_tensorrt/engine.cc:224-233 | every tensor allocated for an output is new |
| TensorStore.ResolveOutputsSettled | lite/backends/nnadapter/nnadapter/src/driver/nvidia_tensorrt/engine.cc:223-236 | when every output index already holds a tensor, the store is left unchanged |
| Engine.Clear | lite/backends/nnadapter/nnadapter/src/driver/nvidia_tensorrt/engine.cc:27-46 | every list and tensor map is emptied; the sub-graphs are released exactly when they came from a cache; the from-cache flag is not reset |
| Engine.BuildForgetsPriorProgram | lite/backends/nnadapter/nnadapter/src/driver/nvidia_tensorrt/engine.cc:48-54 | Build starts by clearing: two programs that agree on the from-cache flag and the next tensor handle build to the same result |
| Engine.EachOperationInOneBucket | lite/backends/nnadapter/nnadapter/src/driver/nvidia_tensorrt/engine.cc:99-117 | every operation lands in exactly one of the TensorRT, CUDA and host buckets |
| Engine.Classify | lite/backends/nnadapter/nnadapter/src/driver/nvidia_tensorrt/engine.cc:101-117 | an operation goes to CUDA exactly when its kind is on the CUDA list, to the host exactly when it is on the host list but not the CUDA list, and to TensorRT otherwise |
| Engine.BuildFromModel | lite/backends/nnadapter/nnadapter/src/driver/nvidia_tensorrt/engine.cc:92-122 | the partition of the classified operations is used, the build fails exactly when it is empty, and every sub-model starts with an empty cache |
| Engine.CachedSourceIgnoresModel | lite/backends/nnadapter/nnadapter/src/driver/nvidia_tensorrt/engine.cc:50-54 | with a non-empty cache buffer the sub-models come from the buffer alone: the model, the context, the types stored with the cache and every collaborator except the sub-graph decoder make no difference |
| Engine.BackendOf | lite/backends/nnadapter/nnadapter/src/driver/nvidia_tensorrt/engine.cc:58-74 | device id 0 is TensorRT, 1 is CUDA, 2 is host; every other id is the unsupported-device error |
| Engine.Backends | lite/backends/nnadapter/nnadapter/src/driver/nvidia_tensorrt/engine.cc:56-75 | dispatch succeeds exactly when every device id is 0, 1 or 2, and names an offending id otherwise |
| Engine.BuildSubProgram | lite/backends/nnadapter/nnadapter/src/driver/nvidia_tensorrt/engine.cc:56-79 | the sub-program has the sub-model's back-end and model; only a TensorRT build with an empty cache changes the sub-model's graph or fills its cache |
| Engine.BuildInOrderOk | lite/backends/nnadapter/nnadapter/src/driver/nvidia_tensorrt/engine.cc:77-79 | the build pass succeeds exactly when every sub-program builds |
| Engine.BuildInOrderEach | lite/backends/nnadapter/nnadapter/src/driver/nvidia_tensorrt/engine.cc:77-79 | after a successful pass, entry `i` is the result of building sub-program `i` |
| Engine.BuildSubPrograms | lite/backends/nnadapter/nnadapter/src/driver/nvidia_tensorrt/engine.cc:77-79 | the build pass over the driver's sub-program builder succeeds exactly when every sub-model builds on its own, and entry `i` is then what building sub-model `i` gives |
| Engine.BuildPassDispatches | lite/backends/nnadapter/nnadapter/src/driver/nvidia_tensorrt/engine.cc:56-79 | after a successful pass, each sub-program matches its sub-model's device id, and the sub-model differs from its source at most in the graph |
| Engine.Build | lite/backends/nnadapter/nnadapter/src/driver/nvidia_tensorrt/engine.cc:48-90 | a source failure or unsupported device id aborts; otherwise the build succeeds exactly when every sub-model builds, and sub-program `i` with its sub-model and cache is what building sub-model `i` of the source gives, dispatched by its device id; the buffer is written exactly when it came in empty; the boundary types are normalised from the model or the cache; the tensor store starts empty |
| Engine.RebuildSubPrograms | lite/backends/nnadapter/nnadapter/src/driver/nvidia_tensorrt/engine.cc:77-79 | rebuilding sub-programs from the sub-models and caches a first pass produced gives the same results |
| Engine.RebuildFromCache | lite/backends/nnadapter/nnadapter/src/driver/nvidia_tensorrt/engine.cc:48-90 | building again from the buffer a first build wrote gives the same sub-models, caches and sub-programs, whatever model is passed, and leaves the buffer unchanged |
| EngineExecute.FindArgument | lite/backends/nnadapter/nnadapter/src/driver/nvidia_tensorrt/engine.cc:194-195 | an argument is found exactly when one carries the index, and the one found carries it |
| EngineExecute.CheckFrom | lite/backends/nnadapter/nnadapter/src/driver/nvidia_tensorrt/engine.cc:136-166 | NO_ERROR exactly when every remaining input is present, declared and within its static extents or its min/max range; INVALID_DIMENSIONS names a refused input; an abort comes after only accepted inputs |
| EngineExecute.CheckInputsAndOutputs | lite/backends/nnadapter/nnadapter/src/driver/nvidia_tensorrt/engine.cc:131-168 | NO_ERROR exactly when every input argument is accepted; the only codes returned are NO_ERROR and INVALID_DIMENSIONS |
| EngineExecute.RangeIsInclusive | lite/backends/nnadapter/nnadapter/src/driver/nvidia_tensorrt/engine.cc:160-165 | both ends of the range are inclusive: for a triple whose min row does not exceed its max row, extents equal to the min row or to the max row are accepted, and extents that differ from the static ones with some extent one below the min or one above the max give INVALID_DIMENSIONS |
| EngineExecute.ArgumentsPresent | lite/backends/nnadapter/nnadapter/src/driver/nvidia_tensorrt/engine.cc:194-195 | passes exactly when every input index has an argument, and otherwise names a missing one |
| EngineExecute.FeedKeys | lite/backends/nnadapter/nnadapter/src/driver/nvidia_tensorrt/engine.cc:192-205 | after feeding, every model input has a tensor under `-(i+1)`, existing tensors are kept, new ones are fresh, and temporaries and outputs are untouched |
| EngineExecute.RunOne | lite/backends/nnadapter/nnadapter/src/driver/nvidia_tensorrt/engine.cc:208-237 | one sub-program call goes ahead exactly when its inputs are held; the store only grows and the fed inputs are unchanged |
| EngineExecute.RunSubPrograms | lite/backends/nnadapter/nnadapter/src/driver/nvidia_tensorrt/engine.cc:206-238 | running sub-programs in order only grows the store, makes one call per sub-program, and can only fail on a missing tensor |
| EngineExecute.RunAvailable | lite/backends/nnadapter/nnadapter/src/driver/nvidia_tensorrt/engine.cc:206-238 | running the first `n` sub-programs succeeds exactly when each sub-model's inputs are, at its turn, fed model inputs, temporaries held before the run, or temporaries an earlier sub-model outputs |
| EngineExecute.RunTemporaries | lite/backends/nnadapter/nnadapter/src/driver/nvidia_tensorrt/engine.cc:229-235 | after the first `n` sub-programs, the temporaries are exactly those held before plus the non-negative outputs of those sub-models |
| EngineExecute.RunResolved | lite/backends/nnadapter/nnadapter/src/driver/nvidia_tensorrt/engine.cc:210-237 | each call received exactly the tensors its sub-model's input and output indices name in the final store |
| EngineExecute.RunSettled | lite/backends/nnadapter/nnadapter/src/driver/nvidia_tensorrt/engine.cc:213-236 | when every index already holds a tensor, the run succeeds and allocates nothing |
| EngineExecute.Fetch | lite/backends/nnadapter/nnadapter/src/driver/nvidia_tensorrt/engine.cc:239-259 | outputs are read back exactly when each has an argument and a tensor under `-(i+1)`; output `i` is that tensor with its current shape; otherwise the first failing output is reported |
| EngineExecute.Execute | lite/backends/nnadapter/nnadapter/src/driver/nvidia_tensorrt/engine.cc:184-261 | a refused input returns its code with the store untouched; once every input is accepted, the run succeeds exactly when every input has an argument, every sub-model's inputs are available at its turn, and every output then has an argument and a tensor; input `i` is fed under `-(i+1)` with its argument's extents, every sub-program is called with exactly the tensors its indices name, and output `i` is read from `-(i+1)` with the extents that tensor ends with |
| EngineExecute.ExecuteAgainReusesTensors | lite/backends/nnadapter/nnadapter/src/driver/nvidia_tensorrt/engine.cc:184-261 | executing again from the store a successful run left allocates nothing and repeats the run exactly |

## Left out

- The TensorRT SDK is not modelled. This covers the network converter, builder, runtime, execution context and engine binding table. They are the fields of `TensorrtProgram.Sdk` (`optimize`, `normalize`, `buildPlan`, `loadEngine`, `dlaCores`), and a converter failure is folded into `buildPlan` returning nothing. The extents the execution context reports after a run, and whether all input extents are specified, are the `bindingDims` and `allSpecified` parameters of `TensorrtProgram.Execute`.
- The yolo_box plugin library and the int8 calibrator's file reading are absent; the model only records the calibrator's arguments.
- `PartitionModelIntoSubmodels` and `SortOperationsInTopologicalOrder` are functions in `Engine.Platform` / parameters; their own algorithms are outside the driver core.
- `SerializeModel` and `DeserializeModel` (the sub-graph codec) are parameters; the cache round trip assumes the codec decodes what it encodes (`ModelCodecSound`).
- Kernel bodies are not modelled: whether a kernel succeeds is a `runs` predicate, and CUDA memory copies and `cudaDeviceSynchronize` are recorded only as trace events.
- `GetKeyValues` and the environment fallback are replaced by a `Properties` record holding each key's value after the lookup. The device id is already an integer (the result of `atoi` or `GetIntFromEnv`), and GPU fallback is already a boolean: the `== "1"` test on a property and the environment default `true` (program.cc:95-97) are not modelled.
- TrtContext.NewContext: an empty device type or precision string keeps GPU and float32. The member defaults live in program.h, which is not part of this model; GPU and float32 are assumed.
- TensorrtProgram.WithDynamicShape: `IsOperandWithDynamicShape` (program.cc:277) is not part of this model; it is taken to mean that some extent of the operand is `NNADAPTER_UNKNOWN` (-1), as `Types.HasDynamicShape` states.
- TensorrtProgram.BuildFromModel: only the branch for TensorRT 8 and later (program.cc:306-311) is modelled, where the builder produces a serialised plan and the runtime loads it. The older branch (program.cc:312-317) builds the engine directly and serialises it into the plan; it is not modelled.
- OpenvinoUtility.ConvertToOVElementType: takes the closed `Precision` enum, so only UINT16 reaches `default:`; an integer outside the named precisions is covered by `ConvertCodeToOVElementType`.
- The string_split helper is modelled as a plain split at every comma.
- `ConvertDynamicDimensions` is a supplied `normalize` function, not a modelled operation.
- Host/device copies of tensor data, the argument `access` callbacks and buffer lengths are not modelled; an argument carries the extents its `access` callback reports, and a fetched tensor's shape comes from the supplied `shapeOf`.
- FindArgumentByIndex (not part of this model) is taken to be the first argument whose index matches.
- EngineExecute.Execute: the model does not compose the sub-program runs (`TensorrtProgram.Execute`, `KernelProgram.Execute`) into the engine run, because the engine ignores their return codes at engine.cc:237; it records the calls with the tensors they receive. Two consequences follow. A fatal check inside a sub-program run (program.cc:348, 358, 413-414, 463-464) aborts the source's `Program::Execute`, while the model's engine run still returns NO_ERROR. And the output extents that engine.cc:244 reads are the ones the sub-program runs set (the `Resize` at program.cc:362-366); the model takes them from the free parameter `shapeOf` instead.
- Engine.Clear: the release of cached sub-graphs (`ClearModel`, `delete`) is only reported as the list of released models, because there is no heap here.
- CacheCodec.Serialize: counts and lengths are written modulo 2^64, as the `size_t` conversion does, but an overflow of the size computed at engine.cc:264-274 is not modelled (`SerializedSize` counts in unbounded integers); the round trip requires every length to fit in eight bytes (`Encodable`).
- EngineExecute.CheckInputsAndOutputs: the output arguments are not inspected, as in the source. A caller's input count larger than the declared inputs aborts, as the throwing `input_types_.at(i)` (engine.cc:143) does in the source.
- Undefined behaviour in the source is modelled as a clean abort. FindArgumentByIndex's result is dereferenced without a null check (engine.cc:138-140), which the model reports as `Fatal(MissingArgument)`. A binding index of -1 indexes the device-pointer array out of bounds (program.cc:342-345), which the model reports as `Fatal(BindingIndexOutOfRange)`.
- Calls into logging and `NNADAPTER_VLOG` output are dropped.
