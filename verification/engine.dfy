/** `Program`, the driver's top-level compiled unit: it partitions a model
    into sub-models, one per back-end (0 TensorRT, 1 CUDA kernels, 2 host
    kernels), builds one sub-program per sub-model, and saves or restores
    the whole unit through a cache buffer. This module covers its state,
    `Clear`, and `Build` with its two sources (`BuildFromModel`,
    `BuildFromCache`). */
module Engine {
  import opened Status
  import opened Types
  import opened TrtContext
  import TensorrtProgram
  import KernelProgram
  import CacheCodec
  import TensorStore

  /** `core::Cache`: the cache buffer and, next to it, the model's declared
      input and output types. */
  datatype Cache = Cache(buffer: seq<byte>, inputTypes: seq<OperandType>, outputTypes: seq<OperandType>)

  /** The collaborators `Program` calls but does not define. */
  datatype Platform = Platform(
    partition: (Model, seq<set<nat>>) -> seq<SubModel>,  // PartitionModelIntoSubmodels
    sortOperations: Model -> seq<Operation>,             // SortOperationsInTopologicalOrder
    cudaKernels: set<OperationKind>,                     // the CUDA kernel registry
    hostKernels: set<OperationKind>,                     // the host kernel registry
    encodeModel: Model -> seq<byte>,                     // SerializeModel
    decodeModel: seq<byte> -> Option<Model>,             // DeserializeModel
    sdk: TensorrtProgram.Sdk)

  /** A built sub-program. */
  datatype SubProgram =
    | TensorrtSub(trt: TensorrtProgram.TrtState)
    | KernelSub(kernel: KernelProgram.KernelState)

  /** The state of a `Program`. */
  datatype Program = Program(
    fromCache: bool,                   // is_sub_model_from_cache_
    subModels: seq<SubModel>,
    subCaches: seq<seq<byte>>,
    subPrograms: seq<SubProgram>,
    store: TensorStore.Store,          // input, temporary and output tensors
    inputTypes: seq<OperandType>,
    outputTypes: seq<OperandType>)

  predicate Valid(p: Program) {
    && |p.subCaches| == |p.subModels|
    && |p.subPrograms| == |p.subModels|
    && TensorStore.Valid(p.store)
  }

  /** The store with every tensor released; handles are never reused. */
  function EmptyStore(next: nat): (st: TensorStore.Store)
    ensures TensorStore.Valid(st) && st.next == next
  {
    TensorStore.Store(map[], map[], map[], next)
  }

  /** Program::Clear. Every container is emptied; the sub-graphs are freed,
      and returned here, only when they came from a cache, since only then
      does the program own them. The from-cache flag itself is left as it
      is. */
  function Clear(p: Program): (r: (Program, seq<Model>))
    ensures Valid(r.0)
    ensures r.0.subModels == [] && r.0.subCaches == [] && r.0.subPrograms == []
    ensures r.0.inputTypes == [] && r.0.outputTypes == []
    ensures r.0.store.inputs == map[] && r.0.store.temporaries == map[] && r.0.store.outputs == map[]
    ensures r.0.fromCache == p.fromCache
    ensures p.fromCache ==> |r.1| == |p.subModels| && forall i :: 0 <= i < |r.1| ==> r.1[i] == p.subModels[i].model
    ensures !p.fromCache ==> r.1 == []
  {
    var freed := if p.fromCache then seq(|p.subModels|, i requires 0 <= i < |p.subModels| => p.subModels[i].model) else [];
    (Program(p.fromCache, [], [], [], EmptyStore(p.store.next), [], []), freed)
  }

  // ------------------------------------------------------------ classification

  /** The back-end an operation is assigned to: the CUDA list is consulted
      first, then the host list, and everything else goes to TensorRT. */
  function Classify(kind: OperationKind, cuda: seq<OperationKind>, host: seq<OperationKind>): (b: nat)
    ensures b < 3
    ensures b == 1 <==> kind in cuda
    ensures b == 2 <==> kind !in cuda && kind in host
    ensures b == 0 <==> kind !in cuda && kind !in host
  {
    if kind in cuda then 1 else if kind in host then 2 else 0
  }

  /** `supported_operations`: the positions of the operations, in three
      buckets by back-end id. */
  function Buckets(ops: seq<Operation>, cuda: seq<OperationKind>, host: seq<OperationKind>): (r: seq<set<nat>>)
    ensures |r| == 3
    ensures forall b, i :: 0 <= b < 3 && i in r[b] ==> i < |ops|
    ensures forall i :: 0 <= i < |ops| ==> i in r[Classify(ops[i].kind, cuda, host)]
    ensures forall b, i :: 0 <= b < 3 && 0 <= i < |ops| && i in r[b] ==> b == Classify(ops[i].kind, cuda, host)
  {
    if |ops| == 0 then [{}, {}, {}]
    else
      var n := |ops| - 1;
      var prior := Buckets(ops[..n], cuda, host);
      var b := Classify(ops[n].kind, cuda, host);
      assert forall i :: 0 <= i < n ==> ops[..n][i] == ops[i];
      prior[b := prior[b] + {n}]
  }

  /** Every operation lands in exactly one bucket. */
  lemma {:induction false} EachOperationInOneBucket(ops: seq<Operation>, cuda: seq<OperationKind>, host: seq<OperationKind>, i: nat)
    requires i < |ops|
    ensures var r := Buckets(ops, cuda, host);
            (i in r[0] && i !in r[1] && i !in r[2])
            || (i !in r[0] && i in r[1] && i !in r[2])
            || (i !in r[0] && i !in r[1] && i in r[2])
  {
    var r := Buckets(ops, cuda, host);
    var b := Classify(ops[i].kind, cuda, host);
    assert i in r[b];
    assert forall c :: 0 <= c < 3 && i in r[c] ==> c == b;
  }

  // ------------------------------------------------------------ build sources

  /** Program::BuildFromModel, apart from the recorded types: classify,
      partition, insist on at least one sub-model, and give every sub-model
      an empty cache. */
  function BuildFromModel(model: Model, ctx: Context, pf: Platform): (r: Result<(seq<SubModel>, seq<seq<byte>>)>)
    ensures var subs := pf.partition(model, Buckets(model.operations, ctx.cudaOperations, ctx.hostOperations));
            && (r.Ok? <==> |subs| > 0)
            && (r.Fatal? ==> r.fault == EmptyPartition)
            && (r.Ok? ==> r.value.0 == subs)
    ensures r.Ok? ==> |r.value.1| == |r.value.0| && forall i :: 0 <= i < |r.value.1| ==> r.value.1[i] == []
  {
    var subs := pf.partition(model, Buckets(model.operations, ctx.cudaOperations, ctx.hostOperations));
    :- Need(|subs| > 0, EmptyPartition);
    Ok((subs, seq(|subs|, _ => [])))
  }

  /** Where a build takes its sub-models from: the partitioner when the cache
      buffer is empty, the buffer otherwise. */
  function SubModelSource(model: Model, cache: Cache, ctx: Context, pf: Platform): (r: Result<(seq<SubModel>, seq<seq<byte>>)>)
    ensures |cache.buffer| == 0 ==> r == BuildFromModel(model, ctx, pf)
    ensures |cache.buffer| > 0 ==> r == CacheCodec.Deserialize(cache.buffer, pf.decodeModel)
    ensures r.Ok? ==> |r.value.0| == |r.value.1|
  {
    if |cache.buffer| == 0 then BuildFromModel(model, ctx, pf)
    else CacheCodec.Deserialize(cache.buffer, pf.decodeModel)
  }

  /** A non-empty cache buffer decides the sub-models alone: the model, the
      context and every collaborator except the model decoder are ignored,
      and so are the types stored next to the buffer. */
  lemma CachedSourceIgnoresModel(model: Model, model': Model, cache: Cache, cache': Cache,
                                 ctx: Context, ctx': Context, pf: Platform, pf': Platform)
    requires |cache.buffer| > 0 && cache'.buffer == cache.buffer
    requires pf'.decodeModel == pf.decodeModel
    ensures SubModelSource(model, cache, ctx, pf) == SubModelSource(model', cache', ctx', pf')
  {
  }

  // ------------------------------------------------------------ sub-programs

  datatype BackendKind = TensorrtBackend | CudaBackend | HostBackend

  /** The sub-program class for a back-end id; any other id is fatal. */
  function BackendOf(id: int32): (r: Result<BackendKind>)
    ensures r.Ok? <==> id in {0, 1, 2}
    ensures r.Fatal? ==> r.fault == UnsupportedDeviceId(id)
    ensures r == Ok(TensorrtBackend) <==> id == 0
    ensures r == Ok(CudaBackend) <==> id == 1
    ensures r == Ok(HostBackend) <==> id == 2
  {
    if id == 0 then Ok(TensorrtBackend)
    else if id == 1 then Ok(CudaBackend)
    else if id == 2 then Ok(HostBackend)
    else Fatal(UnsupportedDeviceId(id))
  }

  /** The creation pass of `Build`: one sub-program class per sub-model, in
      order; the first unsupported id aborts before anything is built. */
  function Backends(subs: seq<SubModel>): (r: Result<seq<BackendKind>>)
    ensures r.Ok? <==> forall i :: 0 <= i < |subs| ==> subs[i].deviceId in {0, 1, 2}
    ensures r.Ok? ==> |r.value| == |subs| && forall i :: 0 <= i < |subs| ==> BackendOf(subs[i].deviceId) == Ok(r.value[i])
    ensures r.Fatal? ==> exists i :: 0 <= i < |subs| && subs[i].deviceId !in {0, 1, 2} && r.fault == UnsupportedDeviceId(subs[i].deviceId)
  {
    if |subs| == 0 then Ok([])
    else
      var first :- BackendOf(subs[0].deviceId);
      var rest :- Backends(subs[1..]);
      assert forall i :: 1 <= i < |subs| ==> subs[i] == subs[1..][i - 1];
      Ok([first] + rest)
  }

  /** The sub-program at a position has the class its sub-model's id names. */
  predicate Dispatched(sp: SubProgram, id: int32) {
    match sp
    case TensorrtSub(_) => id == 0
    case KernelSub(k) => (id == 1 && k.backend == KernelProgram.Cuda) || (id == 2 && k.backend == KernelProgram.Host)
  }

  /** Builds one sub-program. A TensorRT build may replace the sub-graph by
      its optimised form and fill the sub-model's cache; the kernel
      back-ends sort the sub-graph and pick kernels from their registry. */
  function BuildSubProgram(kind: BackendKind, sm: SubModel, cache: seq<byte>, ctx: Context, pf: Platform): (r: Result<(SubModel, seq<byte>, SubProgram)>)
    ensures r.Ok? ==> r.value.0 == sm.(model := r.value.0.model)
    ensures r.Ok? ==> (kind == TensorrtBackend <==> r.value.2.TensorrtSub?)
    ensures r.Ok? && kind != TensorrtBackend ==> r.value.0 == sm && r.value.1 == cache
    ensures r.Ok? && kind != TensorrtBackend ==> r.value.2.kernel.backend == (if kind == CudaBackend then KernelProgram.Cuda else KernelProgram.Host)
    ensures r.Ok? && r.value.2.TensorrtSub? ==> r.value.2.trt.model == r.value.0.model
    ensures r.Ok? && r.value.2.KernelSub? ==> r.value.2.kernel.model == r.value.0.model
    ensures r.Ok? && |cache| > 0 ==> r.value.0 == sm && r.value.1 == cache
    ensures r.Ok? && BackendOf(sm.deviceId) == Ok(kind) ==> Dispatched(r.value.2, sm.deviceId)
  {
    match kind
    case TensorrtBackend =>
      var (st, newCache) :- TensorrtProgram.Build(sm.model, cache, ctx, pf.sdk);
      Ok((sm.(model := st.model), newCache, TensorrtSub(st)))
    case CudaBackend =>
      var k :- KernelProgram.Build(KernelProgram.Cuda, sm.model, pf.sortOperations(sm.model), pf.cudaKernels);
      Ok((sm, cache, KernelSub(k)))
    case HostBackend =>
      var k :- KernelProgram.Build(KernelProgram.Host, sm.model, pf.sortOperations(sm.model), pf.hostKernels);
      Ok((sm, cache, KernelSub(k)))
  }

  /** What building one sub-program gives. */
  type Built = Result<(SubModel, seq<byte>, SubProgram)>

  /** The build pass of `Build`: `build` applied to every sub-model in order;
      the first failing build aborts. */
  function BuildInOrder(kinds: seq<BackendKind>, subs: seq<SubModel>, caches: seq<seq<byte>>,
                        build: (BackendKind, SubModel, seq<byte>) -> Built)
    : (r: Result<(seq<SubModel>, seq<seq<byte>>, seq<SubProgram>)>)
    requires |kinds| == |subs| == |caches|
    ensures r.Ok? ==> |r.value.0| == |r.value.1| == |r.value.2| == |subs|
  {
    if |subs| == 0 then Ok(([], [], []))
    else
      var n := |subs| - 1;
      var prefix :- BuildInOrder(kinds[..n], subs[..n], caches[..n], build);
      var last :- build(kinds[n], subs[n], caches[n]);
      Ok((prefix.0 + [last.0], prefix.1 + [last.1], prefix.2 + [last.2]))
  }

  /** The build pass succeeds exactly when every sub-program builds. */
  lemma {:induction false} BuildInOrderOk(kinds: seq<BackendKind>, subs: seq<SubModel>, caches: seq<seq<byte>>,
                                          build: (BackendKind, SubModel, seq<byte>) -> Built)
    requires |kinds| == |subs| == |caches|
    ensures BuildInOrder(kinds, subs, caches, build).Ok? <==>
            forall i :: 0 <= i < |subs| ==> build(kinds[i], subs[i], caches[i]).Ok?
    decreases |subs|
  {
    if |subs| > 0 {
      var n := |subs| - 1;
      BuildInOrderOk(kinds[..n], subs[..n], caches[..n], build);
      assert forall i :: 0 <= i < n ==> kinds[..n][i] == kinds[i] && subs[..n][i] == subs[i] && caches[..n][i] == caches[i];
    }
  }

  /** Position `i` of a successful build pass holds what building sub-model
      `i` on its own gives. */
  lemma {:induction false} BuildInOrderEach(kinds: seq<BackendKind>, subs: seq<SubModel>, caches: seq<seq<byte>>,
                                            build: (BackendKind, SubModel, seq<byte>) -> Built)
    requires |kinds| == |subs| == |caches|
    ensures var r := BuildInOrder(kinds, subs, caches, build);
            r.Ok? ==> forall i :: 0 <= i < |subs| ==>
              build(kinds[i], subs[i], caches[i]) == Ok((r.value.0[i], r.value.1[i], r.value.2[i]))
    decreases |subs|
  {
    if |subs| > 0 {
      var n := |subs| - 1;
      BuildInOrderEach(kinds[..n], subs[..n], caches[..n], build);
      assert forall i :: 0 <= i < n ==> kinds[..n][i] == kinds[i] && subs[..n][i] == subs[i] && caches[..n][i] == caches[i];
    }
  }

  /** Every sub-model builds on its own with its back-end and cache. */
  predicate AllBuild(kinds: seq<BackendKind>, subs: seq<SubModel>, caches: seq<seq<byte>>, ctx: Context, pf: Platform) {
    && |kinds| == |subs| == |caches|
    && forall i :: 0 <= i < |subs| ==> BuildSubProgram(kinds[i], subs[i], caches[i], ctx, pf).Ok?
  }

  /** Entry `i` of the built sub-models, caches and sub-programs is what
      building sub-model `i` on its own gives: one sub-program per
      sub-model, in the same order. */
  predicate BuiltEach(kinds: seq<BackendKind>, subs: seq<SubModel>, caches: seq<seq<byte>>, ctx: Context, pf: Platform,
                      subs': seq<SubModel>, caches': seq<seq<byte>>, programs: seq<SubProgram>) {
    && |kinds| == |subs| == |caches| == |subs'| == |caches'| == |programs|
    && forall i :: 0 <= i < |subs| ==>
         BuildSubProgram(kinds[i], subs[i], caches[i], ctx, pf) == Ok((subs'[i], caches'[i], programs[i]))
  }

  /** The build pass over the driver's own sub-program builder. */
  function BuildSubPrograms(kinds: seq<BackendKind>, subs: seq<SubModel>, caches: seq<seq<byte>>, ctx: Context, pf: Platform)
    : (r: Result<(seq<SubModel>, seq<seq<byte>>, seq<SubProgram>)>)
    requires |kinds| == |subs| == |caches|
    ensures r.Ok? <==> AllBuild(kinds, subs, caches, ctx, pf)
    ensures r.Ok? ==> BuiltEach(kinds, subs, caches, ctx, pf, r.value.0, r.value.1, r.value.2)
  {
    var build := (k, sm, c) => BuildSubProgram(k, sm, c, ctx, pf);
    BuildInOrderOk(kinds, subs, caches, build);
    BuildInOrderEach(kinds, subs, caches, build);
    BuildInOrder(kinds, subs, caches, build)
  }

  /** Every sub-program the build pass creates has the class its
      sub-model's back-end id names, and every sub-model keeps all but its
      sub-graph. */
  lemma BuildPassDispatches(subs: seq<SubModel>, caches: seq<seq<byte>>, ctx: Context, pf: Platform)
    requires |subs| == |caches| && Backends(subs).Ok?
    ensures var r := BuildSubPrograms(Backends(subs).value, subs, caches, ctx, pf);
            r.Ok? ==> forall i :: 0 <= i < |subs| ==>
              Dispatched(r.value.2[i], r.value.0[i].deviceId) && r.value.0[i] == subs[i].(model := r.value.0[i].model)
  {
    var kinds := Backends(subs).value;
    var r := BuildSubPrograms(kinds, subs, caches, ctx, pf);
    if r.Ok? {
      BuildInOrderEach(kinds, subs, caches, (k, sm, c) => BuildSubProgram(k, sm, c, ctx, pf));
      forall i | 0 <= i < |subs|
        ensures Dispatched(r.value.2[i], r.value.0[i].deviceId) && r.value.0[i] == subs[i].(model := r.value.0[i].model)
      {
        DispatchedAt(kinds[i], subs[i], caches[i], ctx, pf, (r.value.0[i], r.value.1[i], r.value.2[i]));
      }
    }
  }

  lemma DispatchedAt(kind: BackendKind, sm: SubModel, cache: seq<byte>, ctx: Context, pf: Platform, b: (SubModel, seq<byte>, SubProgram))
    requires BuildSubProgram(kind, sm, cache, ctx, pf) == Ok(b) && BackendOf(sm.deviceId) == Ok(kind)
    ensures Dispatched(b.2, b.0.deviceId) && b.0 == sm.(model := b.0.model)
  {
  }

  /** Program::Build. Clear; take the sub-models from the partitioner (empty
      cache buffer) or from the buffer (otherwise); create one sub-program
      per sub-model by back-end id, then build them in order; write the
      buffer only if it came in empty; and record the normalised boundary
      types, from the model or from the cache. */
  function Build(p: Program, model: Model, cache: Cache, ctx: Context, pf: Platform): (r: Result<(Program, Cache)>)
    ensures SubModelSource(model, cache, ctx, pf).Fatal? ==> r == Fatal(SubModelSource(model, cache, ctx, pf).fault)
    ensures SubModelSource(model, cache, ctx, pf).Ok? && Backends(SubModelSource(model, cache, ctx, pf).value.0).Fatal? ==>
              r.Fatal? && r.fault.UnsupportedDeviceId?
    ensures var src := SubModelSource(model, cache, ctx, pf);
            src.Ok? && Backends(src.value.0).Ok? ==>
              (r.Ok? <==> AllBuild(Backends(src.value.0).value, src.value.0, src.value.1, ctx, pf))
    ensures r.Ok? ==> Valid(r.value.0)
    ensures r.Ok? ==> SubModelSource(model, cache, ctx, pf).Ok?
    ensures r.Ok? ==> var src := SubModelSource(model, cache, ctx, pf).value;
              && Backends(src.0).Ok?
              && BuiltEach(Backends(src.0).value, src.0, src.1, ctx, pf,
                           r.value.0.subModels, r.value.0.subCaches, r.value.0.subPrograms)
    ensures r.Ok? ==> var source := SubModelSource(model, cache, ctx, pf).value.0;
              && |r.value.0.subModels| == |source|
              && forall i :: 0 <= i < |source| ==> r.value.0.subModels[i] == source[i].(model := r.value.0.subModels[i].model)
    ensures r.Ok? ==> forall i :: 0 <= i < |r.value.0.subPrograms| ==>
              Dispatched(r.value.0.subPrograms[i], r.value.0.subModels[i].deviceId)
    ensures r.Ok? && |cache.buffer| > 0 ==> r.value.1 == cache
    ensures r.Ok? && |cache.buffer| == 0 ==>
              r.value.1 == cache.(buffer := CacheCodec.Serialize(r.value.0.subModels, r.value.0.subCaches, pf.encodeModel))
    ensures r.Ok? ==> r.value.0.fromCache == (p.fromCache || |cache.buffer| > 0)
    ensures r.Ok? ==> (r.value.0.inputTypes ==
              TensorrtProgram.NormalizeAll(if |cache.buffer| == 0 then model.InputTypes() else cache.inputTypes, pf.sdk.normalize))
    ensures r.Ok? ==> (r.value.0.outputTypes ==
              TensorrtProgram.NormalizeAll(if |cache.buffer| == 0 then model.OutputTypes() else cache.outputTypes, pf.sdk.normalize))
    ensures r.Ok? ==> r.value.0.store == EmptyStore(p.store.next)
  {
    var cleared := Clear(p).0;
    var fromCache := cleared.fromCache || |cache.buffer| > 0;
    var (subs, caches) :- SubModelSource(model, cache, ctx, pf);
    var inputTypes := if |cache.buffer| == 0 then model.InputTypes() else cache.inputTypes;
    var outputTypes := if |cache.buffer| == 0 then model.OutputTypes() else cache.outputTypes;
    var kinds :- Backends(subs);
    BuildPassDispatches(subs, caches, ctx, pf);
    var (subs', caches', programs) :- BuildSubPrograms(kinds, subs, caches, ctx, pf);
    var buffer := if |cache.buffer| == 0 then CacheCodec.Serialize(subs', caches', pf.encodeModel) else cache.buffer;
    Ok((Program(fromCache, subs', caches', programs, cleared.store,
                TensorrtProgram.NormalizeAll(inputTypes, pf.sdk.normalize),
                TensorrtProgram.NormalizeAll(outputTypes, pf.sdk.normalize)),
        cache.(buffer := buffer)))
  }

  /** Build starts from a cleared program: of the program it replaces, only
      the from-cache flag and the next free tensor handle survive. */
  lemma BuildForgetsPriorProgram(p: Program, q: Program, model: Model, cache: Cache, ctx: Context, pf: Platform)
    requires q.fromCache == p.fromCache && q.store.next == p.store.next
    ensures Build(p, model, cache, ctx, pf) == Build(q, model, cache, ctx, pf)
  {
    assert Clear(p).0 == Clear(q).0;
  }

  // ------------------------------------------------------------ cache fidelity

  /** Building a sub-program again from the sub-model and cache its first
      build left behind gives the same sub-program and changes neither,
      provided a TensorRT build left a non-empty plan. */
  lemma RebuildSubProgram(kind: BackendKind, sm: SubModel, cache: seq<byte>, ctx: Context, pf: Platform)
    requires BuildSubProgram(kind, sm, cache, ctx, pf).Ok?
    requires kind == TensorrtBackend ==> |BuildSubProgram(kind, sm, cache, ctx, pf).value.1| > 0
    ensures var first := BuildSubProgram(kind, sm, cache, ctx, pf).value;
            BuildSubProgram(kind, first.0, first.1, ctx, pf) == Ok(first)
  {
    var first := BuildSubProgram(kind, sm, cache, ctx, pf).value;
    if kind == TensorrtBackend {
      var st := first.2.trt;
      var again := TensorrtProgram.Build(first.0.model, first.1, ctx, pf.sdk);
      assert TensorrtProgram.Build(sm.model, cache, ctx, pf.sdk) == Ok((st, first.1));
      assert again.Ok?;
      assert again.value.0 == st;
    }
  }

  lemma {:induction false} RebuildSubPrograms(kinds: seq<BackendKind>, subs: seq<SubModel>, caches: seq<seq<byte>>, ctx: Context, pf: Platform)
    requires |kinds| == |subs| == |caches|
    requires BuildSubPrograms(kinds, subs, caches, ctx, pf).Ok?
    requires var first := BuildSubPrograms(kinds, subs, caches, ctx, pf).value;
             forall i :: 0 <= i < |subs| && kinds[i] == TensorrtBackend ==> |first.1[i]| > 0
    ensures var first := BuildSubPrograms(kinds, subs, caches, ctx, pf).value;
            BuildSubPrograms(kinds, first.0, first.1, ctx, pf) == Ok(first)
    decreases |subs|
  {
    var first := BuildSubPrograms(kinds, subs, caches, ctx, pf).value;
    BuildInOrderEach(kinds, subs, caches, (k, sm, c) => BuildSubProgram(k, sm, c, ctx, pf));
    forall i | 0 <= i < |subs|
      ensures BuildSubProgram(kinds[i], first.0[i], first.1[i], ctx, pf) == Ok((first.0[i], first.1[i], first.2[i]))
    {
      RebuildSubProgram(kinds[i], subs[i], caches[i], ctx, pf);
    }
    var again := BuildSubPrograms(kinds, first.0, first.1, ctx, pf);
    BuildInOrderOk(kinds, first.0, first.1, (k, sm, c) => BuildSubProgram(k, sm, c, ctx, pf));
    BuildInOrderEach(kinds, first.0, first.1, (k, sm, c) => BuildSubProgram(k, sm, c, ctx, pf));
    assert again.Ok?;
    assert again.value.0 == first.0;
    assert again.value.1 == first.1;
    assert again.value.2 == first.2;
  }

  /** A program rebuilt from the cache buffer its first build wrote has the
      same sub-models, sub-model caches and sub-programs, without running
      the partitioner or the TensorRT builder again, and leaves the buffer
      as it is. It needs a sub-graph codec that decodes what it encodes,
      lengths that fit a `size_t`, and a non-empty plan from every TensorRT
      build. */
  lemma RebuildFromCache(p: Program, model: Model, cache: Cache, ctx: Context, pf: Platform, q: Program, other: Model)
    requires |cache.buffer| == 0
    requires Build(p, model, cache, ctx, pf).Ok?
    requires var p1 := Build(p, model, cache, ctx, pf).value.0;
             && CacheCodec.Encodable(p1.subModels, p1.subCaches, pf.encodeModel)
             && CacheCodec.ModelCodecSound(p1.subModels, pf.encodeModel, pf.decodeModel)
             && forall i :: 0 <= i < |p1.subModels| && p1.subModels[i].deviceId == 0 ==> |p1.subCaches[i]| > 0
    ensures var (p1, c1) := Build(p, model, cache, ctx, pf).value;
            var r := Build(q, other, c1, ctx, pf);
            && r.Ok?
            && r.value.0.subModels == p1.subModels
            && r.value.0.subCaches == p1.subCaches
            && r.value.0.subPrograms == p1.subPrograms
            && r.value.1 == c1
  {
    var (p1, c1) := Build(p, model, cache, ctx, pf).value;
    var (subs, caches) := SubModelSource(model, cache, ctx, pf).value;
    var kinds := Backends(subs).value;
    assert BuildSubPrograms(kinds, subs, caches, ctx, pf) == Ok((p1.subModels, p1.subCaches, p1.subPrograms));
    CacheCodec.CacheRoundTrip(p1.subModels, p1.subCaches, pf.encodeModel, pf.decodeModel);
    assert |c1.buffer| >= 8;
    assert SubModelSource(other, c1, ctx, pf) == Ok((p1.subModels, p1.subCaches));
    assert Backends(p1.subModels) == Ok(kinds) by {
      var again := Backends(p1.subModels);
      assert forall i :: 0 <= i < |subs| ==> p1.subModels[i].deviceId == subs[i].deviceId;
      assert again.Ok?;
      assert again.value == kinds;
    }
    forall i | 0 <= i < |subs| && kinds[i] == TensorrtBackend
      ensures |p1.subCaches[i]| > 0
    {
      assert p1.subModels[i].deviceId == subs[i].deviceId == 0;
    }
    RebuildSubPrograms(kinds, subs, caches, ctx, pf);
  }
}
