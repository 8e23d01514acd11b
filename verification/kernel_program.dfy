/** `CudaProgram` and `HostProgram`: a sub-model run operation by operation
    through kernels picked from a static registry, over an operand-to-tensor
    map. The two differ only in their registry and in the device
    synchronisation the CUDA variant performs after every kernel. Kernel
    bodies are not modelled: a run is recorded as the sequence of kernel
    invocations and synchronisations it performs. */
module KernelProgram {
  import opened Status
  import opened Types

  datatype Backend = Cuda | Host

  /** A kernel object, known by the operation kind it was registered for. */
  datatype Kernel = Kernel(kind: OperationKind)

  /** One step of a run. */
  datatype Event = RunKernel(index: nat, operation: Operation) | Synchronize

  /** A built CUDA or host sub-program and its operand-to-tensor map. */
  datatype KernelState = KernelState(
    backend: Backend,
    model: Model,
    operations: seq<Operation>,
    kernels: seq<Kernel>,
    operandMap: map<nat, nat>)

  /** One kernel per operation, each registered for that operation's kind. */
  function Kernels(operations: seq<Operation>, registered: set<OperationKind>): (r: Result<seq<Kernel>>)
    ensures r.Ok? <==> forall i :: 0 <= i < |operations| ==> operations[i].kind in registered
    ensures r.Fatal? ==> r.fault == UnsupportedOperation
    ensures r.Ok? ==> |r.value| == |operations| &&
                      forall i :: 0 <= i < |operations| ==> r.value[i].kind == operations[i].kind
  {
    if |operations| == 0 then Ok([])
    else if operations[0].kind !in registered then Fatal(UnsupportedOperation)
    else
      var rest :- Kernels(operations[1..], registered);
      assert forall i :: 1 <= i < |operations| ==> operations[i] == operations[1..][i - 1];
      Ok([Kernel(operations[0].kind)] + rest)
  }

  /** CudaProgram::Build / HostProgram::Build: `sorted` is the model's
      operations in topological order; an operation whose kind has no
      registered kernel aborts. */
  function Build(backend: Backend, model: Model, sorted: seq<Operation>, registered: set<OperationKind>): (r: Result<KernelState>)
    ensures r.Ok? <==> forall i :: 0 <= i < |sorted| ==> sorted[i].kind in registered
    ensures r.Ok? ==> r.value.operations == sorted && r.value.model == model && r.value.backend == backend
    ensures r.Ok? ==> |r.value.kernels| == |sorted| &&
                      forall i :: 0 <= i < |sorted| ==> r.value.kernels[i].kind == sorted[i].kind
    ensures r.Ok? ==> r.value.operandMap == map[]
  {
    var kernels :- Kernels(sorted, registered);
    Ok(KernelState(backend, model, sorted, kernels, map[]))
  }

  /** Every tensor handle in the map was allocated below `next`. */
  predicate Below(m: map<nat, nat>, next: nat) {
    forall k :: k in m ==> m[k] < next
  }

  /** Gives each of the operands 0 .. n-1 a tensor, keeping the ones it has
      and allocating fresh handles, in operand order, for the rest. */
  function EnsureTensors(m: map<nat, nat>, n: nat, next: nat): (r: (map<nat, nat>, nat))
    requires Below(m, next)
    ensures Below(r.0, r.1) && r.1 >= next
    ensures forall k: nat :: k in r.0 <==> k in m || k < n
    ensures forall k :: k in m ==> r.0[k] == m[k]
    ensures forall k :: k in r.0 && k !in m ==> next <= r.0[k]
  {
    if n == 0 then (m, next)
    else
      var (m1, next1) := EnsureTensors(m, n - 1, next);
      if n - 1 in m1 then (m1, next1) else (m1[n - 1 := next1], next1 + 1)
  }

  /** No two operands that lacked a tensor share one afterwards. */
  lemma {:induction false} EnsureTensorsDistinct(m: map<nat, nat>, n: nat, next: nat)
    requires Below(m, next)
    ensures var r := EnsureTensors(m, n, next);
            forall a, b :: a in r.0 && b in r.0 && a !in m && b !in m && a != b ==> r.0[a] != r.0[b]
  {
    if n > 0 {
      EnsureTensorsDistinct(m, n - 1, next);
    }
  }

  /** Binds `keys[i]` to `vals[i]` in order, so a key listed twice keeps its
      last value. */
  function Override(m: map<nat, nat>, keys: seq<nat>, vals: seq<nat>): (r: map<nat, nat>)
    requires |keys| <= |vals|
    ensures forall k :: k in r <==> k in m || k in keys
    ensures forall k :: k in m && k !in keys ==> r[k] == m[k]
    ensures forall i :: 0 <= i < |keys| && keys[i] !in keys[i + 1..] ==> r[keys[i]] == vals[i]
    decreases |keys|
  {
    if |keys| == 0 then m
    else
      var rest := keys[1..];
      var r := Override(m[keys[0] := vals[0]], rest, vals[1..]);
      assert forall i :: 1 <= i < |keys| ==> keys[i] == rest[i - 1] && keys[i + 1..] == rest[i..];
      r
  }

  /** The events of running `kernels[from..]`, synchronising after each one
      when `sync` holds. */
  function Trace(operations: seq<Operation>, from: nat, count: nat, sync: bool): (t: seq<Event>)
    requires from + count <= |operations|
    ensures |t| == (if sync then 2 * count else count)
    ensures sync ==> forall i :: 0 <= i < count ==>
              t[2 * i] == RunKernel(from + i, operations[from + i]) && t[2 * i + 1] == Synchronize
    ensures !sync ==> forall i :: 0 <= i < count ==> t[i] == RunKernel(from + i, operations[from + i])
    decreases count
  {
    if count == 0 then []
    else
      var head := if sync then [RunKernel(from, operations[from]), Synchronize] else [RunKernel(from, operations[from])];
      var rest := Trace(operations, from + 1, count - 1, sync);
      var t := head + rest;
      assert sync ==> forall i :: 0 <= i < count ==>
        t[2 * i] == RunKernel(from + i, operations[from + i]) && t[2 * i + 1] == Synchronize by {
        if sync {
          forall i | 0 <= i < count
            ensures t[2 * i] == RunKernel(from + i, operations[from + i]) && t[2 * i + 1] == Synchronize
          {
            if i > 0 {
              assert t[2 * i] == rest[2 * (i - 1)];
              assert t[2 * i + 1] == rest[2 * (i - 1) + 1];
            }
          }
        }
      }
      assert !sync ==> forall i :: 0 <= i < count ==> t[i] == RunKernel(from + i, operations[from + i]) by {
        if !sync {
          forall i | 0 <= i < count
            ensures t[i] == RunKernel(from + i, operations[from + i])
          {
            if i > 0 {
              assert t[i] == rest[i - 1];
            }
          }
        }
      }
      t
  }

  /** Runs the kernels of `operations[from..]` in order; the first one to
      report an error aborts the run. */
  function RunAll(operations: seq<Operation>, from: nat, runs: Operation -> bool): (c: Check)
    requires from <= |operations|
    ensures c.Pass? <==> forall i :: from <= i < |operations| ==> runs(operations[i])
    ensures c.Fail? ==> c.fault.KernelFailed? && from <= c.fault.index < |operations| && !runs(operations[c.fault.index])
    ensures c.Fail? ==> forall i :: from <= i < c.fault.index ==> runs(operations[i])
    decreases |operations| - from
  {
    if from == |operations| then Pass
    else if !runs(operations[from]) then Fail(KernelFailed(from))
    else RunAll(operations, from + 1, runs)
  }

  /** A state `Build` produced and whose map only holds handles below `next`. */
  predicate Valid(s: KernelState, next: nat) {
    |s.kernels| == |s.operations| && Below(s.operandMap, next)
  }

  /** The result of a run: the new operand map, the next free handle and the
      events performed. */
  datatype KernelRun = KernelRun(operandMap: map<nat, nat>, next: nat, trace: seq<Event>)

  /** The operand map of a run: every operand gets a tensor (existing ones
      are kept, missing ones are allocated from `next`), then the input
      operands and, after them, the output operands are bound to the
      caller's tensors. */
  function BindOperands(s: KernelState, inputs: seq<nat>, outputs: seq<nat>, next: nat): (r: (map<nat, nat>, nat))
    requires Valid(s, next)
    requires |inputs| >= |s.model.inputOperands| && |outputs| >= |s.model.outputOperands|
    ensures r.1 >= next
    ensures forall j :: 0 <= j < |s.model.operands| ==> j in r.0
    ensures forall j :: j in s.operandMap ==> j in r.0
    ensures forall j :: j in s.operandMap && j !in s.model.inputOperands && j !in s.model.outputOperands ==>
              r.0[j] == s.operandMap[j]
    ensures forall j :: (j in r.0 && j !in s.operandMap && j !in s.model.inputOperands && j !in s.model.outputOperands) ==>
              next <= r.0[j] < r.1
    ensures forall i :: (0 <= i < |s.model.outputOperands| && s.model.outputOperands[i] !in s.model.outputOperands[i + 1..]) ==>
              r.0[s.model.outputOperands[i]] == outputs[i]
    ensures forall i :: (0 <= i < |s.model.inputOperands| && s.model.inputOperands[i] !in s.model.inputOperands[i + 1..]
              && s.model.inputOperands[i] !in s.model.outputOperands) ==>
              r.0[s.model.inputOperands[i]] == inputs[i]
  {
    var (m1, next1) := EnsureTensors(s.operandMap, |s.model.operands|, next);
    var m2 := Override(m1, s.model.inputOperands, inputs);
    (Override(m2, s.model.outputOperands, outputs), next1)
  }

  /** CudaProgram::Execute / HostProgram::Execute. Every operand gets a
      tensor and the boundary operands are bound to the caller's tensors
      (`BindOperands`); then every kernel runs in sorted order, the CUDA
      variant synchronising after each. Too few caller tensors abort, and so
      does a kernel whose run reports an error (`runs` says, per operation,
      whether its kernel succeeds). */
  function Execute(s: KernelState, inputs: seq<nat>, outputs: seq<nat>, next: nat, runs: Operation -> bool): (r: Result<KernelRun>)
    requires Valid(s, next)
    ensures r.Ok? <==> (&& |inputs| >= |s.model.inputOperands| && |outputs| >= |s.model.outputOperands|
                        && forall i :: 0 <= i < |s.operations| ==> runs(s.operations[i]))
    ensures r.Fatal? && |inputs| >= |s.model.inputOperands| && |outputs| >= |s.model.outputOperands| ==>
              r.fault.KernelFailed? && r.fault.index < |s.operations| && !runs(s.operations[r.fault.index])
    ensures r.Ok? ==> (r.value.operandMap, r.value.next) == BindOperands(s, inputs, outputs, next)
    ensures r.Ok? && s.backend == Cuda ==> |r.value.trace| == 2 * |s.kernels|
    ensures r.Ok? && s.backend == Cuda ==> forall i :: 0 <= i < |s.kernels| ==>
              r.value.trace[2 * i] == RunKernel(i, s.operations[i]) && r.value.trace[2 * i + 1] == Synchronize
    ensures r.Ok? && s.backend == Host ==> |r.value.trace| == |s.kernels|
    ensures r.Ok? && s.backend == Host ==> forall i :: 0 <= i < |s.kernels| ==>
              r.value.trace[i] == RunKernel(i, s.operations[i])
  {
    var enough := |inputs| >= |s.model.inputOperands|;
    :- Need(enough, TypeIndexOutOfRange(|inputs|));
    :- Need(|outputs| >= |s.model.outputOperands|, TypeIndexOutOfRange(|outputs|));
    var (m, next1) := BindOperands(s, inputs, outputs, next);
    :- RunAll(s.operations, 0, runs);
    Ok(KernelRun(m, next1, Trace(s.operations, 0, |s.kernels|, s.backend == Cuda)))
  }
}
