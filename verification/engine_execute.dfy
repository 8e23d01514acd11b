/** `Program::CheckInputsAndOutputs` and `Program::Execute`: the shape gate
    on the caller's inputs, then feeding the inputs, running the
    sub-programs in partition order over the signed-index tensor store, and
    fetching the outputs. A sub-program's own run is modelled in its own
    module; here a run records, per sub-program, the tensors it was handed.
    The extents a tensor ends with after the sub-programs ran are a
    parameter (`shapeOf`). */
module EngineExecute {
  import opened Status
  import opened Types
  import opened TensorStore
  import Engine
  import TensorrtProgram

  /** A `core::Argument` as the driver sees it: the index the caller gave it
      and the extents its `access` callback reports. */
  datatype Argument = Argument(index: nat, dims: seq<int32>)

  /** FindArgumentByIndex: the first argument that carries index `i`. */
  function FindArgument(args: seq<Argument>, i: nat): (r: Option<Argument>)
    ensures r.Some? <==> exists k :: 0 <= k < |args| && args[k].index == i
    ensures r.Some? ==> r.value.index == i && r.value in args
  {
    if |args| == 0 then None
    else if args[0].index == i then Some(args[0])
    else
      var r := FindArgument(args[1..], i);
      assert forall k :: 1 <= k < |args| ==> args[k] == args[1..][k - 1];
      r
  }

  // ------------------------------------------------------------ shape gate

  /** The extents of an actual input are acceptable for its declared type:
      same rank, and either the very extents declared or, for a type with a
      dynamic triple, each extent within the inclusive [min, max] range. */
  predicate Admissible(declared: OperandType, dims: seq<int32>) {
    var d := declared.dimensions;
    && |dims| == d.Count()
    && (dims == d.data
        || (d.DynamicCount() == 3 && forall j :: 0 <= j < |dims| ==> d.Row(1)[j] <= dims[j] <= d.Row(2)[j]))
  }

  /** Input `k` is present, declared, and admissible. */
  predicate Accepted(types: seq<OperandType>, args: seq<Argument>, k: nat) {
    && FindArgument(args, k).Some?
    && k < |types|
    && Admissible(types[k], FindArgument(args, k).value.dims)
  }

  /** Input `k` is present and declared but its extents are refused: a rank
      mismatch, or extents that differ from the declared ones and fall
      outside the dynamic range. */
  predicate Refused(types: seq<OperandType>, args: seq<Argument>, k: nat) {
    && FindArgument(args, k).Some?
    && k < |types|
    && var d := types[k].dimensions;
       var dims := FindArgument(args, k).value.dims;
       || |dims| != d.Count()
       || (dims != d.data && d.DynamicCount() == 3 && !Admissible(types[k], dims))
  }

  /** CheckInputsAndOutputs over inputs `i` onward. A missing argument or an
      argument beyond the declared inputs aborts, and so does a mismatch
      against a type without a full dynamic triple; a refused input returns
      `InvalidDimensions`. */
  function CheckFrom(types: seq<OperandType>, args: seq<Argument>, i: nat): (r: Result<ReturnCode>)
    requires i <= |args|
    ensures r == Ok(NoError) <==> forall k :: i <= k < |args| ==> Accepted(types, args, k)
    ensures r.Ok? ==> r.value in {NoError, InvalidDimensions}
    ensures r == Ok(InvalidDimensions) ==>
              exists k :: i <= k < |args| && Refused(types, args, k) && forall j :: i <= j < k ==> Accepted(types, args, j)
    ensures r.Fatal? ==> exists k :: (&& i <= k < |args| && (forall j :: i <= j < k ==> Accepted(types, args, j))
                                      && Aborts(types, args, k, r.fault))
    decreases |args| - i
  {
    if i == |args| then Ok(NoError)
    else
      var found := FindArgument(args, i);
      if found.None? then
        assert !Accepted(types, args, i) && Aborts(types, args, i, MissingArgument(i));
        Fatal(MissingArgument(i))
      else if i >= |types| then
        assert !Accepted(types, args, i) && Aborts(types, args, i, TypeIndexOutOfRange(i));
        Fatal(TypeIndexOutOfRange(i))
      else
        var dims := found.value.dims;
        var d := types[i].dimensions;
        if |dims| != d.Count() then
          assert Refused(types, args, i) && !Accepted(types, args, i);
          Ok(InvalidDimensions)
        else if dims == d.data then CheckFrom(types, args, i + 1)
        else if d.DynamicCount() != 3 then
          assert Aborts(types, args, i, DynamicCountNotThree(d.DynamicCount())) && !Accepted(types, args, i);
          Fatal(DynamicCountNotThree(d.DynamicCount()))
        else if exists j :: 0 <= j < |dims| && (dims[j] < d.Row(1)[j] || dims[j] > d.Row(2)[j]) then
          assert Refused(types, args, i) && !Accepted(types, args, i);
          Ok(InvalidDimensions)
        else
          assert Accepted(types, args, i);
          CheckFrom(types, args, i + 1)
  }

  /** Input `k` aborts the check with `fault`: its argument is missing, it is
      beyond the declared inputs, or it differs from a type without a full
      dynamic triple. */
  predicate Aborts(types: seq<OperandType>, args: seq<Argument>, k: nat, fault: Fault) {
    || (FindArgument(args, k).None? && fault == MissingArgument(k))
    || (FindArgument(args, k).Some? && k >= |types| && fault == TypeIndexOutOfRange(k))
    || (&& FindArgument(args, k).Some? && k < |types|
        && var d := types[k].dimensions;
           var dims := FindArgument(args, k).value.dims;
           && |dims| == d.Count() && dims != d.data && d.DynamicCount() != 3
           && fault == DynamicCountNotThree(d.DynamicCount()))
  }

  /** Program::CheckInputsAndOutputs. Only the inputs are inspected. */
  function CheckInputsAndOutputs(types: seq<OperandType>, args: seq<Argument>): (r: Result<ReturnCode>)
    ensures r == Ok(NoError) <==> forall k :: 0 <= k < |args| ==> Accepted(types, args, k)
    ensures r.Ok? ==> r.value in {NoError, InvalidDimensions}
  {
    CheckFrom(types, args, 0)
  }

  /** The range check is inclusive at both ends: for a well-ordered
      dynamic triple, a single input at its min or at its max extents
      passes, and one whose extents are not the declared ones and have an
      extent just below min or just above max is refused. */
  lemma {:induction false} RangeIsInclusive(t: OperandType, dims: seq<int32>)
    requires t.dimensions.DynamicCount() == 3
    requires forall j :: 0 <= j < t.dimensions.Count() ==> t.dimensions.Row(1)[j] <= t.dimensions.Row(2)[j]
    ensures CheckInputsAndOutputs([t], [Argument(0, t.dimensions.Row(1))]) == Ok(NoError)
    ensures CheckInputsAndOutputs([t], [Argument(0, t.dimensions.Row(2))]) == Ok(NoError)
    ensures (&& |dims| == t.dimensions.Count() && dims != t.dimensions.data
             && exists j :: 0 <= j < |dims| && dims[j] as int == t.dimensions.Row(1)[j] as int - 1) ==>
            CheckInputsAndOutputs([t], [Argument(0, dims)]) == Ok(InvalidDimensions)
    ensures (&& |dims| == t.dimensions.Count() && dims != t.dimensions.data
             && exists j :: 0 <= j < |dims| && dims[j] as int == t.dimensions.Row(2)[j] as int + 1) ==>
            CheckInputsAndOutputs([t], [Argument(0, dims)]) == Ok(InvalidDimensions)
  {
    var d := t.dimensions;
    var args := [Argument(0, d.Row(1))];
    assert FindArgument(args, 0) == Some(args[0]);
    assert Accepted([t], args, 0);
    var args2 := [Argument(0, d.Row(2))];
    assert FindArgument(args2, 0) == Some(args2[0]);
    assert Accepted([t], args2, 0);
    var args3 := [Argument(0, dims)];
    assert FindArgument(args3, 0) == Some(args3[0]);
  }

  /** The extents `SetMaxDims` sizes a tensor to are themselves admissible
      for its type when its min row does not exceed its max row, and they
      bound from above every admissible extent outside the declared ones. */
  lemma MaxShapeBoundsAdmissible(t: OperandType, dims: seq<int32>)
    requires t.dimensions.DynamicCount() in {0, 3}
    requires t.dimensions.DynamicCount() == 3 ==>
               forall j :: 0 <= j < t.dimensions.Count() ==> t.dimensions.Row(1)[j] <= t.dimensions.Row(2)[j]
    ensures TensorrtProgram.SetMaxDims(t).Ok? && Admissible(t, TensorrtProgram.SetMaxDims(t).value)
    ensures Admissible(t, dims) && dims != t.dimensions.data ==>
              forall j :: 0 <= j < |dims| ==> dims[j] <= TensorrtProgram.SetMaxDims(t).value[j]
  {
  }

  // ------------------------------------------------------------ execution

  /** Input `k` gets the tensor under `Key(k)` in the input map, reusing the
      one already there or allocating one. */
  function FeedOne(st: Store, k: nat): (r: Store)
    requires Valid(st)
    ensures Valid(r) && Grows(r, st)
    ensures r.temporaries == st.temporaries && r.outputs == st.outputs
    ensures Key(k) in r.inputs && r.inputs.Keys == st.inputs.Keys + {Key(k)}
    ensures forall key :: key in r.inputs && key !in st.inputs ==> st.next <= r.inputs[key] < r.next
    ensures Key(k) in st.inputs ==> r == st
  {
    var (m, next) := Obtain(st.inputs, st.next, Key(k));
    st.(inputs := m, next := next)
  }

  /** The keys of the model's inputs 0 .. n-1. */
  function InputKeys(n: nat): (ks: set<int>)
    ensures forall k :: 0 <= k < n ==> Key(k) in ks
    ensures forall key :: key in ks ==> key < 0 && -key - 1 < n
  {
    if n == 0 then {} else InputKeys(n - 1) + {Key(n - 1)}
  }

  /** The arguments of inputs 0 .. n-1 are looked up in order; the first
      one missing aborts. */
  function ArgumentsPresent(args: seq<Argument>, n: nat): (c: Check)
    ensures c.Pass? <==> forall k :: 0 <= k < n ==> FindArgument(args, k).Some?
    ensures c.Fail? ==> (&& c.fault.MissingArgument? && c.fault.index < n && FindArgument(args, c.fault.index).None?
                         && forall k :: 0 <= k < c.fault.index ==> FindArgument(args, k).Some?)
  {
    if n == 0 then Pass
    else
      var prefix := ArgumentsPresent(args, n - 1);
      if prefix.Fail? then
        assert FindArgument(args, prefix.fault.index).None?;
        prefix
      else if FindArgument(args, n - 1).None? then
        var last: nat := n - 1;
        assert FindArgument(args, last).None? && 0 <= last < n;
        Fail(MissingArgument(last))
      else
        Pass
  }

  /** Step 1 of Execute for inputs 0 .. n-1, in order: input `k` gets the
      tensor under `Key(k)` in the input map, reusing the one there or
      allocating one. Nothing else in the store changes. */
  function FeedKeys(st: Store, n: nat): (r: Store)
    requires Valid(st)
    ensures Valid(r) && Grows(r, st)
    ensures r.temporaries == st.temporaries && r.outputs == st.outputs
    ensures r.inputs.Keys == st.inputs.Keys + InputKeys(n)
    ensures forall key :: key in r.inputs && key !in st.inputs ==> st.next <= r.inputs[key] < r.next
  {
    if n == 0 then st else FeedOne(FeedKeys(st, n - 1), n - 1)
  }

  /** Feeding inputs that all have a tensor already allocates nothing. */
  lemma {:induction false} FeedKeysSettled(st: Store, n: nat)
    requires Valid(st)
    requires forall k :: 0 <= k < n ==> Key(k) in st.inputs
    ensures FeedKeys(st, n) == st
  {
    if n > 0 {
      FeedKeysSettled(st, n - 1);
    }
  }

  /** The fed input tensors: input `k` is the tensor under `Key(k)`, with the
      extents its argument reports. */
  function Fed(st: Store, args: seq<Argument>, n: nat): (fed: seq<Tensor>)
    requires forall k :: 0 <= k < n ==> Key(k) in st.inputs && FindArgument(args, k).Some?
    ensures |fed| == n
    ensures forall k :: 0 <= k < n ==> fed[k].handle == st.inputs[Key(k)] && fed[k].dims == FindArgument(args, k).value.dims
  {
    seq(n, k requires 0 <= k < n => Tensor(st.inputs[Key(k)], FindArgument(args, k).value.dims))
  }

  /** One call of a sub-program, with the tensors it was handed. */
  datatype SubCall = SubCall(program: nat, inputs: seq<nat>, outputs: seq<nat>)

  /** `h` is the tensor `st` holds under sub-model index `k`, looked up in
      the map `Source` names for it. */
  predicate Holds(st: Store, k: int, isOutput: bool, h: nat) {
    k in Source(st, k, isOutput) && Source(st, k, isOutput)[k] == h
  }

  /** `hs` are the tensors `st` holds under the indices `idx`. */
  predicate HoldsAll(st: Store, idx: seq<int32>, isOutput: bool, hs: seq<nat>) {
    |hs| == |idx| && forall q :: 0 <= q < |idx| ==> Holds(st, idx[q], isOutput, hs[q])
  }

  /** The call made for `sm` was handed, for every input and every output
      index of the sub-model, the tensor `st` holds under that index. */
  predicate Resolved(st: Store, sm: SubModel, call: SubCall) {
    HoldsAll(st, sm.inputIndices, false, call.inputs) && HoldsAll(st, sm.outputIndices, true, call.outputs)
  }

  /** Call `j` is the call of sub-program `j` and is resolved in `st`. */
  predicate CallsResolved(st: Store, subs: seq<SubModel>, calls: seq<SubCall>)
    requires |calls| <= |subs|
  {
    forall j :: 0 <= j < |calls| ==> calls[j].program == j && Resolved(st, subs[j], calls[j])
  }

  /** Temporary `k` is among the output indices of sub-models 0 .. j-1. */
  predicate ProducedBefore(subs: seq<SubModel>, j: nat, k: int): (b: bool)
    requires j <= |subs|
    ensures b ==> k >= 0
  {
    j > 0 && (ProducedBefore(subs, j - 1, k) || (k >= 0 && k in subs[j - 1].outputIndices))
  }

  /** The temporaries of `st1` are those of `st` plus the ones sub-models
      0 .. j-1 output. */
  ghost predicate TemporariesAfter(st1: Store, st: Store, subs: seq<SubModel>, j: nat)
    requires j <= |subs|
  {
    forall k :: k in st1.temporaries <==> k in st.temporaries || ProducedBefore(subs, j, k)
  }

  /** Input index `k` of sub-model `j` can be resolved once the sub-models
      before it have run: it is a fed input or a temporary that existed
      already, or a temporary an earlier sub-model outputs. */
  predicate Available(st: Store, subs: seq<SubModel>, j: nat, k: int)
    requires j <= |subs|
  {
    k in Source(st, k, false) || ProducedBefore(subs, j, k)
  }

  /** `st` holds a tensor under every input index of `sm`. */
  predicate InputsHeld(st: Store, sm: SubModel) {
    forall q :: 0 <= q < |sm.inputIndices| ==> sm.inputIndices[q] in Source(st, sm.inputIndices[q], false)
  }

  /** Every input index of `sm`, run as sub-model `j`, is available. */
  predicate InputsAvailable(st: Store, subs: seq<SubModel>, j: nat, sm: SubModel)
    requires j <= |subs|
  {
    forall q :: 0 <= q < |sm.inputIndices| ==> Available(st, subs, j, sm.inputIndices[q])
  }

  /** Sub-models 0 .. n-1, in turn, each find every input index available. */
  predicate AllAvailable(st: Store, subs: seq<SubModel>, n: nat)
    requires n <= |subs|
  {
    n == 0 || (AllAvailable(st, subs, n - 1) && InputsAvailable(st, subs, n - 1, subs[n - 1]))
  }

  /** `AllAvailable` says that every input index of every sub-model below
      `n` is available at that sub-model's turn. */
  lemma {:induction false} AllAvailableMeans(st: Store, subs: seq<SubModel>, n: nat)
    requires n <= |subs|
    ensures AllAvailable(st, subs, n) <==>
              forall j, q :: 0 <= j < n && 0 <= q < |subs[j].inputIndices| ==> Available(st, subs, j, subs[j].inputIndices[q])
  {
    if n > 0 {
      AllAvailableMeans(st, subs, n - 1);
      if AllAvailable(st, subs, n) {
        forall j, q | 0 <= j < n && 0 <= q < |subs[j].inputIndices|
          ensures Available(st, subs, j, subs[j].inputIndices[q])
        {
          if j == n - 1 {
            assert InputsAvailable(st, subs, n - 1, subs[n - 1]);
          }
        }
      }
    }
  }

  /** Every index of sub-models 0 .. n-1 already holds a tensor. */
  predicate Settled(st: Store, subs: seq<SubModel>, n: nat)
    requires n <= |subs|
  {
    forall j :: 0 <= j < n ==>
      && (forall q :: 0 <= q < |subs[j].inputIndices| ==> subs[j].inputIndices[q] in Source(st, subs[j].inputIndices[q], false))
      && (forall q :: 0 <= q < |subs[j].outputIndices| ==> subs[j].outputIndices[q] in Source(st, subs[j].outputIndices[q], true))
  }

  lemma HoldsAllGrow(st: Store, st': Store, idx: seq<int32>, isOutput: bool, hs: seq<nat>)
    requires Grows(st', st) && HoldsAll(st, idx, isOutput, hs)
    ensures HoldsAll(st', idx, isOutput, hs)
  {
  }

  /** Calls resolved in a store stay resolved as the store grows, and one
      more resolved call extends them. */
  lemma CallsResolvedStep(st: Store, st': Store, subs: seq<SubModel>, calls: seq<SubCall>, call: SubCall)
    requires |calls| < |subs| && Grows(st', st)
    requires CallsResolved(st, subs, calls)
    requires call.program == |calls| && Resolved(st', subs[|calls|], call)
    ensures CallsResolved(st', subs, calls + [call])
  {
    forall j | 0 <= j < |calls|
      ensures Resolved(st', subs[j], calls[j])
    {
      HoldsAllGrow(st, st', subs[j].inputIndices, false, calls[j].inputs);
      HoldsAllGrow(st, st', subs[j].outputIndices, true, calls[j].outputs);
    }
  }

  /** Once sub-models 0 .. n-2 have run, the store holds each input of
      sub-model n-1 exactly when that input is available. */
  lemma AvailableStep(st: Store, st1: Store, subs: seq<SubModel>, n: nat, sm: SubModel)
    requires 0 < n <= |subs| && sm == subs[n - 1]
    requires st1.inputs == st.inputs
    requires TemporariesAfter(st1, st, subs, n - 1)
    ensures InputsAvailable(st, subs, n - 1, sm) <==> InputsHeld(st1, sm)
  {
    assert forall q :: 0 <= q < |sm.inputIndices| ==>
      (sm.inputIndices[q] in Source(st1, sm.inputIndices[q], false) <==> Available(st, subs, n - 1, sm.inputIndices[q]));
  }

  /** Sub-model `j` run against `st`: its inputs looked up, its outputs
      reused or allocated. */
  function RunOne(st: Store, sm: SubModel, j: nat): (r: Result<(Store, SubCall)>)
    requires Valid(st)
    ensures r.Ok? <==> InputsHeld(st, sm)
    ensures r.Fatal? ==> r.fault.MissingTensor?
    ensures r.Ok? ==> Valid(r.value.0) && Grows(r.value.0, st) && r.value.0.inputs == st.inputs && r.value.1.program == j
  {
    var ins :- ResolveInputs(st, sm.inputIndices);
    var (st1, outs) := ResolveOutputs(st, sm.outputIndices);
    Ok((st1, SubCall(j, ins, outs)))
  }

  /** The call for `sm` is handed the tensors the store holds afterwards. */
  lemma RunOneResolved(st: Store, sm: SubModel, j: nat)
    requires Valid(st) && RunOne(st, sm, j).Ok?
    ensures Resolved(RunOne(st, sm, j).value.0, sm, RunOne(st, sm, j).value.1)
  {
  }

  /** Running `sm` adds exactly its non-negative output indices to the
      temporaries. */
  lemma RunOneTemporaries(st: Store, sm: SubModel, j: nat)
    requires Valid(st) && RunOne(st, sm, j).Ok?
    ensures forall k :: k in RunOne(st, sm, j).value.0.temporaries <==> k in st.temporaries || (k >= 0 && k in sm.outputIndices)
  {
    ResolveOutputsKeys(st, sm.outputIndices);
  }

  /** Running `sm` when its outputs already hold tensors allocates nothing. */
  lemma RunOneSettled(st: Store, sm: SubModel, j: nat)
    requires Valid(st) && RunOne(st, sm, j).Ok?
    requires forall q :: 0 <= q < |sm.outputIndices| ==> sm.outputIndices[q] in Source(st, sm.outputIndices[q], true)
    ensures RunOne(st, sm, j).value.0 == st
  {
    ResolveOutputsSettled(st, sm.outputIndices);
  }

  /** Step 2 of Execute for sub-models 0 .. n-1, in partition order: each
      sub-program is handed its input tensors (looked up; a missing one
      aborts) and its output tensors (reused or allocated). */
  function RunSubPrograms(st: Store, subs: seq<SubModel>, n: nat): (r: Result<(Store, seq<SubCall>)>)
    requires Valid(st) && n <= |subs|
    ensures r.Fatal? ==> r.fault.MissingTensor?
    ensures r.Ok? ==> Valid(r.value.0) && Grows(r.value.0, st) && r.value.0.inputs == st.inputs
    ensures r.Ok? ==> |r.value.1| == n
  {
    if n == 0 then Ok((st, []))
    else
      var prefix := RunSubPrograms(st, subs, n - 1);
      if prefix.Fatal? then Fatal(prefix.fault)
      else
        var step := RunOne(prefix.value.0, subs[n - 1], n - 1);
        if step.Fatal? then Fatal(step.fault)
        else Ok((step.value.0, prefix.value.1 + [step.value.1]))
  }

  /** Adding the temporaries sub-model n-1 outputs extends
      `TemporariesAfter` by one sub-model. */
  lemma TemporariesStep(st: Store, st0: Store, st1: Store, subs: seq<SubModel>, n: nat)
    requires 0 < n <= |subs|
    requires TemporariesAfter(st0, st, subs, n - 1)
    requires forall k :: k in st1.temporaries <==> k in st0.temporaries || (k >= 0 && k in subs[n - 1].outputIndices)
    ensures TemporariesAfter(st1, st, subs, n)
  {
  }

  /** The temporaries a successful run leaves are the ones there were plus
      the ones the sub-models output. */
  lemma {:induction false} RunTemporaries(st: Store, subs: seq<SubModel>, n: nat)
    requires Valid(st) && n <= |subs|
    requires RunSubPrograms(st, subs, n).Ok?
    ensures TemporariesAfter(RunSubPrograms(st, subs, n).value.0, st, subs, n)
  {
    if n > 0 {
      RunTemporaries(st, subs, n - 1);
      var st0 := RunSubPrograms(st, subs, n - 1).value.0;
      RunOneTemporaries(st0, subs[n - 1], n - 1);
      TemporariesStep(st, st0, RunOne(st0, subs[n - 1], n - 1).value.0, subs, n);
    }
  }

  /** Sub-model n-1 finds its inputs, once 0 .. n-2 ran, exactly when
      they are available. */
  lemma AvailableNext(st: Store, subs: seq<SubModel>, n: nat)
    requires Valid(st) && 0 < n <= |subs|
    requires RunSubPrograms(st, subs, n - 1).Ok?
    ensures AllAvailable(st, subs, n) <==>
              AllAvailable(st, subs, n - 1) && InputsHeld(RunSubPrograms(st, subs, n - 1).value.0, subs[n - 1])
  {
    var sm := subs[n - 1];
    var st1 := RunSubPrograms(st, subs, n - 1).value.0;
    RunTemporaries(st, subs, n - 1);
    AvailableStep(st, st1, subs, n, sm);
  }

  /** Once sub-models 0 .. n-2 ran, the run goes on past sub-model n-1
      exactly when its inputs are held. */
  lemma RunStepOk(st: Store, subs: seq<SubModel>, n: nat)
    requires Valid(st) && 0 < n <= |subs|
    requires RunSubPrograms(st, subs, n - 1).Ok?
    ensures RunSubPrograms(st, subs, n).Ok? <==> InputsHeld(RunSubPrograms(st, subs, n - 1).value.0, subs[n - 1])
  {
  }

  /** A run that aborts before sub-model n-1 aborts. */
  lemma RunStepFatal(st: Store, subs: seq<SubModel>, n: nat)
    requires Valid(st) && 0 < n <= |subs|
    requires RunSubPrograms(st, subs, n - 1).Fatal?
    ensures RunSubPrograms(st, subs, n).Fatal?
  {
  }

  /** Running sub-models 0 .. n-1 succeeds exactly when their inputs are
      available in turn. */
  predicate RunsExactlyWhenAvailable(st: Store, subs: seq<SubModel>, n: nat)
    requires Valid(st) && n <= |subs|
  {
    RunSubPrograms(st, subs, n).Ok? <==> AllAvailable(st, subs, n)
  }

  lemma RunAvailableStep(st: Store, subs: seq<SubModel>, n: nat)
    requires Valid(st) && 0 < n <= |subs|
    requires RunsExactlyWhenAvailable(st, subs, n - 1)
    ensures RunsExactlyWhenAvailable(st, subs, n)
  {
    if RunSubPrograms(st, subs, n - 1).Ok? {
      AvailableNext(st, subs, n);
      RunStepOk(st, subs, n);
    } else {
      RunStepFatal(st, subs, n);
    }
  }

  /** The sub-programs run to the end exactly when every input index of
      every sub-model is available when its turn comes. */
  lemma {:induction false} RunAvailable(st: Store, subs: seq<SubModel>, n: nat)
    requires Valid(st) && n <= |subs|
    ensures RunsExactlyWhenAvailable(st, subs, n)
  {
    if n > 0 {
      RunAvailable(st, subs, n - 1);
      RunAvailableStep(st, subs, n);
    }
  }

  /** Every sub-program call was handed the tensors the final store holds
      under the sub-model's indices: entries are never replaced, so the
      tensor looked up or allocated for a call is the one kept. */
  lemma {:induction false} RunResolved(st: Store, subs: seq<SubModel>, n: nat)
    requires Valid(st) && n <= |subs|
    requires RunSubPrograms(st, subs, n).Ok?
    ensures CallsResolved(RunSubPrograms(st, subs, n).value.0, subs, RunSubPrograms(st, subs, n).value.1)
  {
    if n > 0 {
      var prefix := RunSubPrograms(st, subs, n - 1);
      RunResolved(st, subs, n - 1);
      var st1 := prefix.value.0;
      var calls := prefix.value.1;
      var step := RunOne(st1, subs[n - 1], n - 1);
      RunOneResolved(st1, subs[n - 1], n - 1);
      CallsResolvedStep(st1, step.value.0, subs, calls, step.value.1);
    }
  }

  /** Running sub-programs whose every index already holds a tensor
      allocates nothing. */
  lemma {:induction false} RunSettled(st: Store, subs: seq<SubModel>, n: nat)
    requires Valid(st) && n <= |subs|
    requires Settled(st, subs, n)
    ensures RunSubPrograms(st, subs, n).Ok? && RunSubPrograms(st, subs, n).value.0 == st
  {
    if n > 0 {
      assert Settled(st, subs, n - 1);
      RunSettled(st, subs, n - 1);
      var prefix := RunSubPrograms(st, subs, n - 1);
      var step := RunOne(st, subs[n - 1], n - 1);
      RunOneSettled(st, subs[n - 1], n - 1);
      assert RunSubPrograms(st, subs, n) == Ok((st, prefix.value.1 + [step.value.1]));
    }
  }

  /** Output `k` can be read back: it has an argument and a tensor. */
  predicate Fetchable(st: Store, args: seq<Argument>, k: nat) {
    FindArgument(args, k).Some? && Key(k) in st.outputs
  }

  /** Why output `k` cannot be read back: a missing argument is checked first. */
  function FetchFault(args: seq<Argument>, k: nat): Fault {
    if FindArgument(args, k).None? then MissingArgument(k) else MissingTensor(Key(k))
  }

  /** Step 3 of Execute for outputs 0 .. n-1, in order: output `k` is read
      from the tensor under `Key(k)` in the output map, with the extents that
      tensor has after the run. The first output that cannot be read aborts. */
  function Fetch(st: Store, args: seq<Argument>, shapeOf: nat -> seq<int32>, n: nat): (r: Result<seq<Tensor>>)
    ensures r.Ok? <==> forall k :: 0 <= k < n ==> Fetchable(st, args, k)
    ensures r.Fatal? ==> exists k :: (&& 0 <= k < n && !Fetchable(st, args, k) && r.fault == FetchFault(args, k)
                                      && forall k' :: 0 <= k' < k ==> Fetchable(st, args, k'))
    ensures r.Ok? ==> |r.value| == n
    ensures r.Ok? ==> forall k :: 0 <= k < n ==>
              Fetchable(st, args, k) && r.value[k] == Tensor(st.outputs[Key(k)], shapeOf(st.outputs[Key(k)]))
  {
    if n == 0 then Ok([])
    else
      var fetched :- Fetch(st, args, shapeOf, n - 1);
      if !Fetchable(st, args, n - 1) then Fatal(FetchFault(args, n - 1))
      else
        var h := st.outputs[Key(n - 1)];
        Ok(fetched + [Tensor(h, shapeOf(h))])
  }

  /** After the inputs are fed into `st`, every sub-program runs and every
      output `0 .. n-1` can then be read back. */
  predicate RunsAndFetches(st: Store, subs: seq<SubModel>, args: seq<Argument>, n: nat)
    requires Valid(st)
  {
    var run := RunSubPrograms(st, subs, |subs|);
    && run.Ok?
    && forall k :: 0 <= k < n ==> Fetchable(run.value.0, args, k)
  }

  /** The effect of one Execute call: its return code, the tensor store it
      leaves, the input tensors it fed, the sub-program calls it made and
      the output tensors it read back. */
  datatype Run = Run(code: ReturnCode, store: Store, fed: seq<Tensor>, calls: seq<SubCall>, fetched: seq<Tensor>)

  /** Program::Execute. A refused input returns its code before any tensor
      is touched; otherwise feed, run every sub-program in order and
      fetch. */
  function Execute(p: Engine.Program, inputArgs: seq<Argument>, outputArgs: seq<Argument>, shapeOf: nat -> seq<int32>): (r: Result<Run>)
    requires Engine.Valid(p)
    ensures CheckInputsAndOutputs(p.inputTypes, inputArgs).Fatal? ==> r == Fatal(CheckInputsAndOutputs(p.inputTypes, inputArgs).fault)
    ensures r.Ok? ==> CheckInputsAndOutputs(p.inputTypes, inputArgs) == Ok(r.value.code)
    ensures r.Ok? && r.value.code != NoError ==> r.value == Run(r.value.code, p.store, [], [], [])
    ensures r.Ok? ==> Valid(r.value.store) && Grows(r.value.store, p.store)
    ensures CheckInputsAndOutputs(p.inputTypes, inputArgs) == Ok(NoError) ==>
              (r.Ok? <==> && ArgumentsPresent(inputArgs, |p.inputTypes|).Pass?
                          && AllAvailable(FeedKeys(p.store, |p.inputTypes|), p.subModels, |p.subModels|)
                          && RunsAndFetches(FeedKeys(p.store, |p.inputTypes|), p.subModels, outputArgs, |p.outputTypes|))
    ensures r.Ok? && r.value.code == NoError ==> (
              && |r.value.fed| == |p.inputTypes|
              && forall i :: 0 <= i < |p.inputTypes| ==>
                   && Key(i) in r.value.store.inputs && r.value.fed[i].handle == r.value.store.inputs[Key(i)]
                   && FindArgument(inputArgs, i).Some? && r.value.fed[i].dims == FindArgument(inputArgs, i).value.dims)
    ensures r.Ok? && r.value.code == NoError ==>
              |r.value.calls| == |p.subModels| && CallsResolved(r.value.store, p.subModels, r.value.calls)
    ensures r.Ok? && r.value.code == NoError ==> (
              && |r.value.fetched| == |p.outputTypes|
              && forall i :: 0 <= i < |p.outputTypes| ==>
                   && Key(i) in r.value.store.outputs && r.value.fetched[i].handle == r.value.store.outputs[Key(i)]
                   && r.value.fetched[i].dims == shapeOf(r.value.store.outputs[Key(i)]))
  {
    var code :- CheckInputsAndOutputs(p.inputTypes, inputArgs);
    if code != NoError then Ok(Run(code, p.store, [], [], []))
    else
      :- ArgumentsPresent(inputArgs, |p.inputTypes|);
      var st1 := FeedKeys(p.store, |p.inputTypes|);
      var fed := Fed(st1, inputArgs, |p.inputTypes|);
      RunAvailable(st1, p.subModels, |p.subModels|);
      var (st2, calls) :- RunSubPrograms(st1, p.subModels, |p.subModels|);
      RunResolved(st1, p.subModels, |p.subModels|);
      var fetched :- Fetch(st2, outputArgs, shapeOf, |p.outputTypes|);
      Ok(Run(NoError, st2, fed, calls, fetched))
  }

  /** A store determines the calls resolved in it. */
  lemma CallsUnique(st: Store, subs: seq<SubModel>, c1: seq<SubCall>, c2: seq<SubCall>)
    requires |c1| == |c2| <= |subs|
    requires CallsResolved(st, subs, c1) && CallsResolved(st, subs, c2)
    ensures c1 == c2
  {
    forall j | 0 <= j < |c1|
      ensures c1[j] == c2[j]
    {
      assert Resolved(st, subs[j], c1[j]) && Resolved(st, subs[j], c2[j]);
      assert c1[j].inputs == c2[j].inputs;
      assert c1[j].outputs == c2[j].outputs;
    }
  }

  /** After the calls of all sub-models are resolved, each of their indices
      holds a tensor. */
  lemma CallsResolvedSettled(st: Store, subs: seq<SubModel>, calls: seq<SubCall>)
    requires |calls| == |subs| && CallsResolved(st, subs, calls)
    ensures Settled(st, subs, |subs|)
  {
    forall j | 0 <= j < |subs|
      ensures forall q :: 0 <= q < |subs[j].inputIndices| ==> subs[j].inputIndices[q] in Source(st, subs[j].inputIndices[q], false)
      ensures forall q :: 0 <= q < |subs[j].outputIndices| ==> subs[j].outputIndices[q] in Source(st, subs[j].outputIndices[q], true)
    {
      assert Resolved(st, subs[j], calls[j]);
    }
  }

  /** Tensors are allocated lazily and kept: executing again with the same
      arguments from the store a successful run left behind allocates
      nothing and hands every sub-program the very same tensors. */
  lemma {:induction false} ExecuteAgainReusesTensors(p: Engine.Program, inputArgs: seq<Argument>, outputArgs: seq<Argument>,
                                                     shapeOf: nat -> seq<int32>)
    requires Engine.Valid(p)
    requires Execute(p, inputArgs, outputArgs, shapeOf).Ok?
    requires Execute(p, inputArgs, outputArgs, shapeOf).value.code == NoError
    ensures var run := Execute(p, inputArgs, outputArgs, shapeOf).value;
            Execute(p.(store := run.store), inputArgs, outputArgs, shapeOf) == Ok(run)
  {
    var run := Execute(p, inputArgs, outputArgs, shapeOf).value;
    var st := run.store;
    var n := |p.inputTypes|;
    assert CheckInputsAndOutputs(p.inputTypes, inputArgs) == Ok(NoError);
    assert ArgumentsPresent(inputArgs, n).Pass?;
    var st1 := FeedKeys(p.store, n);
    var (st2, calls) := RunSubPrograms(st1, p.subModels, |p.subModels|).value;
    RunResolved(st1, p.subModels, |p.subModels|);
    assert st2 == st && calls == run.calls && Fed(st1, inputArgs, n) == run.fed;
    // Feeding again finds every input key and allocates nothing.
    assert forall k :: 0 <= k < n ==> Key(k) in st.inputs by {
      assert st.inputs == st1.inputs;
    }
    FeedKeysSettled(st, n);
    assert Fed(st, inputArgs, n) == run.fed by {
      assert st.inputs == st1.inputs;
    }
    // Every sub-model index already holds a tensor, so the same calls recur.
    CallsResolvedSettled(st, p.subModels, calls);
    RunSettled(st, p.subModels, |p.subModels|);
    var again := RunSubPrograms(st, p.subModels, |p.subModels|).value;
    RunResolved(st, p.subModels, |p.subModels|);
    CallsUnique(st, p.subModels, again.1, calls);
    assert RunSubPrograms(st, p.subModels, |p.subModels|) == Ok((st, calls));
    assert Fetch(st, outputArgs, shapeOf, |p.outputTypes|) == Ok(run.fetched);
  }
}
