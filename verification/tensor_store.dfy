/** The tensor store of `Program::Execute`: three maps from a signed tensor
    index to a tensor. The model's input `i` and output `i` are both keyed
    `-(i+1)`, in separate maps; a non-negative index names a temporary that
    one sub-model produces and a later one consumes. Tensors are handles
    drawn from a counter, so "allocate a new Tensor" is "take `next`". */
module TensorStore {
  import opened Status
  import opened Types

  /** The key of the model's input or output `i`. */
  function Key(i: nat): (k: int)
    ensures k < 0
    ensures k == Key(i) ==> i == -k - 1
  {
    -(i as int) - 1
  }

  datatype Store = Store(
    inputs: map<int, nat>,
    temporaries: map<int, nat>,
    outputs: map<int, nat>,
    next: nat)

  /** Every handle in `m` was allocated before `next`. */
  predicate Below(m: map<int, nat>, next: nat) {
    forall k :: k in m ==> m[k] < next
  }

  predicate Valid(st: Store) {
    Below(st.inputs, st.next) && Below(st.temporaries, st.next) && Below(st.outputs, st.next)
  }

  /** `m2` keeps every entry of `m1`. */
  predicate Extends(m2: map<int, nat>, m1: map<int, nat>) {
    forall k :: k in m1 ==> k in m2 && m2[k] == m1[k]
  }

  /** `st2` keeps every tensor of `st1` and has only allocated after it. */
  predicate Grows(st2: Store, st1: Store) {
    && Extends(st2.inputs, st1.inputs)
    && Extends(st2.temporaries, st1.temporaries)
    && Extends(st2.outputs, st1.outputs)
    && st2.next >= st1.next
  }

  /** The tensor under `k` in `m`, allocating one when there is none. */
  function Obtain(m: map<int, nat>, next: nat, k: int): (r: (map<int, nat>, nat))
    requires Below(m, next)
    ensures k in r.0 && Below(r.0, r.1) && Extends(r.0, m)
    ensures k in m ==> r.0 == m && r.1 == next
    ensures k !in m ==> r.0[k] == next && r.1 == next + 1
    ensures r.0.Keys == m.Keys + {k}
  {
    if k in m then (m, next) else (m[k := next], next + 1)
  }

  /** The map a sub-model's input or output index is looked up in. */
  function Source(st: Store, k: int, isOutput: bool): map<int, nat> {
    if k >= 0 then st.temporaries else if isOutput then st.outputs else st.inputs
  }

  /** A sub-model's input tensors: a negative index must already hold a fed
      model input, a non-negative one a temporary an earlier sub-model
      produced; a missing one aborts. */
  function ResolveInputs(st: Store, idx: seq<int32>): (r: Result<seq<nat>>)
    ensures r.Ok? <==> forall j :: 0 <= j < |idx| ==> idx[j] in Source(st, idx[j], false)
    ensures r.Fatal? ==> (r.fault.MissingTensor? &&
              exists j :: 0 <= j < |idx| && r.fault.key == idx[j] && idx[j] !in Source(st, idx[j], false))
    ensures r.Ok? ==> |r.value| == |idx|
    ensures r.Ok? ==> forall j :: 0 <= j < |idx| ==> r.value[j] == Source(st, idx[j], false)[idx[j]]
  {
    if |idx| == 0 then Ok([])
    else
      var k := idx[0];
      var m := Source(st, k, false);
      :- Need(k in m, MissingTensor(k));
      var rest :- ResolveInputs(st, idx[1..]);
      assert forall j :: 1 <= j < |idx| ==> idx[j] == idx[1..][j - 1];
      Ok([m[k]] + rest)
  }

  /** The tensor of one sub-model output index: reused from the output map
      (negative index) or the temporaries (non-negative), or allocated. */
  function ObtainIndex(st: Store, k: int): (r: (Store, nat))
    requires Valid(st)
    ensures Valid(r.0) && Grows(r.0, st) && r.0.inputs == st.inputs
    ensures k in Source(r.0, k, true) && r.1 == Source(r.0, k, true)[k]
    ensures r.0.outputs.Keys == st.outputs.Keys + (if k < 0 then {k} else {})
    ensures r.0.temporaries.Keys == st.temporaries.Keys + (if k >= 0 then {k} else {})
    ensures forall k' :: k' in r.0.outputs && k' !in st.outputs ==> st.next <= r.0.outputs[k'] < r.0.next
    ensures forall k' :: k' in r.0.temporaries && k' !in st.temporaries ==> st.next <= r.0.temporaries[k'] < r.0.next
    ensures k in Source(st, k, true) ==> r.0 == st
  {
    if k >= 0 then
      var (m, n) := Obtain(st.temporaries, st.next, k);
      (st.(temporaries := m, next := n), m[k])
    else
      var (m, n) := Obtain(st.outputs, st.next, k);
      (st.(outputs := m, next := n), m[k])
  }

  /** A sub-model's output tensors: each index reuses the tensor it already
      has, in the output map when negative and in the temporaries when not,
      and gets a new one otherwise. */
  function ResolveOutputs(st: Store, idx: seq<int32>): (r: (Store, seq<nat>))
    requires Valid(st)
    ensures Valid(r.0) && Grows(r.0, st) && r.0.inputs == st.inputs
    ensures |r.1| == |idx|
    ensures forall j :: 0 <= j < |idx| ==>
              idx[j] in Source(r.0, idx[j], true) && r.1[j] == Source(r.0, idx[j], true)[idx[j]]
    decreases |idx|
  {
    if |idx| == 0 then (st, [])
    else
      var (st1, h) := ObtainIndex(st, idx[0]);
      var (st2, rest) := ResolveOutputs(st1, idx[1..]);
      assert forall j :: 1 <= j < |idx| ==> idx[j] == idx[1..][j - 1];
      (st2, [h] + rest)
  }

  /** Resolving outputs adds exactly the listed negative indices to the
      output map and the listed non-negative ones to the temporaries. */
  lemma {:induction false} ResolveOutputsKeys(st: Store, idx: seq<int32>)
    requires Valid(st)
    ensures forall k :: k in ResolveOutputs(st, idx).0.outputs <==> k in st.outputs || (k < 0 && k in idx)
    ensures forall k :: k in ResolveOutputs(st, idx).0.temporaries <==> k in st.temporaries || (k >= 0 && k in idx)
    decreases |idx|
  {
    if |idx| > 0 {
      var st1 := ObtainIndex(st, idx[0]).0;
      ResolveOutputsKeys(st1, idx[1..]);
      assert forall k :: k in idx <==> k == idx[0] || k in idx[1..];
    }
  }

  /** Every tensor resolving outputs allocates is fresh: drawn from the
      counter after `st.next`. */
  lemma {:induction false} ResolveOutputsFresh(st: Store, idx: seq<int32>)
    requires Valid(st)
    ensures var r := ResolveOutputs(st, idx).0;
            && (forall k :: k in r.outputs && k !in st.outputs ==> st.next <= r.outputs[k] < r.next)
            && (forall k :: k in r.temporaries && k !in st.temporaries ==> st.next <= r.temporaries[k] < r.next)
    decreases |idx|
  {
    if |idx| > 0 {
      var st1 := ObtainIndex(st, idx[0]).0;
      ResolveOutputsFresh(st1, idx[1..]);
    }
  }

  /** Resolving outputs that all hold a tensor already changes nothing. */
  lemma {:induction false} ResolveOutputsSettled(st: Store, idx: seq<int32>)
    requires Valid(st)
    requires forall j :: 0 <= j < |idx| ==> idx[j] in Source(st, idx[j], true)
    ensures ResolveOutputs(st, idx).0 == st
    decreases |idx|
  {
    if |idx| > 0 {
      assert forall j :: 1 <= j < |idx| ==> idx[j] == idx[1..][j - 1];
      ResolveOutputsSettled(st, idx[1..]);
    }
  }
}
