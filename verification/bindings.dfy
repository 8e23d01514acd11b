/** The binding protocol of a TensorRT engine as the driver uses it: bindings
    are found by the names "input{i}" and "output{i}", and a run passes one
    device pointer per binding slot, in slot order. */
module Bindings {
  import opened Status

  /** The decimal spelling of a natural number, as `std::to_string` gives it. */
  function NatToString(n: nat): (s: string)
    ensures |s| >= 1
    ensures forall c :: c in s ==> '0' <= c <= '9'
    ensures n < 10 <==> |s| == 1
  {
    if n < 10 then [Digit(n)] else NatToString(n / 10) + [Digit(n % 10)]
  }

  function Digit(d: nat): (c: char)
    requires d < 10
    ensures '0' <= c <= '9'
  {
    "0123456789"[d]
  }

  /** Different numbers have different spellings, so the binding names of
      different inputs (or outputs) never coincide. */
  lemma {:induction false} NatToStringInjective(m: nat, n: nat)
    ensures NatToString(m) == NatToString(n) ==> m == n
  {
    if NatToString(m) == NatToString(n) {
      if m >= 10 && n >= 10 {
        var sm, sn := NatToString(m), NatToString(n);
        assert sm[|sm| - 1] == Digit(m % 10) && sn[|sn| - 1] == Digit(n % 10);
        assert m % 10 == n % 10;
        assert sm[..|sm| - 1] == NatToString(m / 10);
        assert sn[..|sn| - 1] == NatToString(n / 10);
        NatToStringInjective(m / 10, n / 10);
      }
    }
  }

  /** The binding name of input `i`. */
  function InputName(i: nat): string {
    "input" + NatToString(i)
  }

  /** The binding name of output `i`. */
  function OutputName(i: nat): string {
    "output" + NatToString(i)
  }

  /** No two boundary values share a binding name. */
  lemma BindingNamesDistinct(i: nat, j: nat)
    ensures InputName(i) == InputName(j) ==> i == j
    ensures OutputName(i) == OutputName(j) ==> i == j
    ensures InputName(i) != OutputName(j)
  {
    assert InputName(i)[0] != OutputName(j)[0];
    if InputName(i) == InputName(j) {
      assert NatToString(i) == InputName(i)[5..];
      assert NatToString(j) == InputName(j)[5..];
      NatToStringInjective(i, j);
    }
    if OutputName(i) == OutputName(j) {
      assert NatToString(i) == OutputName(i)[6..];
      assert NatToString(j) == OutputName(j)[6..];
      NatToStringInjective(i, j);
    }
  }

  /** `getBindingIndex`: the first slot carrying `name`, or -1. */
  function BindingIndex(names: seq<string>, name: string): (k: int)
    ensures -1 <= k < |names|
    ensures k >= 0 ==> names[k] == name && forall j :: 0 <= j < k ==> names[j] != name
    ensures k == -1 <==> name !in names
  {
    if |names| == 0 then -1
    else if names[0] == name then 0
    else
      var k := BindingIndex(names[1..], name);
      if k == -1 then -1 else k + 1
  }

  /** The slots the indices name, as a set. */
  function Slots(idx: seq<int>): set<int> {
    set k | 0 <= k < |idx| :: idx[k]
  }

  predicate InRange(idx: seq<int>, n: int) {
    forall k :: 0 <= k < |idx| ==> 0 <= idx[k] < n
  }

  predicate Distinct(idx: seq<int>) {
    forall a, b :: 0 <= a < b < |idx| ==> idx[a] != idx[b]
  }

  /** Writes `vals[k]` into slot `idx[k]` for k in order; a slot outside the
      array aborts. A slot written twice keeps the later value. */
  function Scatter(slots: seq<Option<nat>>, idx: seq<int>, vals: seq<nat>): (r: Result<seq<Option<nat>>>)
    requires |idx| == |vals|
    ensures r.Ok? <==> InRange(idx, |slots|)
    ensures r.Fatal? ==> r.fault == BindingIndexOutOfRange
    ensures r.Ok? ==> |r.value| == |slots|
    ensures r.Ok? ==> forall s :: 0 <= s < |slots| && s !in Slots(idx) ==> r.value[s] == slots[s]
    ensures r.Ok? ==> forall k :: 0 <= k < |idx| && idx[k] !in Slots(idx[k + 1..]) ==>
                        r.value[idx[k]] == Some(vals[k])
    decreases |idx|
  {
    if |idx| == 0 then Ok(slots)
    else if !(0 <= idx[0] < |slots|) then Fatal(BindingIndexOutOfRange)
    else
      var rest := Scatter(slots[idx[0] := Some(vals[0])], idx[1..], vals[1..]);
      assert forall k :: 1 <= k < |idx| ==> idx[k] == idx[1..][k - 1];
      assert forall k :: 1 <= k < |idx| ==> idx[k + 1..] == idx[1..][k..];
      rest
  }

  /** The device-pointer array of a run: `n` slots, each written exactly
      once. Any slot left unwritten is a null pointer and aborts. */
  function DevicePointers(n: nat, idx: seq<int>, vals: seq<nat>): (r: Result<seq<nat>>)
    requires |idx| == |vals|
    ensures r.Ok? ==> |r.value| == n
  {
    var slots :- Scatter(seq(n, _ => None), idx, vals);
    if forall s :: 0 <= s < n ==> slots[s].Some? then Ok(seq(n, s requires 0 <= s < n => slots[s].value))
    else Fatal(NullDevicePointer)
  }

  /** With exactly one index per slot, the pointer array is built iff the
      indices are in range and pairwise distinct, and then slot `idx[k]`
      holds `vals[k]`. */
  lemma {:induction false} DevicePointersCorrect(n: nat, idx: seq<int>, vals: seq<nat>)
    requires |idx| == |vals| == n
    ensures DevicePointers(n, idx, vals).Ok? <==> InRange(idx, n) && Distinct(idx)
    ensures DevicePointers(n, idx, vals).Ok? ==>
              forall k :: 0 <= k < n ==> DevicePointers(n, idx, vals).value[idx[k]] == vals[k]
  {
    if DevicePointers(n, idx, vals).Ok? {
      DevicePointersBuilt(n, idx, vals);
    } else if InRange(idx, n) && Distinct(idx) {
      DevicePointersComplete(n, idx, vals);
    }
  }

  /** A built pointer array came from in-range, distinct indices. */
  lemma DevicePointersBuilt(n: nat, idx: seq<int>, vals: seq<nat>)
    requires |idx| == |vals| == n && DevicePointers(n, idx, vals).Ok?
    ensures InRange(idx, n) && Distinct(idx)
    ensures forall k :: 0 <= k < n ==> DevicePointers(n, idx, vals).value[idx[k]] == vals[k]
  {
    var slots := Scatter(seq(n, _ => None), idx, vals).value;
    // every slot was written, so the indices cover the range
    assert forall s :: 0 <= s < n ==> s in Slots(idx);
    CoveringIsDistinct(idx, n);
    LastOccurrence(idx);
  }

  /** In-range, distinct indices write every slot. */
  lemma DevicePointersComplete(n: nat, idx: seq<int>, vals: seq<nat>)
    requires |idx| == |vals| == n && InRange(idx, n) && Distinct(idx)
    ensures DevicePointers(n, idx, vals).Ok?
  {
    var slots := Scatter(seq(n, _ => None), idx, vals).value;
    DistinctIsCovering(idx, n);
    forall s | 0 <= s < n
      ensures slots[s].Some?
    {
      assert s in Slots(idx);
      var k :| 0 <= k < |idx| && idx[k] == s;
      DistinctLast(idx, k);
    }
  }

  /** `n` in-range indices that name every slot are pairwise distinct. */
  lemma CoveringIsDistinct(idx: seq<int>, n: nat)
    requires |idx| == n && InRange(idx, n)
    requires forall s :: 0 <= s < n ==> s in Slots(idx)
    ensures Distinct(idx)
  {
    SlotsCard(idx);
    RangeCard(n);
    assert Slots(idx) == Range(n);
    SlotsCardDistinct(idx);
  }

  /** `n` in-range, pairwise distinct indices name every slot. */
  lemma DistinctIsCovering(idx: seq<int>, n: nat)
    requires |idx| == n && InRange(idx, n) && Distinct(idx)
    ensures forall s :: 0 <= s < n ==> s in Slots(idx)
  {
    RangeCard(n);
    assert Slots(idx) <= Range(n);
    SlotsCardDistinct(idx);
    SubsetEqualCard(Slots(idx), Range(n));
  }

  /** The slot numbers 0 .. n-1. */
  function Range(n: nat): (r: set<int>)
    ensures forall s :: s in r <==> 0 <= s < n
  {
    if n == 0 then {} else Range(n - 1) + {n - 1}
  }

  lemma {:induction false} RangeCard(n: nat)
    ensures |Range(n)| == n
  {
    if n > 0 {
      var smaller := Range(n - 1);
      RangeCard(n - 1);
      assert n - 1 !in smaller;
      assert Range(n) == smaller + {n - 1};
    }
  }

  lemma {:induction false} SlotsCard(idx: seq<int>)
    ensures |Slots(idx)| <= |idx|
  {
    if |idx| > 0 {
      var init := idx[..|idx| - 1];
      SlotsCard(init);
      assert Slots(idx) == Slots(init) + {idx[|idx| - 1]};
    }
  }

  /** The indices are distinct exactly when they name as many slots as
      there are indices. */
  lemma {:induction false} SlotsCardDistinct(idx: seq<int>)
    ensures Distinct(idx) <==> |Slots(idx)| == |idx|
  {
    if |idx| > 0 {
      var init := idx[..|idx| - 1];
      var last := idx[|idx| - 1];
      SlotsCardDistinct(init);
      SlotsCard(init);
      DistinctSnoc(idx);
      assert Slots(idx) == Slots(init) + {last};
    }
  }

  /** A list is distinct when its prefix is and its last index is new. */
  lemma DistinctSnoc(idx: seq<int>)
    requires |idx| > 0
    ensures Distinct(idx) <==> Distinct(idx[..|idx| - 1]) && idx[|idx| - 1] !in Slots(idx[..|idx| - 1])
  {
    var init := idx[..|idx| - 1];
    var last := idx[|idx| - 1];
    if Distinct(idx) {
      assert Distinct(init);
      assert last !in Slots(init);
    } else {
      var a, b :| 0 <= a < b < |idx| && idx[a] == idx[b];
      if b == |idx| - 1 {
        assert last in Slots(init);
      } else {
        assert !Distinct(init);
      }
    }
  }

  lemma SubsetEqualCard(a: set<int>, b: set<int>)
    requires a <= b && |a| == |b|
    ensures a == b
  {
    assert |b - a| == |b| - |a|;
  }

  lemma DistinctLast(idx: seq<int>, k: nat)
    requires Distinct(idx) && k < |idx|
    ensures idx[k] !in Slots(idx[k + 1..])
  {
    var tail := idx[k + 1..];
    forall j | 0 <= j < |tail|
      ensures tail[j] != idx[k]
    {
      assert tail[j] == idx[k + 1 + j];
    }
  }

  lemma LastOccurrence(idx: seq<int>)
    requires Distinct(idx)
    ensures forall k :: 0 <= k < |idx| ==> idx[k] !in Slots(idx[k + 1..])
  {
    forall k | 0 <= k < |idx| {
      DistinctLast(idx, k);
    }
  }

  /** The device-pointer array of a run over `|ins|` input and `|outs|`
      output bindings: built exactly when the recorded slots are in range
      and pairwise distinct, and then input `i` sits at slot `inIdx[i]` and
      output `i` at slot `outIdx[i]`. */
  function BindBoundary(inIdx: seq<int>, outIdx: seq<int>, ins: seq<nat>, outs: seq<nat>): (r: Result<seq<nat>>)
    requires |inIdx| == |ins| && |outIdx| == |outs|
    ensures r.Ok? <==> InRange(inIdx + outIdx, |ins| + |outs|) && Distinct(inIdx + outIdx)
    ensures r.Ok? ==> |r.value| == |ins| + |outs|
    ensures r.Ok? ==> forall i :: 0 <= i < |ins| ==> 0 <= inIdx[i] < |r.value| && r.value[inIdx[i]] == ins[i]
    ensures r.Ok? ==> forall i :: 0 <= i < |outs| ==> 0 <= outIdx[i] < |r.value| && r.value[outIdx[i]] == outs[i]
  {
    var n := |ins| + |outs|;
    var idx, vals := inIdx + outIdx, ins + outs;
    DevicePointersCorrect(n, idx, vals);
    assert forall i :: 0 <= i < |ins| ==> idx[i] == inIdx[i] && vals[i] == ins[i];
    assert forall i :: 0 <= i < |outs| ==> idx[|ins| + i] == outIdx[i] && vals[|ins| + i] == outs[i];
    DevicePointers(n, idx, vals)
  }

  /** The name slot `k` of the concatenated input/output index list was
      looked up by. */
  function BoundaryName(k: nat, inputCount: nat): string {
    if k < inputCount then InputName(k) else OutputName(k - inputCount)
  }

  lemma BoundaryNameInjective(a: nat, b: nat, inputCount: nat)
    ensures BoundaryName(a, inputCount) == BoundaryName(b, inputCount) ==> a == b
  {
    if BoundaryName(a, inputCount) == BoundaryName(b, inputCount) {
      if a < inputCount && b < inputCount {
        BindingNamesDistinct(a, b);
      } else if a < inputCount {
        BindingNamesDistinct(a, b - inputCount);
        assert false;
      } else if b < inputCount {
        BindingNamesDistinct(b, a - inputCount);
        assert false;
      } else {
        BindingNamesDistinct(a - inputCount, b - inputCount);
      }
    }
  }

  /** Looking up distinct names that all occur in the binding list gives
      in-range, pairwise distinct slots. */
  lemma {:induction false} LookupsDistinct(names: seq<string>, idx: seq<int>, inputCount: nat)
    requires forall k :: 0 <= k < |idx| ==> idx[k] == BindingIndex(names, BoundaryName(k, inputCount))
    requires forall k :: 0 <= k < |idx| ==> BoundaryName(k, inputCount) in names
    ensures InRange(idx, |names|)
    ensures Distinct(idx)
  {
    forall a, b | 0 <= a < b < |idx|
      ensures idx[a] != idx[b]
    {
      assert names[idx[a]] == BoundaryName(a, inputCount);
      assert names[idx[b]] == BoundaryName(b, inputCount);
      BoundaryNameInjective(a, b, inputCount);
    }
  }
}
