/** The cache layout of `Program::SerializeToCache` and
    `Program::DeserializeFromCache`.

    The buffer is a `size_t` sub-model count followed, per sub-model, by the
    back-end id (`int`), the serialised sub-graph (a byte vector), the
    ownership flag (`bool`), the input and output index lists (`int`
    vectors) and the sub-model's own compiled bytes (a byte vector). A
    `size_t` is 8 little-endian bytes, an `int` 4 little-endian bytes in
    two's complement, a `bool` one byte, and a vector its `size_t` length
    followed by its elements: the layout the size computation of
    `SerializeToCache` accounts for. The sub-graph codec
    (`SerializeModel`/`DeserializeModel`) is a parameter. */
module CacheCodec {
  import opened Status
  import opened Types

  /** 2^64: one more than the largest `size_t`. */
  const SIZE_LIMIT: nat := 0x1_0000_0000_0000_0000

  /** 2^32: the modulus of a 32-bit two's-complement `int`. */
  const INT32_MODULUS: nat := 0x1_0000_0000

  function Pow256(k: nat): (p: nat)
    ensures p > 0
  {
    if k == 0 then 1 else 256 * Pow256(k - 1)
  }

  /** The `k` low-order bytes of `n`, least significant first. */
  function LittleEndian(n: nat, k: nat): (bs: seq<byte>)
    ensures |bs| == k
  {
    if k == 0 then [] else [n % 256] + LittleEndian(n / 256, k - 1)
  }

  /** The number whose little-endian bytes are `bs`. */
  function FromLittleEndian(bs: seq<byte>): (n: nat)
    ensures n < Pow256(|bs|)
  {
    if |bs| == 0 then 0 else bs[0] + 256 * FromLittleEndian(bs[1..])
  }

  lemma {:induction false} LittleEndianRoundTrip(n: nat, k: nat)
    requires n < Pow256(k)
    ensures FromLittleEndian(LittleEndian(n, k)) == n
  {
    if k > 0 {
      assert n / 256 < Pow256(k - 1);
      LittleEndianRoundTrip(n / 256, k - 1);
      var bs := LittleEndian(n, k);
      assert bs[1..] == LittleEndian(n / 256, k - 1);
    }
  }

  // ---------------------------------------------------------------- encoders

  /** A `size_t`; a count that does not fit wraps as the C conversion would. */
  function EncodeSize(n: nat): (bs: seq<byte>)
  {
    LittleEndian(n % SIZE_LIMIT, 8)
  }

  function EncodeInt32(x: int32): (bs: seq<byte>)
  {
    LittleEndian(if x < 0 then x + INT32_MODULUS else x, 4)
  }

  function EncodeBool(b: bool): (bs: seq<byte>)
  {
    [if b then 1 else 0]
  }

  function EncodeBytes(v: seq<byte>): (bs: seq<byte>)
  {
    EncodeSize(|v|) + v
  }

  function Int32Elements(v: seq<int32>): (bs: seq<byte>)
    ensures |bs| == 4 * |v|
  {
    if |v| == 0 then [] else EncodeInt32(v[0]) + Int32Elements(v[1..])
  }

  function EncodeInt32s(v: seq<int32>): (bs: seq<byte>)
  {
    EncodeSize(|v|) + Int32Elements(v)
  }

  /** One sub-model's fields, in the order `SerializeToCache` writes them. */
  function EncodeSubModel(sm: SubModel, cache: seq<byte>, encodeModel: Model -> seq<byte>): (bs: seq<byte>)
  {
    EncodeInt32(sm.deviceId) + (EncodeBytes(encodeModel(sm.model)) + (EncodeBool(sm.owned)
    + (EncodeInt32s(sm.inputIndices) + (EncodeInt32s(sm.outputIndices) + EncodeBytes(cache)))))
  }

  function EncodeSubModels(subs: seq<SubModel>, caches: seq<seq<byte>>, encodeModel: Model -> seq<byte>): (bs: seq<byte>)
    requires |subs| == |caches|
  {
    if |subs| == 0 then []
    else EncodeSubModel(subs[0], caches[0], encodeModel) + EncodeSubModels(subs[1..], caches[1..], encodeModel)
  }

  /** Program::SerializeToCache: the count, then every sub-model in order. */
  function Serialize(subs: seq<SubModel>, caches: seq<seq<byte>>, encodeModel: Model -> seq<byte>): (bs: seq<byte>)
    requires |subs| == |caches|
    ensures |bs| >= 8 && FromLittleEndian(bs[..8]) == |subs| % SIZE_LIMIT
  {
    var records := EncodeSubModels(subs, caches, encodeModel);
    HeaderReadsBack(|subs|, records);
    EncodeSize(|subs|) + records
  }

  /** The eight bytes of an encoded `size_t` read back, whatever follows. */
  lemma HeaderReadsBack(n: nat, rest: seq<byte>)
    ensures |EncodeSize(n) + rest| >= 8
    ensures FromLittleEndian((EncodeSize(n) + rest)[..8]) == n % SIZE_LIMIT
  {
    assert Pow256(8) == SIZE_LIMIT;
    LittleEndianRoundTrip(n % SIZE_LIMIT, 8);
    assert (EncodeSize(n) + rest)[..8] == EncodeSize(n);
  }

  // ---------------------------------------------------------------- decoders

  /** A `Deserialize` helper's result: the value read and the bytes left. */
  type Read<T> = Result<(T, seq<byte>)>

  function DecodeSize(bs: seq<byte>): (r: Read<nat>)
    ensures r.Ok? <==> |bs| >= 8
    ensures r.Fatal? ==> r.fault == CacheTruncated
    ensures r.Ok? ==> r.value.0 < SIZE_LIMIT && r.value.1 == bs[8..]
  {
    if |bs| < 8 then Fatal(CacheTruncated)
    else Ok((FromLittleEndian(bs[..8]), bs[8..]))
  }

  function DecodeInt32(bs: seq<byte>): (r: Read<int32>)
    ensures r.Ok? <==> |bs| >= 4
    ensures r.Fatal? ==> r.fault == CacheTruncated
    ensures r.Ok? ==> r.value.1 == bs[4..]
  {
    if |bs| < 4 then Fatal(CacheTruncated)
    else
      var u := FromLittleEndian(bs[..4]);
      Ok((if u >= 0x8000_0000 then u - INT32_MODULUS else u, bs[4..]))
  }

  function DecodeBool(bs: seq<byte>): (r: Read<bool>)
    ensures r.Ok? <==> |bs| >= 1
    ensures r.Fatal? ==> r.fault == CacheTruncated
    ensures r.Ok? ==> r.value.1 == bs[1..]
  {
    if |bs| < 1 then Fatal(CacheTruncated) else Ok((bs[0] != 0, bs[1..]))
  }

  function DecodeBytes(bs: seq<byte>): (r: Read<seq<byte>>)
    ensures r.Fatal? ==> r.fault == CacheTruncated
    ensures r.Ok? ==> |r.value.0| + |r.value.1| + 8 == |bs|
  {
    var (n, rest) :- DecodeSize(bs);
    if |rest| < n then Fatal(CacheTruncated) else Ok((rest[..n], rest[n..]))
  }

  function DecodeInt32Elements(bs: seq<byte>, n: nat): (r: Read<seq<int32>>)
    ensures r.Fatal? ==> r.fault == CacheTruncated
    ensures r.Ok? ==> |r.value.0| == n && |r.value.1| + 4 * n == |bs|
  {
    if n == 0 then Ok(([], bs))
    else
      var (x, rest) :- DecodeInt32(bs);
      var (xs, rest') :- DecodeInt32Elements(rest, n - 1);
      Ok(([x] + xs, rest'))
  }

  function DecodeInt32s(bs: seq<byte>): (r: Read<seq<int32>>)
    ensures r.Fatal? ==> r.fault == CacheTruncated
  {
    var (n, rest) :- DecodeSize(bs);
    DecodeInt32Elements(rest, n)
  }

  /** One sub-model, in the order `DeserializeFromCache` reads it: the
      sub-graph is decoded as soon as its bytes are read, and a sub-graph
      that does not decode aborts. */
  function DecodeSubModel(bs: seq<byte>, decodeModel: seq<byte> -> Option<Model>): (r: Read<(SubModel, seq<byte>)>)
    ensures r.Fatal? ==> r.fault in {CacheTruncated, ModelDecodeFailed}
    ensures r.Ok? ==> |r.value.1| < |bs|
  {
    var (deviceId, bs1) :- DecodeInt32(bs);
    var (modelBytes, bs2) :- DecodeBytes(bs1);
    var model :- match decodeModel(modelBytes)
                 case Some(m) => Ok(m)
                 case None => Fatal(ModelDecodeFailed);
    var (owned, bs3) :- DecodeBool(bs2);
    var (inputIndices, bs4) :- DecodeInt32s(bs3);
    var (outputIndices, bs5) :- DecodeInt32s(bs4);
    var (cache, bs6) :- DecodeBytes(bs5);
    Ok(((SubModel(deviceId, model, owned, inputIndices, outputIndices), cache), bs6))
  }

  function DecodeSubModels(bs: seq<byte>, n: nat, decodeModel: seq<byte> -> Option<Model>): (r: Read<(seq<SubModel>, seq<seq<byte>>)>)
    ensures r.Fatal? ==> r.fault in {CacheTruncated, ModelDecodeFailed}
    ensures r.Ok? ==> |r.value.0.0| == |r.value.0.1| == n
    decreases n
  {
    if n == 0 then Ok((([], []), bs))
    else
      var (first, rest) :- DecodeSubModel(bs, decodeModel);
      var (others, rest') :- DecodeSubModels(rest, n - 1, decodeModel);
      Ok((([first.0] + others.0, [first.1] + others.1), rest'))
  }

  /** Program::DeserializeFromCache: the count, that many sub-models, and
      then nothing: bytes left over abort. */
  function Deserialize(buffer: seq<byte>, decodeModel: seq<byte> -> Option<Model>): (r: Result<(seq<SubModel>, seq<seq<byte>>)>)
    ensures r.Fatal? ==> r.fault in {CacheTruncated, ModelDecodeFailed, CacheTrailingBytes}
    ensures |buffer| < 8 ==> r == Fatal(CacheTruncated)
    ensures r.Ok? ==> |buffer| >= 8 && |r.value.0| == |r.value.1| == FromLittleEndian(buffer[..8])
  {
    var (n, bs) :- DecodeSize(buffer);
    var (decoded, rest) :- DecodeSubModels(bs, n, decodeModel);
    :- Need(|rest| == 0, CacheTrailingBytes);
    Ok(decoded)
  }

  // ---------------------------------------------------------------- properties

  lemma AppendAssoc(a: seq<byte>, b: seq<byte>, c: seq<byte>)
    ensures (a + b) + c == a + (b + c)
  {
  }

  lemma SizeRoundTrip(n: nat, rest: seq<byte>)
    requires n < SIZE_LIMIT
    ensures DecodeSize(EncodeSize(n) + rest) == Ok((n, rest))
  {
    assert Pow256(8) == SIZE_LIMIT;
    LittleEndianRoundTrip(n, 8);
    assert (EncodeSize(n) + rest)[..8] == EncodeSize(n);
    assert (EncodeSize(n) + rest)[8..] == rest;
  }

  lemma Int32RoundTrip(x: int32, rest: seq<byte>)
    ensures DecodeInt32(EncodeInt32(x) + rest) == Ok((x, rest))
  {
    assert Pow256(4) == INT32_MODULUS;
    LittleEndianRoundTrip(if x < 0 then x + INT32_MODULUS else x, 4);
    assert (EncodeInt32(x) + rest)[..4] == EncodeInt32(x);
    assert (EncodeInt32(x) + rest)[4..] == rest;
  }

  lemma BoolRoundTrip(b: bool, rest: seq<byte>)
    ensures DecodeBool(EncodeBool(b) + rest) == Ok((b, rest))
  {
    assert (EncodeBool(b) + rest)[1..] == rest;
  }

  lemma BytesRoundTrip(v: seq<byte>, rest: seq<byte>)
    requires |v| < SIZE_LIMIT
    ensures DecodeBytes(EncodeBytes(v) + rest) == Ok((v, rest))
  {
    assert EncodeBytes(v) + rest == EncodeSize(|v|) + (v + rest);
    SizeRoundTrip(|v|, v + rest);
    assert (v + rest)[..|v|] == v;
    assert (v + rest)[|v|..] == rest;
  }

  lemma {:induction false} Int32ElementsRoundTrip(v: seq<int32>, rest: seq<byte>)
    ensures DecodeInt32Elements(Int32Elements(v) + rest, |v|) == Ok((v, rest))
    decreases |v|
  {
    if |v| > 0 {
      var tail := Int32Elements(v[1..]) + rest;
      assert Int32Elements(v) == EncodeInt32(v[0]) + Int32Elements(v[1..]);
      AppendAssoc(EncodeInt32(v[0]), Int32Elements(v[1..]), rest);
      Int32RoundTrip(v[0], tail);
      Int32ElementsRoundTrip(v[1..], rest);
      assert DecodeInt32(Int32Elements(v) + rest) == Ok((v[0], tail));
      assert DecodeInt32Elements(tail, |v| - 1) == Ok((v[1..], rest));
      assert [v[0]] + v[1..] == v;
    } else {
      assert Int32Elements(v) + rest == rest;
    }
  }

  lemma Int32sRoundTrip(v: seq<int32>, rest: seq<byte>)
    requires |v| < SIZE_LIMIT
    ensures DecodeInt32s(EncodeInt32s(v) + rest) == Ok((v, rest))
  {
    assert EncodeInt32s(v) + rest == EncodeSize(|v|) + (Int32Elements(v) + rest);
    SizeRoundTrip(|v|, Int32Elements(v) + rest);
    Int32ElementsRoundTrip(v, rest);
  }

  /** Every length the layout writes fits a `size_t`. */
  predicate Encodable(subs: seq<SubModel>, caches: seq<seq<byte>>, encodeModel: Model -> seq<byte>)
    requires |subs| == |caches|
  {
    && |subs| < SIZE_LIMIT
    && forall i :: 0 <= i < |subs| ==>
         && |encodeModel(subs[i].model)| < SIZE_LIMIT
         && |subs[i].inputIndices| < SIZE_LIMIT
         && |subs[i].outputIndices| < SIZE_LIMIT
         && |caches[i]| < SIZE_LIMIT
  }

  /** The sub-graph codec gives back every sub-graph it encoded. */
  predicate ModelCodecSound(subs: seq<SubModel>, encodeModel: Model -> seq<byte>, decodeModel: seq<byte> -> Option<Model>) {
    forall i :: 0 <= i < |subs| ==> decodeModel(encodeModel(subs[i].model)) == Some(subs[i].model)
  }

  lemma SubModelRoundTrip(sm: SubModel, cache: seq<byte>, rest: seq<byte>,
                          encodeModel: Model -> seq<byte>, decodeModel: seq<byte> -> Option<Model>)
    requires |encodeModel(sm.model)| < SIZE_LIMIT && |sm.inputIndices| < SIZE_LIMIT
    requires |sm.outputIndices| < SIZE_LIMIT && |cache| < SIZE_LIMIT
    requires decodeModel(encodeModel(sm.model)) == Some(sm.model)
    ensures DecodeSubModel(EncodeSubModel(sm, cache, encodeModel) + rest, decodeModel) == Ok(((sm, cache), rest))
  {
    var mb := encodeModel(sm.model);
    var r5 := EncodeBytes(cache) + rest;
    var r4 := EncodeInt32s(sm.outputIndices) + r5;
    var r3 := EncodeInt32s(sm.inputIndices) + r4;
    var r2 := EncodeBool(sm.owned) + r3;
    var r1 := EncodeBytes(mb) + r2;
    AppendAssoc(EncodeInt32s(sm.outputIndices), EncodeBytes(cache), rest);
    AppendAssoc(EncodeInt32s(sm.inputIndices), EncodeInt32s(sm.outputIndices) + EncodeBytes(cache), rest);
    AppendAssoc(EncodeBool(sm.owned), EncodeInt32s(sm.inputIndices) + (EncodeInt32s(sm.outputIndices) + EncodeBytes(cache)), rest);
    AppendAssoc(EncodeBytes(mb), EncodeBool(sm.owned) + (EncodeInt32s(sm.inputIndices) + (EncodeInt32s(sm.outputIndices) + EncodeBytes(cache))), rest);
    AppendAssoc(EncodeInt32(sm.deviceId), EncodeBytes(mb) + (EncodeBool(sm.owned) + (EncodeInt32s(sm.inputIndices) + (EncodeInt32s(sm.outputIndices) + EncodeBytes(cache)))), rest);
    Int32RoundTrip(sm.deviceId, r1);
    BytesRoundTrip(mb, r2);
    BoolRoundTrip(sm.owned, r3);
    Int32sRoundTrip(sm.inputIndices, r4);
    Int32sRoundTrip(sm.outputIndices, r5);
    BytesRoundTrip(cache, rest);
  }

  /** Encodability and codec soundness carry over to the tail. */
  lemma TailEncodable(subs: seq<SubModel>, caches: seq<seq<byte>>,
                      encodeModel: Model -> seq<byte>, decodeModel: seq<byte> -> Option<Model>)
    requires |subs| == |caches| > 0 && Encodable(subs, caches, encodeModel)
    requires ModelCodecSound(subs, encodeModel, decodeModel)
    ensures Encodable(subs[1..], caches[1..], encodeModel)
    ensures ModelCodecSound(subs[1..], encodeModel, decodeModel)
  {
    assert forall i :: 1 <= i < |subs| ==> subs[1..][i - 1] == subs[i] && caches[1..][i - 1] == caches[i];
  }

  /** Decoding `n` sub-models is decoding the first, then `n - 1` more. */
  lemma DecodeSubModelsCons(bs: seq<byte>, n: nat, decodeModel: seq<byte> -> Option<Model>,
                            first: (SubModel, seq<byte>), tail: seq<byte>,
                            others: (seq<SubModel>, seq<seq<byte>>), rest: seq<byte>)
    requires n > 0
    requires DecodeSubModel(bs, decodeModel) == Ok((first, tail))
    requires DecodeSubModels(tail, n - 1, decodeModel) == Ok((others, rest))
    ensures DecodeSubModels(bs, n, decodeModel) == Ok((([first.0] + others.0, [first.1] + others.1), rest))
  {
  }

  /** One step of `SubModelsRoundTrip`: the first sub-model decodes, and so
      do the others. */
  lemma SubModelsStep(subs: seq<SubModel>, caches: seq<seq<byte>>, rest: seq<byte>,
                      encodeModel: Model -> seq<byte>, decodeModel: seq<byte> -> Option<Model>)
    requires |subs| == |caches| > 0
    requires |encodeModel(subs[0].model)| < SIZE_LIMIT && |subs[0].inputIndices| < SIZE_LIMIT
    requires |subs[0].outputIndices| < SIZE_LIMIT && |caches[0]| < SIZE_LIMIT
    requires decodeModel(encodeModel(subs[0].model)) == Some(subs[0].model)
    requires DecodeSubModels(EncodeSubModels(subs[1..], caches[1..], encodeModel) + rest, |subs| - 1, decodeModel)
             == Ok(((subs[1..], caches[1..]), rest))
    ensures DecodeSubModels(EncodeSubModels(subs, caches, encodeModel) + rest, |subs|, decodeModel) == Ok(((subs, caches), rest))
  {
    var head := EncodeSubModel(subs[0], caches[0], encodeModel);
    var tail := EncodeSubModels(subs[1..], caches[1..], encodeModel) + rest;
    AppendAssoc(head, EncodeSubModels(subs[1..], caches[1..], encodeModel), rest);
    SubModelRoundTrip(subs[0], caches[0], tail, encodeModel, decodeModel);
    DecodeSubModelsCons(head + tail, |subs|, decodeModel, (subs[0], caches[0]), tail, (subs[1..], caches[1..]), rest);
    ConsSplit(subs);
    ConsSplit(caches);
  }

  lemma ConsSplit<T>(s: seq<T>)
    requires |s| > 0
    ensures [s[0]] + s[1..] == s
  {
  }

  lemma {:induction false} SubModelsRoundTrip(subs: seq<SubModel>, caches: seq<seq<byte>>, rest: seq<byte>,
                                              encodeModel: Model -> seq<byte>, decodeModel: seq<byte> -> Option<Model>)
    requires |subs| == |caches| && Encodable(subs, caches, encodeModel)
    requires ModelCodecSound(subs, encodeModel, decodeModel)
    ensures DecodeSubModels(EncodeSubModels(subs, caches, encodeModel) + rest, |subs|, decodeModel) == Ok(((subs, caches), rest))
    decreases |subs|
  {
    if |subs| > 0 {
      TailEncodable(subs, caches, encodeModel, decodeModel);
      SubModelsRoundTrip(subs[1..], caches[1..], rest, encodeModel, decodeModel);
      SubModelsStep(subs, caches, rest, encodeModel, decodeModel);
    } else {
      assert EncodeSubModels(subs, caches, encodeModel) + rest == rest;
    }
  }

  /** Deserialising a serialised cache gives back the same sub-models (back-end
      id, sub-graph, ownership flag, index lists) and sub-model caches, in
      order, and consumes the whole buffer. */
  lemma CacheRoundTrip(subs: seq<SubModel>, caches: seq<seq<byte>>,
                       encodeModel: Model -> seq<byte>, decodeModel: seq<byte> -> Option<Model>)
    requires |subs| == |caches| && Encodable(subs, caches, encodeModel)
    requires ModelCodecSound(subs, encodeModel, decodeModel)
    ensures Deserialize(Serialize(subs, caches, encodeModel), decodeModel) == Ok((subs, caches))
  {
    var body := EncodeSubModels(subs, caches, encodeModel);
    SizeRoundTrip(|subs|, body);
    SubModelsRoundTrip(subs, caches, [], encodeModel, decodeModel);
    assert body + [] == body;
  }

  /** Bytes after a complete cache are a corruption: deserialisation aborts. */
  lemma TrailingBytesRejected(subs: seq<SubModel>, caches: seq<seq<byte>>, extra: seq<byte>,
                              encodeModel: Model -> seq<byte>, decodeModel: seq<byte> -> Option<Model>)
    requires |subs| == |caches| && Encodable(subs, caches, encodeModel)
    requires ModelCodecSound(subs, encodeModel, decodeModel)
    requires |extra| > 0
    ensures Deserialize(Serialize(subs, caches, encodeModel) + extra, decodeModel) == Fatal(CacheTrailingBytes)
  {
    var body := EncodeSubModels(subs, caches, encodeModel);
    assert Serialize(subs, caches, encodeModel) + extra == EncodeSize(|subs|) + (body + extra);
    SizeRoundTrip(|subs|, body + extra);
    SubModelsRoundTrip(subs, caches, extra, encodeModel, decodeModel);
  }

  /** The buffer size `SerializeToCache` computes before writing: one
      `size_t`, and per sub-model an `int`, a `bool`, four `size_t` length
      prefixes and the payloads. */
  function ComputedSize(subs: seq<SubModel>, caches: seq<seq<byte>>, encodeModel: Model -> seq<byte>): (n: nat)
    requires |subs| == |caches|
  {
    if |subs| == 0 then 8
    else ComputedSize(subs[..|subs| - 1], caches[..|caches| - 1], encodeModel)
         + 4 + 1 + 8 * 4 + |encodeModel(subs[|subs| - 1].model)|
         + 4 * |subs[|subs| - 1].inputIndices| + 4 * |subs[|subs| - 1].outputIndices| + |caches[|caches| - 1]|
  }

  lemma {:induction false} EncodedLengthSnoc(subs: seq<SubModel>, caches: seq<seq<byte>>, encodeModel: Model -> seq<byte>)
    requires |subs| == |caches| > 0
    ensures |EncodeSubModels(subs, caches, encodeModel)|
            == |EncodeSubModels(subs[..|subs| - 1], caches[..|caches| - 1], encodeModel)|
               + |EncodeSubModel(subs[|subs| - 1], caches[|caches| - 1], encodeModel)|
    decreases |subs|
  {
    if |subs| > 1 {
      var n := |subs| - 1;
      EncodedLengthSnoc(subs[1..], caches[1..], encodeModel);
      assert subs[1..][..n - 1] == subs[..n][1..];
      assert caches[1..][..n - 1] == caches[..n][1..];
    } else {
      assert subs[..0] == [] && caches[..0] == [];
    }
  }

  /** The buffer `SerializeToCache` sizes in advance is exactly the buffer it
      fills. */
  lemma {:induction false} SerializedSize(subs: seq<SubModel>, caches: seq<seq<byte>>, encodeModel: Model -> seq<byte>)
    requires |subs| == |caches|
    ensures |Serialize(subs, caches, encodeModel)| == ComputedSize(subs, caches, encodeModel)
    decreases |subs|
  {
    if |subs| > 0 {
      var n := |subs| - 1;
      EncodedLengthSnoc(subs, caches, encodeModel);
      SerializedSize(subs[..n], caches[..n], encodeModel);
    }
  }
}
