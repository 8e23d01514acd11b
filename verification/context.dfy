/** The TensorRT driver's `Context`: the configuration values resolved from
    the context properties (or, when a key is absent, the environment), and
    the rules the constructor applies to them. */
module TrtContext {
  import opened Status
  import opened Types

  datatype DeviceType = Gpu | Dla

  datatype PrecisionMode = Float32Mode | Float16Mode | Int8Mode

  /** The raw value of every key after the property-or-environment lookup.
      `deviceId` is the result of `atoi` on the raw string. */
  datatype Properties = Properties(
    deviceType: string,
    deviceId: int,
    precision: string,
    gpuFallback: bool,
    calibrationDatasetPath: string,
    calibrationTablePath: string,
    cudaOperations: string,
    hostOperations: string)

  datatype Context = Context(
    deviceType: DeviceType,
    deviceId: nat,
    precision: PrecisionMode,
    gpuFallback: bool,
    calibrationDatasetPath: string,
    calibrationTablePath: string,
    cudaOperations: seq<OperationKind>,
    hostOperations: seq<OperationKind>)

  /** The only operation name either allow-list accepts. */
  const SOFTMAX_NAME: string := "NNADAPTER_SOFTMAX"

  /** Concatenates pieces with a comma between consecutive ones. */
  function Join(pieces: seq<string>): string
    requires |pieces| >= 1
  {
    if |pieces| == 1 then pieces[0] else pieces[0] + "," + Join(pieces[1..])
  }

  /** Splits a string at every comma; the inverse of `Join`. */
  function Split(s: string): (pieces: seq<string>)
    ensures |pieces| >= 1
    ensures forall i :: 0 <= i < |pieces| ==> ',' !in pieces[i]
    ensures Join(pieces) == s
  {
    if |s| == 0 then [""]
    else if s[0] == ',' then
      var rest := Split(s[1..]);
      assert Join([""] + rest) == "" + "," + Join(rest) by {
        assert ([""] + rest)[1..] == rest;
      }
      [""] + rest
    else
      var rest := Split(s[1..]);
      var pieces := [[s[0]] + rest[0]] + rest[1..];
      assert Join(pieces) == s by {
        if |rest| == 1 {
          assert Join(pieces) == [s[0]] + rest[0];
        } else {
          assert pieces[1..] == rest[1..];
          assert Join(rest) == rest[0] + "," + Join(rest[1..]);
        }
      }
      pieces
  }

  /** A comma-free word is one piece. */
  lemma {:induction false} SplitWord(w: string)
    requires ',' !in w
    ensures Split(w) == [w]
    decreases |w|
  {
    if |w| > 0 {
      SplitWord(w[1..]);
      assert [w[0]] + w[1..] == w;
    }
  }

  /** A comma-free word followed by a comma is split off as the first piece. */
  lemma {:induction false} SplitLeadingWord(w: string, t: string)
    requires ',' !in w
    ensures Split(w + "," + t) == [w] + Split(t)
    decreases |w|
  {
    var s := w + "," + t;
    if |w| == 0 {
      assert s[0] == ',' && s[1..] == t;
    } else {
      assert s[0] == w[0] && s[1..] == w[1..] + "," + t;
      SplitLeadingWord(w[1..], t);
      assert [w[0]] + w[1..] == w;
    }
  }

  /** `Split` undoes `Join` on comma-free pieces, so the two are inverse. */
  lemma {:induction false} SplitJoin(pieces: seq<string>)
    requires |pieces| >= 1
    requires forall i :: 0 <= i < |pieces| ==> ',' !in pieces[i]
    ensures Split(Join(pieces)) == pieces
    decreases |pieces|
  {
    if |pieces| == 1 {
      SplitWord(pieces[0]);
    } else {
      SplitJoin(pieces[1..]);
      SplitLeadingWord(pieces[0], Join(pieces[1..]));
      assert [pieces[0]] + pieces[1..] == pieces;
    }
  }

  /** An allow-list of `n` comma-separated SOFTMAX names parses to `n`
      SOFTMAX kinds. */
  lemma SoftmaxListParses(n: nat)
    requires n >= 1
    ensures ParseOperationList(Join(seq(n, _ => SOFTMAX_NAME))) == Ok(seq(n, _ => Softmax))
  {
    var names := seq(n, _ => SOFTMAX_NAME);
    assert ',' !in SOFTMAX_NAME;
    SplitJoin(names);
    assert Join(names) != "" by {
      assert Split(Join(names)) != [""];
    }
    assert AllNamed(Split(Join(names)), SOFTMAX_NAME);
    var r := ParseOperationList(Join(names));
    assert r.Ok? && |r.value| == n;
    assert r.value == seq(n, _ => Softmax);
  }

  /** Parses one comma-separated allow-list: an empty string is the empty
      list, and every entry must name SOFTMAX. */
  function ParseOperationList(s: string): (r: Result<seq<OperationKind>>)
    ensures r.Ok? <==> s == "" || AllNamed(Split(s), SOFTMAX_NAME)
    ensures r.Fatal? ==> r.fault == UnsupportedOperationName
    ensures r.Ok? && s == "" ==> r.value == []
    ensures r.Ok? && s != "" ==> |r.value| == |Split(s)|
    ensures r.Ok? ==> forall i :: 0 <= i < |r.value| ==> r.value[i] == Softmax
  {
    if s == "" then Ok([]) else ParseNames(Split(s))
  }

  predicate AllNamed(names: seq<string>, name: string) {
    forall i :: 0 <= i < |names| ==> names[i] == name
  }

  function ParseNames(names: seq<string>): (r: Result<seq<OperationKind>>)
    ensures r.Ok? <==> AllNamed(names, SOFTMAX_NAME)
    ensures r.Fatal? ==> r.fault == UnsupportedOperationName
    ensures r.Ok? ==> |r.value| == |names| && forall i :: 0 <= i < |r.value| ==> r.value[i] == Softmax
  {
    if |names| == 0 then Ok([])
    else if names[0] != SOFTMAX_NAME then Fatal(UnsupportedOperationName)
    else
      var rest :- ParseNames(names[1..]);
      assert forall i :: 1 <= i < |names| ==> names[i] == names[1..][i - 1];
      Ok([Softmax] + rest)
  }

  function ParseDeviceType(s: string): (r: Result<DeviceType>)
    ensures r.Ok? <==> s in {"", "GPU", "DLA"}
    ensures r.Ok? ==> (r.value == Dla <==> s == "DLA")
    ensures r.Fatal? ==> r.fault == UnsupportedDeviceType
  {
    if s == "" then Ok(Gpu)
    else if s == "GPU" then Ok(Gpu)
    else if s == "DLA" then Ok(Dla)
    else Fatal(UnsupportedDeviceType)
  }

  function ParsePrecision(s: string): (r: Result<PrecisionMode>)
    ensures r.Ok? <==> s in {"", "float32", "float16", "int8"}
    ensures r.Ok? ==> (r.value == Float16Mode <==> s == "float16")
    ensures r.Ok? ==> (r.value == Int8Mode <==> s == "int8")
    ensures r.Fatal? ==> r.fault == UnsupportedPrecision
  {
    if s == "" then Ok(Float32Mode)
    else if s == "float32" then Ok(Float32Mode)
    else if s == "float16" then Ok(Float16Mode)
    else if s == "int8" then Ok(Int8Mode)
    else Fatal(UnsupportedPrecision)
  }

  /** Context::Context: the device id is clamped at zero, the device type and
      precision strings must be recognised (an empty one keeps the default
      GPU / float32), int8 needs a calibration dataset or table, and both
      allow-lists may only name SOFTMAX. */
  function NewContext(p: Properties): (r: Result<Context>)
    ensures r.Ok? <==>
      && p.deviceType in {"", "GPU", "DLA"}
      && p.precision in {"", "float32", "float16", "int8"}
      && (p.precision == "int8" ==> p.calibrationDatasetPath != "" || p.calibrationTablePath != "")
      && ParseOperationList(p.cudaOperations).Ok?
      && ParseOperationList(p.hostOperations).Ok?
    ensures r.Ok? ==> r.value.deviceId == (if p.deviceId > 0 then p.deviceId else 0)
    ensures r.Ok? ==> (r.value.deviceType == Dla <==> p.deviceType == "DLA")
    ensures r.Ok? ==> (r.value.precision == Int8Mode <==> p.precision == "int8")
    ensures r.Ok? ==> (r.value.precision == Float16Mode <==> p.precision == "float16")
    ensures r.Ok? ==> r.value.gpuFallback == p.gpuFallback
    ensures r.Ok? && r.value.precision == Int8Mode ==>
              r.value.calibrationDatasetPath != "" || r.value.calibrationTablePath != ""
    ensures r.Ok? ==> forall i :: 0 <= i < |r.value.cudaOperations| ==> r.value.cudaOperations[i] == Softmax
    ensures r.Ok? ==> forall i :: 0 <= i < |r.value.hostOperations| ==> r.value.hostOperations[i] == Softmax
    ensures r.Ok? ==> r.value.cudaOperations == ParseOperationList(p.cudaOperations).value
    ensures r.Ok? ==> r.value.hostOperations == ParseOperationList(p.hostOperations).value
    ensures r.Ok? ==> r.value.calibrationDatasetPath == p.calibrationDatasetPath
    ensures r.Ok? ==> r.value.calibrationTablePath == p.calibrationTablePath
  {
    var deviceType :- ParseDeviceType(p.deviceType);
    var deviceId := if p.deviceId > 0 then p.deviceId else 0;
    var precision :- ParsePrecision(p.precision);
    :- Need(precision != Int8Mode || p.calibrationDatasetPath != "" || p.calibrationTablePath != "",
            MissingCalibration);
    var cudaOperations :- ParseOperationList(p.cudaOperations);
    var hostOperations :- ParseOperationList(p.hostOperations);
    Ok(Context(deviceType, deviceId, precision, p.gpuFallback,
               p.calibrationDatasetPath, p.calibrationTablePath, cudaOperations, hostOperations))
  }
}
