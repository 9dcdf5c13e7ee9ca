/**
 * The host-side Model of Model.py: a dict with an 'angular_momentum' value and
 * a list of layer dicts, validated by _recalculate, serialised by to_struct
 * into the kernel's input record, and rebuilt by from_struct from one record of
 * _model_dtype read back from the kernel's output buffer.
 */
module Records {
  import opened Wrappers
  import opened Bytes
  import Layout

  datatype Abc = Abc(a: Double, b: Double, c: Double)

  /** One dict of the 'layers' list; each key may be absent. */
  datatype Layer = Layer(abc: Option<Abc>, r: Option<Double>, density: Option<Double>)

  /** The keys of a model dict that the core reads or from_struct produces; each may be absent. */
  datatype ModelDict = ModelDict(
    angularMomentum: Option<Double>,
    layers: Option<seq<Layer>>,
    relEquipotentialErr: Option<Double>,
    totalEnergy: Option<Double>)

  /**
   * np.cbrt(a * b * c) and np.isclose(computed, given, rtol=1e-8). Their
   * floating-point behaviour is not modelled; every result here holds for
   * whatever functions these are.
   */
  datatype Numerics = Numerics(
    cbrtOfProduct: (Double, Double, Double) -> Double,
    isClose: (Double, Double) -> bool)

  function VolumetricRadius(abc: Abc, num: Numerics): Double
  {
    num.cbrtOfProduct(abc.a, abc.b, abc.c)
  }

  /** The ValueErrors of _recalculate, and the KeyError of a dict without 'layers'. */
  datatype ModelError = MissingAbcOrR | InconsistentAbcAndR | MissingLayers

  // ---------------------------------------------------------------------------
  // _recalculate
  // ---------------------------------------------------------------------------

  /** A layer _recalculate accepts: it has a shape, and a radius given with it agrees. */
  predicate Admissible(l: Layer, num: Numerics)
  {
    && (l.abc.Some? || l.r.Some?)
    && (l.abc.Some? && l.r.Some? ==> num.isClose(VolumetricRadius(l.abc.value, num), l.r.value))
  }

  predicate Complete(l: Layer)
  {
    l.abc.Some? && l.r.Some?
  }

  /** What validation keeps: density always, and whichever of abc and r was given. */
  predicate Keeps(given: Layer, l: Layer)
  {
    && l.density == given.density
    && (given.abc.Some? ==> l.abc == given.abc)
    && (given.r.Some? ==> l.r == given.r)
  }

  /** What validation derives: abc = (r, r, r) from r, and r = cbrt(a*b*c) from abc. */
  predicate Derives(given: Layer, l: Layer, num: Numerics)
  {
    && (given.abc.None? && given.r.Some? ==> l.abc == Some(Abc(given.r.value, given.r.value, given.r.value)))
    && (given.abc.Some? && given.r.None? ==> l.r == Some(VolumetricRadius(given.abc.value, num)))
  }

  /** The decision table _recalculate applies to one layer. */
  function NormalizeLayer(l: Layer, num: Numerics): (res: Result<Layer, ModelError>)
    ensures res.Success? <==> Admissible(l, num)
    ensures res.Success? ==> Complete(res.value) && Keeps(l, res.value) && Derives(l, res.value, num)
    ensures l.abc.None? && l.r.None? ==> res == Failure(MissingAbcOrR)
    ensures l.abc.Some? && l.r.Some? && !Admissible(l, num) ==> res == Failure(InconsistentAbcAndR)
  {
    if l.abc.None? then
      if l.r.None? then Failure(MissingAbcOrR)
      else Success(l.(abc := Some(Abc(l.r.value, l.r.value, l.r.value))))
    else
      var r := VolumetricRadius(l.abc.value, num);
      if l.r.None? then Success(l.(r := Some(r)))
      else if !num.isClose(r, l.r.value) then Failure(InconsistentAbcAndR)
      else Success(l)
  }

  /** Index of the first layer _recalculate rejects, or |ls| when it accepts them all. */
  function FirstInadmissible(ls: seq<Layer>, num: Numerics): (k: nat)
    ensures k <= |ls|
    ensures forall j :: 0 <= j < k ==> Admissible(ls[j], num)
    ensures k < |ls| ==> !Admissible(ls[k], num)
  {
    if ls == [] then 0
    else if !Admissible(ls[0], num) then 0
    else 1 + FirstInadmissible(ls[1..], num)
  }

  lemma FirstInadmissibleAt(ls: seq<Layer>, num: Numerics, i: nat)
    requires i <= |ls|
    requires forall j :: 0 <= j < i ==> Admissible(ls[j], num)
    requires i < |ls| ==> !Admissible(ls[i], num)
    ensures FirstInadmissible(ls, num) == i
  {
  }

  /** The layer list after a _recalculate that returns normally, or the error it raises. */
  function RecalculateAll(ls: seq<Layer>, num: Numerics): (res: Result<seq<Layer>, ModelError>)
    ensures res.Success? <==> forall i :: 0 <= i < |ls| ==> Admissible(ls[i], num)
    ensures res.Success? ==> |res.value| == |ls| && forall i :: 0 <= i < |ls| ==>
      Complete(res.value[i]) && Keeps(ls[i], res.value[i]) && Derives(ls[i], res.value[i], num)
    ensures res.Failure? ==> var k := FirstInadmissible(ls, num);
      k < |ls| && Failure(res.error) == NormalizeLayer(ls[k], num)
  {
    var k := FirstInadmissible(ls, num);
    if k < |ls| then Failure(NormalizeLayer(ls[k], num).error)
    else Success(seq(|ls|, i requires 0 <= i < |ls| => NormalizeLayer(ls[i], num).value))
  }

  // ---------------------------------------------------------------------------
  // Byte images
  // ---------------------------------------------------------------------------

  /** The key whose absence makes to_struct raise KeyError on this layer, in lookup order. */
  function MissingLayerKey(l: Layer): Option<string>
  {
    if l.abc.None? then Some("abc")
    else if l.r.None? then Some("r")
    else if l.density.None? then Some("density")
    else None
  }

  /** struct.pack('ddddd', a, b, c, r, density). */
  function LayerBytes(l: Layer): (b: seq<byte>)
    requires MissingLayerKey(l).None?
    ensures |b| == Layout.LayerSize
  {
    l.abc.value.a + l.abc.value.b + l.abc.value.c + l.r.value + l.density.value
  }

  datatype StructError = MissingKey(key: string) | LayerCountOutOfRange

  function LayersBytes(ls: seq<Layer>): Result<seq<byte>, StructError>
  {
    if ls == [] then Success([])
    else match MissingLayerKey(ls[0])
      case Some(k) => Failure(MissingKey(k))
      case None => Prepend(LayerBytes(ls[0]), LayersBytes(ls[1..]))
  }

  /** The bytes Model.to_struct returns, or the exception it raises. */
  function Serialize(d: ModelDict): Result<seq<byte>, StructError>
  {
    if d.angularMomentum.None? then Failure(MissingKey("angular_momentum"))
    else if d.layers.None? then Failure(MissingKey("layers"))
    else if |d.layers.value| >= 0x1_0000_0000 then Failure(LayerCountOutOfRange)
    else
      var header := d.angularMomentum.value + U32ToBytes(|d.layers.value| as uint32) + Zeros(Layout.ToStructPadding);
      Prepend(header, LayersBytes(d.layers.value))
  }

  // ---------------------------------------------------------------------------
  // The record of _model_dtype
  // ---------------------------------------------------------------------------

  datatype LayerRecord = LayerRecord(a: Double, b: Double, c: Double, r: Double, density: Double)

  /** One element of a numpy array of Model._model_dtype (and of the kernel's Model struct). */
  datatype ModelRecord = ModelRecord(
    angularMomentum: Double,
    numLayers: uint32,
    pad: seq<byte>,
    layers: seq<LayerRecord>,
    relEquipotentialErr: Double,
    totalEnergy: Double)

  predicate WellFormed(m: ModelRecord)
  {
    |m.pad| == 4 && |m.layers| == Layout.MaxLayers
  }

  function LayerRecordBytes(l: LayerRecord): (b: seq<byte>)
    ensures |b| == Layout.LayerSize
  {
    l.a + l.b + l.c + l.r + l.density
  }

  function DecodeLayerRecord(b: seq<byte>): LayerRecord
    requires |b| == Layout.LayerSize
  {
    LayerRecord(b[0..8], b[8..16], b[16..24], b[24..32], b[32..40])
  }

  function LayerRecordsBytes(ls: seq<LayerRecord>): (b: seq<byte>)
    ensures |b| == Layout.LayerSize * |ls|
  {
    if ls == [] then [] else LayerRecordsBytes(ls[..|ls| - 1]) + LayerRecordBytes(ls[|ls| - 1])
  }

  /** The 832 bytes of one record at the offsets of Layout.ModelDtypeFields. */
  function EncodeRecord(m: ModelRecord): (b: seq<byte>)
    requires WellFormed(m)
    ensures |b| == Layout.RecordSize
  {
    m.angularMomentum + U32ToBytes(m.numLayers) + m.pad + LayerRecordsBytes(m.layers)
      + m.relEquipotentialErr + m.totalEnergy
  }

  /** np.frombuffer(b, dtype=Model._model_dtype) for one record. */
  function DecodeRecord(b: seq<byte>): (m: ModelRecord)
    requires |b| == Layout.RecordSize
    ensures WellFormed(m)
  {
    ModelRecord(
      b[0..8], BytesToU32(b[8..12]), b[12..16],
      seq(Layout.MaxLayers, i requires 0 <= i < Layout.MaxLayers =>
        DecodeLayerRecord(b[Layout.OutputLayersOffset + Layout.LayerSize * i ..
                            Layout.OutputLayersOffset + Layout.LayerSize * (i + 1)])),
      b[Layout.OutputRelErrOffset..Layout.OutputTotalEnergyOffset],
      b[Layout.OutputTotalEnergyOffset..Layout.RecordSize])
  }

  /** The layer dict from_struct builds from one layer record. */
  function LayerOfRecord(l: LayerRecord): Layer
  {
    Layer(Some(Abc(l.a, l.b, l.c)), Some(l.r), Some(l.density))
  }

  /**
   * Model.from_struct: a plain dict (not a Model) holding the record's scalars
   * and one layer dict per slot of s['layers'][:num_layers]; numpy slicing
   * clamps, so at most the 20 slots there are.
   */
  function FromStruct(s: ModelRecord): (d: ModelDict)
    requires WellFormed(s)
    ensures d.layers.Some?
    ensures |d.layers.value| == if s.numLayers as int <= Layout.MaxLayers then s.numLayers as int else Layout.MaxLayers
    ensures forall i :: 0 <= i < |d.layers.value| ==> d.layers.value[i] == LayerOfRecord(s.layers[i])
    ensures d.angularMomentum == Some(s.angularMomentum)
    ensures d.relEquipotentialErr == Some(s.relEquipotentialErr) && d.totalEnergy == Some(s.totalEnergy)
  {
    var n := if s.numLayers as int <= Layout.MaxLayers then s.numLayers as int else Layout.MaxLayers;
    ModelDict(
      Some(s.angularMomentum),
      Some(seq(n, i requires 0 <= i < n => LayerOfRecord(s.layers[i]))),
      Some(s.relEquipotentialErr),
      Some(s.totalEnergy))
  }

  // ---------------------------------------------------------------------------
  // Properties of the byte images
  // ---------------------------------------------------------------------------

  lemma {:induction false} LayersBytesLayout(ls: seq<Layer>)
    requires LayersBytes(ls).Success?
    ensures var b := LayersBytes(ls).value;
      && |b| == Layout.LayerSize * |ls|
      && forall i :: 0 <= i < |ls| ==> (MissingLayerKey(ls[i]).None? &&
           b[Layout.LayerSize * i .. Layout.LayerSize * (i + 1)] == LayerBytes(ls[i]))
  {
    if ls != [] {
      LayersBytesLayout(ls[1..]);
      var b, rest := LayersBytes(ls).value, LayersBytes(ls[1..]).value;
      assert b == LayerBytes(ls[0]) + rest;
      forall i | 0 <= i < |ls|
        ensures MissingLayerKey(ls[i]).None? && b[Layout.LayerSize * i .. Layout.LayerSize * (i + 1)] == LayerBytes(ls[i])
      {
        if i > 0 {
          assert ls[1..][i - 1] == ls[i];
          assert b[Layout.LayerSize * i .. Layout.LayerSize * (i + 1)]
              == rest[Layout.LayerSize * (i - 1) .. Layout.LayerSize * i];
        }
      }
    }
  }

  /**
   * to_struct's output: 32 + 40n bytes; angular_momentum at 0..8, the layer
   * count as a uint32 at 8..12, zeros at 12..32, and layer i's a, b, c, r,
   * density at 32+40i..72+40i. No slot beyond the n-th is written and n is not
   * checked against the 20 slots of the kernel's arrays.
   */
  lemma SerializeLayout(d: ModelDict)
    requires Serialize(d).Success?
    ensures d.layers.Some?
    ensures var b, n := Serialize(d).value, |d.layers.value|;
      && d.angularMomentum.Some? && n < 0x1_0000_0000
      && |b| == Layout.InputLayersOffset + Layout.LayerSize * n
      && b[0..8] == d.angularMomentum.value
      && b[8..12] == U32ToBytes(n as uint32)
      && b[12..Layout.InputLayersOffset] == Zeros(Layout.ToStructPadding)
      && forall i :: 0 <= i < n ==> (MissingLayerKey(d.layers.value[i]).None? &&
           b[Layout.InputLayersOffset + Layout.LayerSize * i .. Layout.InputLayersOffset + Layout.LayerSize * (i + 1)]
             == LayerBytes(d.layers.value[i]))
  {
    var b, n := Serialize(d).value, |d.layers.value|;
    var body := LayersBytes(d.layers.value).value;
    LayersBytesLayout(d.layers.value);
    assert b == d.angularMomentum.value + U32ToBytes(n as uint32) + Zeros(Layout.ToStructPadding) + body;
    forall i | 0 <= i < n
      ensures b[Layout.InputLayersOffset + Layout.LayerSize * i .. Layout.InputLayersOffset + Layout.LayerSize * (i + 1)]
        == LayerBytes(d.layers.value[i])
    {
      assert b[Layout.InputLayersOffset + Layout.LayerSize * i .. Layout.InputLayersOffset + Layout.LayerSize * (i + 1)]
          == body[Layout.LayerSize * i .. Layout.LayerSize * (i + 1)];
    }
  }

  lemma {:induction false} LayersBytesSucceedsIff(ls: seq<Layer>)
    ensures LayersBytes(ls).Success? <==> forall i :: 0 <= i < |ls| ==> MissingLayerKey(ls[i]).None?
    ensures LayersBytes(ls).Failure? ==> exists k :: (0 <= k < |ls| && MissingLayerKey(ls[k]).Some? &&
      (forall j :: 0 <= j < k ==> MissingLayerKey(ls[j]).None?) &&
      LayersBytes(ls).error == MissingKey(MissingLayerKey(ls[k]).value))
  {
    if ls != [] {
      LayersBytesSucceedsIff(ls[1..]);
      assert forall i :: 1 <= i < |ls| ==> ls[1..][i - 1] == ls[i];
      if MissingLayerKey(ls[0]).None? && LayersBytes(ls[1..]).Failure? {
        var k :| 0 <= k < |ls[1..]| && MissingLayerKey(ls[1..][k]).Some? &&
          (forall j :: 0 <= j < k ==> MissingLayerKey(ls[1..][j]).None?) &&
          LayersBytes(ls[1..]).error == MissingKey(MissingLayerKey(ls[1..][k]).value);
        assert forall j :: 0 <= j < k + 1 ==> MissingLayerKey(ls[j]).None? by {
          forall j | 0 <= j < k + 1 ensures MissingLayerKey(ls[j]).None? {
            if j > 0 { assert ls[1..][j - 1] == ls[j]; }
          }
        }
        assert MissingLayerKey(ls[k + 1]).Some?;
      }
    }
  }

  /**
   * to_struct succeeds exactly when angular_momentum and layers are present,
   * the layer count fits a uint32 and every layer has abc, r and density;
   * otherwise it raises for the first missing key in lookup order.
   */
  lemma SerializeSucceedsIff(d: ModelDict)
    ensures Serialize(d).Success? <==>
      && d.angularMomentum.Some?
      && d.layers.Some?
      && |d.layers.value| < 0x1_0000_0000
      && forall i :: 0 <= i < |d.layers.value| ==> MissingLayerKey(d.layers.value[i]).None?
    ensures d.angularMomentum.None? ==> Serialize(d) == Failure(MissingKey("angular_momentum"))
    ensures d.angularMomentum.Some? && d.layers.None? ==> Serialize(d) == Failure(MissingKey("layers"))
  {
    if d.layers.Some? {
      LayersBytesSucceedsIff(d.layers.value);
    }
  }

  /** After a successful _recalculate, to_struct can only miss a layer's density. */
  lemma ValidatedLayersNeedOnlyDensity(ls: seq<Layer>, num: Numerics)
    requires RecalculateAll(ls, num).Success?
    ensures var v := RecalculateAll(ls, num).value;
      forall i :: 0 <= i < |v| ==> (MissingLayerKey(v[i]).None? <==> ls[i].density.Some?)
  {
  }

  lemma {:induction false} LayerRecordsBytesAt(ls: seq<LayerRecord>, i: nat)
    requires i < |ls|
    ensures LayerRecordsBytes(ls)[Layout.LayerSize * i .. Layout.LayerSize * (i + 1)] == LayerRecordBytes(ls[i])
  {
    var n := |ls|;
    if i < n - 1 {
      LayerRecordsBytesAt(ls[..n - 1], i);
      assert ls[..n - 1][i] == ls[i];
      assert LayerRecordsBytes(ls) == LayerRecordsBytes(ls[..n - 1]) + LayerRecordBytes(ls[n - 1]);
    }
  }

  /** Where each field of a record lands in its encoding. */
  lemma EncodeRecordSlices(m: ModelRecord)
    requires WellFormed(m)
    ensures var b := EncodeRecord(m);
      && b[0..8] == m.angularMomentum
      && b[8..12] == U32ToBytes(m.numLayers)
      && b[12..Layout.OutputLayersOffset] == m.pad
      && b[Layout.OutputLayersOffset..Layout.OutputRelErrOffset] == LayerRecordsBytes(m.layers)
      && b[Layout.OutputRelErrOffset..Layout.OutputTotalEnergyOffset] == m.relEquipotentialErr
      && b[Layout.OutputTotalEnergyOffset..Layout.RecordSize] == m.totalEnergy
  {
  }

  /** Decoding the bytes of a list of layer records gives the list back. */
  lemma LayerRecordsDecode(ls: seq<LayerRecord>)
    ensures DecodeLayerRecords(LayerRecordsBytes(ls), |ls|) == ls
  {
    var d := DecodeLayerRecords(LayerRecordsBytes(ls), |ls|);
    forall i | 0 <= i < |ls| ensures d[i] == ls[i] {
      LayerRecordDecodeAt(ls, i);
    }
  }

  lemma LayerRecordDecodeAt(ls: seq<LayerRecord>, i: nat)
    requires i < |ls|
    ensures DecodeLayerRecords(LayerRecordsBytes(ls), |ls|)[i] == ls[i]
  {
    LayerRecordsBytesAt(ls, i);
    LayerRecordRoundTrip(ls[i]);
  }

  lemma LayerRecordRoundTrip(l: LayerRecord)
    ensures DecodeLayerRecord(LayerRecordBytes(l)) == l
  {
    var e := LayerRecordBytes(l);
    assert e[0..8] == l.a && e[8..16] == l.b && e[16..24] == l.c && e[24..32] == l.r && e[32..40] == l.density;
  }

  /** Reading back what a record's encoding holds gives that record. */
  lemma RecordRoundTrip(m: ModelRecord)
    requires WellFormed(m)
    ensures DecodeRecord(EncodeRecord(m)) == m
  {
    var b := EncodeRecord(m);
    EncodeRecordSlices(m);
    U32RoundTrip(m.numLayers);
    DecodedLayersAreBody(b);
    LayerRecordsDecode(m.layers);
  }

  function DecodeLayerRecords(s: seq<byte>, n: nat): (ls: seq<LayerRecord>)
    requires |s| == Layout.LayerSize * n
    ensures |ls| == n
  {
    seq(n, i requires 0 <= i < n => DecodeLayerRecord(s[Layout.LayerSize * i .. Layout.LayerSize * (i + 1)]))
  }

  lemma {:induction false} LayerRecordsRoundTrip(s: seq<byte>, n: nat)
    requires |s| == Layout.LayerSize * n
    ensures LayerRecordsBytes(DecodeLayerRecords(s, n)) == s
  {
    if n > 0 {
      var ls := DecodeLayerRecords(s, n);
      var init := s[..Layout.LayerSize * (n - 1)];
      DecodeLayerRecordsPrefix(s, n);
      LayerRecordsRoundTrip(init, n - 1);
      var last := s[Layout.LayerSize * (n - 1)..];
      LayerRecordBytesOfDecoded(last);
      assert s == init + last;
    }
  }

  lemma DecodeLayerRecordsPrefix(s: seq<byte>, n: nat)
    requires n > 0 && |s| == Layout.LayerSize * n
    ensures DecodeLayerRecords(s, n)[..n - 1] == DecodeLayerRecords(s[..Layout.LayerSize * (n - 1)], n - 1)
    ensures DecodeLayerRecords(s, n)[n - 1] == DecodeLayerRecord(s[Layout.LayerSize * (n - 1)..])
  {
    var init := s[..Layout.LayerSize * (n - 1)];
    forall i | 0 <= i < n - 1
      ensures init[Layout.LayerSize * i .. Layout.LayerSize * (i + 1)] == s[Layout.LayerSize * i .. Layout.LayerSize * (i + 1)]
    {
    }
    assert Layout.LayerSize * (n - 1 + 1) == |s|;
    assert s[Layout.LayerSize * (n - 1) .. Layout.LayerSize * (n - 1 + 1)] == s[Layout.LayerSize * (n - 1)..];
  }

  lemma LayerRecordBytesOfDecoded(b: seq<byte>)
    requires |b| == Layout.LayerSize
    ensures LayerRecordBytes(DecodeLayerRecord(b)) == b
  {
    assert b == b[0..8] + b[8..16] + b[16..24] + b[24..32] + b[32..40];
  }

  /** No byte of a record is lost: encoding what was decoded reproduces the bytes. */
  lemma BytesRoundTrip(b: seq<byte>)
    requires |b| == Layout.RecordSize
    ensures EncodeRecord(DecodeRecord(b)) == b
  {
    var d := DecodeRecord(b);
    var body := b[Layout.OutputLayersOffset..Layout.OutputRelErrOffset];
    DecodedLayersAreBody(b);
    LayerRecordsRoundTrip(body, Layout.MaxLayers);
    Bytes.BytesRoundTrip(b[8..12]);
    assert EncodeRecord(d) == b[0..8] + b[8..12] + b[12..16] + body
      + b[Layout.OutputRelErrOffset..Layout.OutputTotalEnergyOffset] + b[Layout.OutputTotalEnergyOffset..Layout.RecordSize];
    RecordSplit(b);
  }

  lemma RecordSplit(b: seq<byte>)
    requires |b| == Layout.RecordSize
    ensures b == b[0..8] + b[8..12] + b[12..16] + b[Layout.OutputLayersOffset..Layout.OutputRelErrOffset]
      + b[Layout.OutputRelErrOffset..Layout.OutputTotalEnergyOffset] + b[Layout.OutputTotalEnergyOffset..Layout.RecordSize]
  {
  }

  lemma DecodedLayersAreBody(b: seq<byte>)
    requires |b| == Layout.RecordSize
    ensures DecodeRecord(b).layers == DecodeLayerRecords(b[Layout.OutputLayersOffset..Layout.OutputRelErrOffset], Layout.MaxLayers)
  {
    var body := b[Layout.OutputLayersOffset..Layout.OutputRelErrOffset];
    forall i | 0 <= i < Layout.MaxLayers
      ensures body[Layout.LayerSize * i .. Layout.LayerSize * (i + 1)]
        == b[Layout.OutputLayersOffset + Layout.LayerSize * i .. Layout.OutputLayersOffset + Layout.LayerSize * (i + 1)]
    {
      SliceOfSlice(b, Layout.OutputLayersOffset, Layout.OutputRelErrOffset, Layout.LayerSize * i, Layout.LayerSize * (i + 1));
    }
  }

  /**
   * The input record to_struct writes is not a _model_dtype record: for the
   * count to_struct produces for a full model (20 layers, 832 bytes, one
   * record of np.frombuffer(..., dtype=Model._model_dtype)), every field
   * after num_layers is read 16 bytes too early. The first layer's a and b read as the zero padding, its c
   * as the first layer's a, and the two output scalars as the last layer's r
   * and density.
   */
  lemma ModelDtypeMisreadsInputRecord(d: ModelDict)
    requires Serialize(d).Success? && d.layers.Some? && |d.layers.value| == Layout.MaxLayers
    ensures |Serialize(d).value| == Layout.RecordSize
    ensures var m := DecodeRecord(Serialize(d).value); var first, last := d.layers.value[0], d.layers.value[19];
      && MissingLayerKey(first).None? && MissingLayerKey(last).None?
      && m.angularMomentum == d.angularMomentum.value
      && m.numLayers == 20
      && m.layers[0].a == PositiveZero && m.layers[0].b == PositiveZero
      && m.layers[0].c == first.abc.value.a
      && m.relEquipotentialErr == last.r.value
      && m.totalEnergy == last.density.value
  {
    SerializeLayout(d);
    var b := Serialize(d).value;
    var m := DecodeRecord(b);
    U32RoundTrip(20);
    var z := Zeros(Layout.ToStructPadding);
    assert b[12..32] == z;
    SliceOfSlice(b, 12, 32, 4, 12);
    SliceOfSlice(b, 12, 32, 12, 20);
    SliceOfSlice(b, 16, 56, 0, 8);
    SliceOfSlice(b, 16, 56, 8, 16);
    SliceOfSlice(b, 16, 56, 16, 24);
    assert m.layers[0].a == b[16..24] == z[4..12];
    assert m.layers[0].b == b[24..32] == z[12..20];
    var l0 := LayerBytes(d.layers.value[0]);
    assert b[32..72] == l0;
    SliceOfSlice(b, 32, 72, 0, 8);
    assert m.layers[0].c == b[32..40] == l0[0..8];
    var l19 := LayerBytes(d.layers.value[19]);
    assert b[792..832] == l19;
    SliceOfSlice(b, 792, 832, 24, 32);
    SliceOfSlice(b, 792, 832, 32, 40);
    assert b[816..824] == l19[24..32];
    assert b[824..832] == l19[32..40];
  }

  // ---------------------------------------------------------------------------
  // Properties of validation
  // ---------------------------------------------------------------------------

  /**
   * Validating validated layers again changes nothing, provided each radius
   * derived from abc is close to itself (which np.isclose denies only to
   * NaN) and cbrt(r*r*r) is close to r for each layer given by its radius
   * alone.
   */
  lemma RecalculateIdempotent(ls: seq<Layer>, num: Numerics)
    requires RecalculateAll(ls, num).Success?
    requires forall i :: 0 <= i < |ls| && ls[i].r.None? ==>
      num.isClose(VolumetricRadius(ls[i].abc.value, num), VolumetricRadius(ls[i].abc.value, num))
    requires forall i :: 0 <= i < |ls| && ls[i].abc.None? ==>
      num.isClose(num.cbrtOfProduct(ls[i].r.value, ls[i].r.value, ls[i].r.value), ls[i].r.value)
    ensures RecalculateAll(RecalculateAll(ls, num).value, num) == RecalculateAll(ls, num)
  {
    var v := RecalculateAll(ls, num).value;
    forall i | 0 <= i < |v| ensures Admissible(v[i], num) && NormalizeLayer(v[i], num) == Success(v[i]) {
      if ls[i].abc.Some? && ls[i].r.None? {
        assert v[i].abc == ls[i].abc;
      }
    }
    var w := RecalculateAll(v, num).value;
    assert forall i :: 0 <= i < |v| ==> w[i] == v[i];
    assert w == v;
  }

  /**
   * Without that proviso a second validation can reject what the first
   * produced: a layer given only r = 1.0 becomes abc = (r, r, r), and when
   * cbrt(r*r*r) is not close to r the re-check raises.
   */
  lemma RevalidationCanFail()
    ensures var one: Double := [0, 0, 0, 0, 0, 0, 0xF0, 0x3F];
      var num := Numerics((a: Double, b: Double, c: Double) => PositiveZero, (x: Double, y: Double) => x == y);
      var ls := [Layer(None, Some(one), Some(one))];
      && RecalculateAll(ls, num).Success?
      && RecalculateAll(RecalculateAll(ls, num).value, num) == Failure(InconsistentAbcAndR)
  {
    var one: Double := [0, 0, 0, 0, 0, 0, 0xF0, 0x3F];
    var num := Numerics((a: Double, b: Double, c: Double) => PositiveZero, (x: Double, y: Double) => x == y);
    var ls := [Layer(None, Some(one), Some(one))];
    var v := RecalculateAll(ls, num).value;
    assert v[0] == Layer(Some(Abc(one, one, one)), Some(one), Some(one));
    assert !Admissible(v[0], num);
    assert FirstInadmissible(v, num) == 0;
  }

  // ---------------------------------------------------------------------------
  // The Model object
  // ---------------------------------------------------------------------------

  class Model {
    var angularMomentum: Option<Double>
    var layers: Option<seq<Layer>>
    var relEquipotentialErr: Option<Double>
    var totalEnergy: Option<Double>

    function Dict(): ModelDict
      reads this
    {
      ModelDict(angularMomentum, layers, relEquipotentialErr, totalEnergy)
    }

    /** dict.__init__: the object holds the given keys; validation is a separate step. */
    constructor FromDict(d: ModelDict)
      ensures Dict() == d
    {
      angularMomentum := d.angularMomentum;
      layers := d.layers;
      relEquipotentialErr := d.relEquipotentialErr;
      totalEnergy := d.totalEnergy;
    }

    /**
     * Model._recalculate: raises KeyError without a 'layers' key, and
     * otherwise fixes up each layer dict in place, in order. On an error the
     * layers before the offending one are already fixed up and the rest are
     * untouched.
     */
    method Recalculate(num: Numerics) returns (err: Option<ModelError>)
      modifies this
      ensures angularMomentum == old(angularMomentum)
      ensures relEquipotentialErr == old(relEquipotentialErr) && totalEnergy == old(totalEnergy)
      ensures old(layers).None? ==> layers.None? && err == Some(MissingLayers)
      ensures old(layers).Some? ==> layers.Some? && |layers.value| == |old(layers).value|
      ensures old(layers).Some? ==>
        var before, after, k := old(layers).value, layers.value, FirstInadmissible(old(layers).value, num);
        && (forall i :: 0 <= i < k ==> NormalizeLayer(before[i], num) == Success(after[i]))
        && (forall i :: k <= i < |after| ==> after[i] == before[i])
        && (err.None? <==> k == |after|)
        && (err.Some? ==> NormalizeLayer(before[k], num) == Failure(err.value))
      ensures err.None? ==> old(layers).Some? && RecalculateAll(old(layers).value, num) == Success(layers.value)
    {
      if layers.None? {
        return Some(MissingLayers);
      }
      ghost var before := layers.value;
      var i := 0;
      while i < |layers.value|
        invariant layers.Some? && 0 <= i <= |layers.value| == |before|
        invariant angularMomentum == old(angularMomentum)
        invariant relEquipotentialErr == old(relEquipotentialErr) && totalEnergy == old(totalEnergy)
        invariant forall j :: 0 <= j < i ==>
          Admissible(before[j], num) && NormalizeLayer(before[j], num) == Success(layers.value[j])
        invariant forall j :: i <= j < |before| ==> layers.value[j] == before[j]
      {
        var layer := layers.value[i];
        if layer.abc.None? {
          if layer.r.None? {
            FirstInadmissibleAt(before, num, i);
            return Some(MissingAbcOrR);
          }
          layers := Some(layers.value[i := layer.(abc := Some(Abc(layer.r.value, layer.r.value, layer.r.value)))]);
        } else {
          var r := VolumetricRadius(layer.abc.value, num);
          if layer.r.None? {
            layers := Some(layers.value[i := layer.(r := Some(r))]);
          } else if !num.isClose(r, layer.r.value) {
            FirstInadmissibleAt(before, num, i);
            return Some(InconsistentAbcAndR);
          }
        }
        i := i + 1;
      }
      FirstInadmissibleAt(before, num, i);
      assert RecalculateAll(before, num).value == layers.value;
      err := None;
    }

    /** Model(d): the dict constructor followed by _recalculate, which may raise. */
    static method Create(d: ModelDict, num: Numerics) returns (res: Result<Model, ModelError>)
      ensures d.layers.None? ==> res == Failure(MissingLayers)
      ensures d.layers.Some? ==> (res.Success? <==> RecalculateAll(d.layers.value, num).Success?)
      ensures res.Success? ==>
        && d.layers.Some? && fresh(res.value)
        && res.value.Dict() == d.(layers := Some(RecalculateAll(d.layers.value, num).value))
      ensures d.layers.Some? && res.Failure? ==> res.error == RecalculateAll(d.layers.value, num).error
    {
      var m := new Model.FromDict(d);
      var err := m.Recalculate(num);
      if err.Some? {
        return Failure(err.value);
      }
      return Success(m);
    }

    /** Model.to_struct: header 'dI', 20 zero bytes, then 'ddddd' per layer. */
    method ToStruct() returns (res: Result<seq<byte>, StructError>)
      ensures res == Serialize(Dict())
    {
      if angularMomentum.None? {
        return Failure(MissingKey("angular_momentum"));
      }
      if layers.None? {
        return Failure(MissingKey("layers"));
      }
      var ls := layers.value;
      if |ls| >= 0x1_0000_0000 {
        return Failure(LayerCountOutOfRange);
      }
      var header := angularMomentum.value + U32ToBytes(|ls| as uint32);
      header := header + Zeros(Layout.ToStructPadding);
      var body: seq<byte> := [];
      var i := 0;
      assert ls[i..] == ls;
      assert LayersBytes(ls).Success? ==> [] + LayersBytes(ls).value == LayersBytes(ls).value;
      while i < |ls|
        invariant 0 <= i <= |ls|
        invariant LayersBytes(ls) == Prepend(body, LayersBytes(ls[i..]))
      {
        var layer := ls[i];
        assert ls[i..][1..] == ls[i + 1..];
        var missing := MissingLayerKey(layer);
        if missing.Some? {
          assert LayersBytes(ls[i..]) == Failure(MissingKey(missing.value));
          return Failure(MissingKey(missing.value));
        }
        assert LayersBytes(ls[i..]) == Prepend(LayerBytes(layer), LayersBytes(ls[i + 1..]));
        PrependTwice(body, LayerBytes(layer), LayersBytes(ls[i + 1..]));
        body := body + LayerBytes(layer);
        i := i + 1;
      }
      assert ls[i..] == [];
      assert body + [] == body;
      assert LayersBytes(ls) == Success(body);
      res := Success(header + body);
    }
  }
}
