/**
 * One invocation of the variation kernel: guard on the invocation index,
 * seed a PCG stream, copy the template model's header and layers into a
 * local Model, zero the two score fields and store the result in one slot
 * of the output buffer.
 *
 * The random words are drawn but do not reach the output: the multipliers
 * that would scale a, b and c are computed from them and never applied.
 */
module Kernel {
  import opened Wrappers
  import opened Bytes
  import Layout
  import opened Records
  import opened Pcg

  /**
   * The InputModel buffer: a header at offsets 0, 8, 12 and 16 and the
   * flexible array template_layers from offset 32, as many records long as
   * the buffer has room for.
   */
  datatype InputModel = InputModel(
    angularMomentum: Double,
    numLayers: uint32,
    pad0: seq<byte>,
    pad1: seq<byte>,
    layers: seq<LayerRecord>)

  /** The device's view of an InputModel buffer. */
  function DecodeInput(b: seq<byte>): (m: InputModel)
    requires |b| >= Layout.InputLayersOffset
    ensures m.angularMomentum == b[0..8] && m.numLayers == BytesToU32(b[8..12])
    ensures |m.layers| == (|b| - Layout.InputLayersOffset) / Layout.LayerSize
    ensures forall i :: 0 <= i < |m.layers| ==>
      m.layers[i] == DecodeLayerRecord(b[Layout.InputLayersOffset + Layout.LayerSize * i ..
                                         Layout.InputLayersOffset + Layout.LayerSize * (i + 1)])
  {
    var count := (|b| - Layout.InputLayersOffset) / Layout.LayerSize;
    InputModel(
      b[0..8], BytesToU32(b[8..12]), b[12..16], b[16..Layout.InputLayersOffset],
      seq(count, i requires 0 <= i < count =>
        DecodeLayerRecord(b[Layout.InputLayersOffset + Layout.LayerSize * i ..
                            Layout.InputLayersOffset + Layout.LayerSize * (i + 1)])))
  }

  /** The uniforms the kernel reads as integers (annealing_temperature only feeds the unused multipliers). */
  datatype Uniforms = Uniforms(numVariations: uint32, seed: uint32)

  /** The kernel indexes template_layers and the 20-slot layers array without a bound check. */
  predicate InBounds(t: InputModel)
  {
    t.numLayers as int <= Layout.MaxLayers && t.numLayers as int <= |t.layers|
  }

  /**
   * The Model one invocation stores: the template's header and first
   * num_layers layers, zero scores, and whatever the uninitialised local
   * held in the padding and in the slots beyond num_layers.
   */
  function Variation(t: InputModel, uninit: ModelRecord): (v: ModelRecord)
    requires WellFormed(uninit) && InBounds(t)
    ensures WellFormed(v)
  {
    ModelRecord(
      t.angularMomentum, t.numLayers, uninit.pad, CopiedLayers(t, uninit, t.numLayers as int),
      PositiveZero, PositiveZero)
  }

  /** The seeding of invocation idx: initPCG(rng, seed + idx, idx), with the uint sum wrapping. */
  function InvocationStream(seed: uint32, idx: uint32): PcgState
  {
    Seeded(Wrap(seed as int + idx as int), idx)
  }

  /**
   * The body of main after the guard: seed the stream, copy the header,
   * copy each template layer field by field while drawing three random
   * words, and zero the scores.
   */
  method BuildVariation(idx: uint32, seed: uint32, t: InputModel, uninit: ModelRecord)
    returns (variation: ModelRecord, rng: PcgState)
    requires WellFormed(uninit) && InBounds(t)
    ensures variation == Variation(t, uninit)
    ensures variation.angularMomentum == t.angularMomentum && variation.numLayers == t.numLayers
    ensures forall i :: 0 <= i < t.numLayers as int ==> variation.layers[i] == t.layers[i]
    ensures forall i :: t.numLayers as int <= i < Layout.MaxLayers ==> variation.layers[i] == uninit.layers[i]
    ensures variation.relEquipotentialErr == PositiveZero && variation.totalEnergy == PositiveZero
    ensures rng == Advance(InvocationStream(seed, idx), 3 * t.numLayers as int)
  {
    rng := InitPcg(PcgState(0, 0), Wrap(seed as int + idx as int), idx);
    variation := uninit.(numLayers := t.numLayers);
    variation := variation.(angularMomentum := t.angularMomentum);
    var n := t.numLayers as int;
    var i := 0;
    assert rng == Advance(InvocationStream(seed, idx), 0);
    assert CopiedLayers(t, uninit, 0) == uninit.layers;
    while i < n
      invariant 0 <= i <= n
      invariant variation == uninit.(angularMomentum := t.angularMomentum, numLayers := t.numLayers,
                                     layers := CopiedLayers(t, uninit, i))
      invariant rng == Advance(InvocationStream(seed, idx), 3 * i)
    {
      ghost var before := rng;
      var layer;
      layer, rng := VaryLayer(variation.layers[i], t.layers[i], rng);
      AdvanceThree(InvocationStream(seed, idx), 3 * i, before, rng);
      assert 3 * i + 3 == 3 * (i + 1);
      CopyOneMore(t, uninit, i);
      variation := variation.(layers := variation.layers[i := layer]);
      i := i + 1;
    }
    variation := variation.(relEquipotentialErr := PositiveZero);
    variation := variation.(totalEnergy := PositiveZero);
  }

  /**
   * One pass of the layer loop: copy volumetric_radius and density, draw
   * three random words (whose multipliers are never applied), copy a, b
   * and c.
   */
  method VaryLayer(slot: LayerRecord, template: LayerRecord, rng: PcgState) returns (layer: LayerRecord, next: PcgState)
    ensures layer == template
    ensures next == LcgStep(LcgStep(LcgStep(rng)))
  {
    layer := slot;
    layer := layer.(r := template.r);
    layer := layer.(density := template.density);
    var word1, word2, word3;
    next, word1 := PcgHash(rng);
    next, word2 := PcgHash(next);
    next, word3 := PcgHash(next);
    layer := layer.(a := template.a);
    layer := layer.(b := template.b);
    layer := layer.(c := template.c);
  }

  /** The layer slots after the loop has copied the first i template layers. */
  function CopiedLayers(t: InputModel, uninit: ModelRecord, i: nat): (ls: seq<LayerRecord>)
    requires WellFormed(uninit) && i <= t.numLayers as int && InBounds(t)
    ensures |ls| == Layout.MaxLayers
  {
    seq(Layout.MaxLayers, j requires 0 <= j < Layout.MaxLayers => if j < i then t.layers[j] else uninit.layers[j])
  }

  lemma CopyOneMore(t: InputModel, uninit: ModelRecord, i: nat)
    requires WellFormed(uninit) && i < t.numLayers as int && InBounds(t)
    ensures CopiedLayers(t, uninit, i)[i := t.layers[i]] == CopiedLayers(t, uninit, i + 1)
  {
  }

  lemma AdvanceThree(s: PcgState, k: nat, before: PcgState, after: PcgState)
    requires before == Advance(s, k)
    requires after == LcgStep(LcgStep(LcgStep(before)))
    ensures after == Advance(s, k + 3)
  {
    assert Advance(s, k + 1) == LcgStep(before);
    assert Advance(s, k + 2) == LcgStep(Advance(s, k + 1));
    assert Advance(s, k + 3) == LcgStep(Advance(s, k + 2));
  }

  /**
   * main for invocation idx over the OutputModels buffer: an index at or
   * beyond num_variations writes nothing; any other writes exactly
   * variations[idx], once.
   */
  method Invoke(idx: uint32, u: Uniforms, t: InputModel, uninit: ModelRecord, variations: array<ModelRecord>)
    requires WellFormed(uninit)
    requires idx < u.numVariations ==> InBounds(t) && (idx as int) < variations.Length
    modifies variations
    ensures idx >= u.numVariations ==> variations[..] == old(variations[..])
    ensures idx < u.numVariations ==> variations[..] == old(variations[..])[idx as int := Variation(t, uninit)]
  {
    if idx >= u.numVariations {
      return;
    }
    var variation, rng := BuildVariation(idx, u.seed, t, uninit);
    variations[idx] := variation;
  }

  // ------------------------------------------------------------------
  // Properties of the kernel against the host's record formats
  // ------------------------------------------------------------------

  /** The record layer a complete host layer is packed as. */
  function RecordOfLayer(l: Layer): LayerRecord
    requires MissingLayerKey(l).None?
  {
    LayerRecord(l.abc.value.a, l.abc.value.b, l.abc.value.c, l.r.value, l.density.value)
  }

  /**
   * The kernel reads to_struct's bytes as the host meant them: the header
   * scalars, the layer count, and layer i at offset 32 + 40i, with exactly
   * as many template layers as the host wrote.
   */
  lemma ToStructFeedsInputModel(d: ModelDict)
    requires Serialize(d).Success?
    ensures d.layers.Some?
    ensures var t, ls := DecodeInput(Serialize(d).value), d.layers.value;
      && Some(t.angularMomentum) == d.angularMomentum
      && t.numLayers as int == |ls|
      && |t.layers| == |ls|
      && forall i :: 0 <= i < |ls| ==> MissingLayerKey(ls[i]).None? && t.layers[i] == RecordOfLayer(ls[i])
  {
    var b, ls := Serialize(d).value, d.layers.value;
    SerializeLayout(d);
    U32RoundTrip(|ls| as uint32);
    var t := DecodeInput(b);
    forall i | 0 <= i < |ls| ensures t.layers[i] == RecordOfLayer(ls[i]) {
      var l := ls[i];
      var e := LayerBytes(l);
      assert e[0..8] == l.abc.value.a && e[8..16] == l.abc.value.b && e[16..24] == l.abc.value.c;
      assert e[24..32] == l.r.value && e[32..40] == l.density.value;
    }
  }

  /**
   * A model sent through to_struct, one kernel invocation, the output
   * buffer and from_struct comes back with the same angular momentum and
   * layers and with both scores zero.
   */
  lemma VariationRoundTrip(d: ModelDict, uninit: ModelRecord)
    requires Serialize(d).Success? && d.layers.Some? && |d.layers.value| <= Layout.MaxLayers && WellFormed(uninit)
    ensures var t := DecodeInput(Serialize(d).value);
      && InBounds(t)
      && FromStruct(DecodeRecord(EncodeRecord(Variation(t, uninit))))
           == ModelDict(d.angularMomentum, d.layers, Some(PositiveZero), Some(PositiveZero))
  {
    var t, ls := DecodeInput(Serialize(d).value), d.layers.value;
    ToStructFeedsInputModel(d);
    var v := Variation(t, uninit);
    LayerOfRecordUndoesRecordOfLayer(ls);
    RecordRoundTrip(v);
    var out := FromStruct(v);
    assert out.layers.value == ls by {
      forall i | 0 <= i < |ls| ensures out.layers.value[i] == ls[i] {
        assert v.layers[i] == RecordOfLayer(ls[i]);
      }
    }
  }

  lemma LayerOfRecordUndoesRecordOfLayer(ls: seq<Layer>)
    requires forall i :: 0 <= i < |ls| ==> MissingLayerKey(ls[i]).None?
    ensures forall i :: 0 <= i < |ls| ==> LayerOfRecord(RecordOfLayer(ls[i])) == ls[i]
  {
  }

  /** Invocations with different indices below 2^31 draw from different PCG streams. */
  lemma DistinctStreams(seed: uint32, i: uint32, j: uint32)
    requires i as int < 0x8000_0000 && j as int < 0x8000_0000 && i != j
    ensures InvocationStream(seed, i).inc != InvocationStream(seed, j).inc
  {
    if Increment(i) == Increment(j) {
      IncrementInjectiveBelowBit31(i, j);
    }
  }
}
