/**
 * Byte layouts of the host/device record, computed from the field lists the
 * source declares. Two placement rules occur:
 *  - packed: a numpy structured dtype built from a field list without
 *    align=True puts each field directly after the previous one;
 *  - aligned: each field starts at the next multiple of its alignment. This is
 *    the rule of struct.pack's native mode and of GLSL's std430 layout for
 *    scalars, doubles and structs of doubles (a struct's alignment is that of
 *    its most aligned member, and std430 does not round it up to 16).
 */
module Layout {

  datatype Field = Field(name: string, size: nat, align: nat)

  ghost predicate PositiveAligns(fs: seq<Field>)
  {
    forall i :: 0 <= i < |fs| ==> fs[i].align > 0
  }

  lemma MultipleOf(k: nat, a: nat)
    requires a > 0
    ensures (k * a) % a == 0
  {
    var m := k * a;
    var t := k - m / a;
    assert m % a == a * t;
  }

  /** The least multiple of a that is at least x. */
  function AlignUp(x: nat, a: nat): (r: nat)
    requires a > 0
    ensures r % a == 0
    ensures x <= r < x + a
    ensures x % a == 0 ==> r == x
  {
    if x % a == 0 then x
    else
      MultipleOf(x / a + 1, a);
      (x / a + 1) * a
  }

  function PackedOffsets(fs: seq<Field>, at: nat): (offs: seq<nat>)
    ensures |offs| == |fs|
    ensures fs != [] ==> offs[0] == at
    ensures forall i :: 0 <= i < |fs| - 1 ==> offs[i + 1] == offs[i] + fs[i].size
  {
    if fs == [] then [] else [at] + PackedOffsets(fs[1..], at + fs[0].size)
  }

  /** Size of a packed dtype: where its last field ends. */
  function PackedSize(fs: seq<Field>): nat
  {
    if fs == [] then 0 else PackedOffsets(fs, 0)[|fs| - 1] + fs[|fs| - 1].size
  }

  function AlignedOffsets(fs: seq<Field>, at: nat): (offs: seq<nat>)
    requires PositiveAligns(fs)
    ensures |offs| == |fs|
    ensures fs != [] ==> offs[0] == AlignUp(at, fs[0].align)
    ensures forall i :: 0 <= i < |fs| - 1 ==> offs[i + 1] == AlignUp(offs[i] + fs[i].size, fs[i + 1].align)
    ensures forall i :: 0 <= i < |fs| ==> at <= offs[i]
    ensures forall i :: 0 <= i < |fs| - 1 ==> offs[i] + fs[i].size <= offs[i + 1]
  {
    if fs == [] then []
    else
      var o := AlignUp(at, fs[0].align);
      [o] + AlignedOffsets(fs[1..], o + fs[0].size)
  }

  /** The first byte after the last field under the aligned rule (no trailing padding). */
  function AlignedEnd(fs: seq<Field>): nat
    requires PositiveAligns(fs)
  {
    if fs == [] then 0 else AlignedOffsets(fs, 0)[|fs| - 1] + fs[|fs| - 1].size
  }

  function MaxAlign(fs: seq<Field>): (m: nat)
    ensures m > 0
    ensures forall i :: 0 <= i < |fs| ==> fs[i].align <= m
  {
    if fs == [] then 1 else
      var m := MaxAlign(fs[1..]);
      if fs[0].align > m then fs[0].align else m
  }

  /** std430 size of a struct: its end rounded up to the struct's alignment. */
  function Std430Size(fs: seq<Field>): nat
    requires PositiveAligns(fs)
  {
    AlignUp(AlignedEnd(fs), MaxAlign(fs))
  }

  function Names(fs: seq<Field>): (ns: seq<string>)
    ensures |ns| == |fs|
  {
    if fs == [] then [] else [fs[0].name] + Names(fs[1..])
  }

  const F64: nat := 8
  const U32: nat := 4

  /** Model._layer_dtype, and equally the std430 members of the kernel's struct Layer. */
  const LayerFields: seq<Field> := [
    Field("a", F64, F64), Field("b", F64, F64), Field("c", F64, F64),
    Field("r", F64, F64), Field("density", F64, F64)]

  const MaxLayers: nat := 20
  const LayerSize: nat := 40

  /** Model._model_dtype (a packed numpy dtype). */
  const ModelDtypeFields: seq<Field> := [
    Field("angular_momentum", F64, F64), Field("num_layers", U32, U32),
    Field("_pad_to_32", 4, 1), Field("layers", MaxLayers * LayerSize, F64),
    Field("rel_equipotential_err", F64, F64), Field("total_energy", F64, F64)]

  /** The kernel's output struct Model under std430 (no explicit padding members). */
  const ShaderModelFields: seq<Field> := [
    Field("angular_momentum", F64, F64), Field("num_layers", U32, U32),
    Field("layers", MaxLayers * LayerSize, F64),
    Field("rel_equipotential_err", F64, F64), Field("total_energy", F64, F64)]

  /** The kernel's InputModel buffer block; its last member is a runtime-sized array of Layer. */
  const InputModelFields: seq<Field> := [
    Field("template_angular_momentum", F64, F64), Field("template_num_layers", U32, U32),
    Field("_pad0", U32, U32), Field("_pad1", 2 * F64, F64), Field("template_layers", 0, F64)]

  /** struct.pack('dI', ...): native mode aligns each field and adds no trailing padding. */
  const PackHeaderFields: seq<Field> := [Field("angular_momentum", F64, F64), Field("num_layers", U32, U32)]

  /** Bytes of zero padding Model.to_struct appends after the packed header. */
  const ToStructPadding: nat := 20

  /** Offsets the other modules use, tied to the declarations by the lemmas below. */
  const InputLayersOffset: nat := 32
  const OutputLayersOffset: nat := 16
  const OutputRelErrOffset: nat := 816
  const OutputTotalEnergyOffset: nat := 824
  const RecordSize: nat := 832

  /** The maximum alignment is attained: a bound that some field reaches is the maximum. */
  lemma {:induction false} MaxAlignAttained(fs: seq<Field>, j: nat, a: nat)
    requires j < |fs| && fs[j].align == a && a > 0
    requires forall i :: 0 <= i < |fs| ==> fs[i].align <= a
    ensures MaxAlign(fs) == a
  {
    if j > 0 {
      MaxAlignAttained(fs[1..], j - 1, a);
    } else if |fs| > 1 {
      assert MaxAlign(fs[1..]) <= a by {
        assert forall i :: 0 <= i < |fs[1..]| ==> fs[1..][i].align <= a by {
          forall i | 0 <= i < |fs[1..]| ensures fs[1..][i].align <= a {
            assert fs[1..][i] == fs[i + 1];
          }
        }
        MaxAlignBound(fs[1..], a);
      }
    }
  }

  lemma {:induction false} MaxAlignBound(fs: seq<Field>, a: nat)
    requires a > 0
    requires forall i :: 0 <= i < |fs| ==> fs[i].align <= a
    ensures MaxAlign(fs) <= a
  {
    if fs != [] {
      assert forall i :: 0 <= i < |fs[1..]| ==> fs[1..][i].align <= a by {
        forall i | 0 <= i < |fs[1..]| ensures fs[1..][i].align <= a {
          assert fs[1..][i] == fs[i + 1];
        }
      }
      MaxAlignBound(fs[1..], a);
    }
  }

  lemma LayerPacked()
    ensures PackedOffsets(LayerFields, 0) == [0, 8, 16, 24, 32]
    ensures PackedSize(LayerFields) == LayerSize
  {
    var p := PackedOffsets(LayerFields, 0);
    assert p[1] == 8 && p[2] == 16 && p[3] == 24 && p[4] == 32;
  }

  lemma LayerAligned()
    ensures AlignedOffsets(LayerFields, 0) == [0, 8, 16, 24, 32]
  {
    var q := AlignedOffsets(LayerFields, 0);
    assert q[0] == 0 && q[1] == 8 && q[2] == 16 && q[3] == 24 && q[4] == 32;
  }

  /** The layer record is the same 40 bytes under both rules. */
  lemma LayerLayout()
    ensures PackedOffsets(LayerFields, 0) == [0, 8, 16, 24, 32]
    ensures PackedSize(LayerFields) == LayerSize
    ensures AlignedOffsets(LayerFields, 0) == PackedOffsets(LayerFields, 0)
    ensures Std430Size(LayerFields) == LayerSize
  {
    LayerPacked();
    LayerAligned();
    MaxAlignAttained(LayerFields, 0, F64);
  }

  lemma ModelDtypeLayout()
    ensures Names(ModelDtypeFields)[3] == "layers"
    ensures PackedOffsets(ModelDtypeFields, 0) ==
      [0, 8, 12, OutputLayersOffset, OutputRelErrOffset, OutputTotalEnergyOffset]
    ensures PackedSize(ModelDtypeFields) == RecordSize
  {
    var fs := ModelDtypeFields;
    assert Names(fs)[3] == Names(fs[1..])[2] == Names(fs[2..])[1] == Names(fs[3..])[0] by {
      assert fs[1..][1..] == fs[2..] && fs[2..][1..] == fs[3..];
    }
    var p := PackedOffsets(fs, 0);
    assert p[1] == 8 && p[2] == 12 && p[3] == 16 && p[4] == 816 && p[5] == 824;
  }

  lemma ShaderModelNames()
    ensures Names(ShaderModelFields)[2] == "layers"
  {
    var fs := ShaderModelFields;
    assert Names(fs)[2] == Names(fs[1..])[1] == Names(fs[2..])[0] by {
      assert fs[1..][1..] == fs[2..];
    }
  }

  lemma ShaderModelOffsets()
    ensures AlignedOffsets(ShaderModelFields, 0) ==
      [0, 8, OutputLayersOffset, OutputRelErrOffset, OutputTotalEnergyOffset]
  {
    var q := AlignedOffsets(ShaderModelFields, 0);
    assert q[0] == 0 && q[1] == 8;
    assert q[2] == AlignUp(12, 8) == 16;
    assert q[3] == 816 && q[4] == 824;
  }

  lemma ShaderModelLayout()
    ensures Names(ShaderModelFields)[2] == "layers"
    ensures AlignedOffsets(ShaderModelFields, 0) ==
      [0, 8, OutputLayersOffset, OutputRelErrOffset, OutputTotalEnergyOffset]
    ensures Std430Size(ShaderModelFields) == RecordSize
  {
    ShaderModelNames();
    ShaderModelOffsets();
    MaxAlignAttained(ShaderModelFields, 0, F64);
  }

  lemma InputModelNames()
    ensures Names(InputModelFields)[4] == "template_layers"
  {
    var fs := InputModelFields;
    assert fs[1..][1..] == fs[2..] && fs[2..][1..] == fs[3..] && fs[3..][1..] == fs[4..];
    assert Names(fs)[4] == Names(fs[1..])[3] == Names(fs[2..])[2] == Names(fs[3..])[1] == Names(fs[4..])[0];
  }

  lemma InputModelLayout()
    ensures Names(InputModelFields)[4] == "template_layers"
    ensures AlignedOffsets(InputModelFields, 0) == [0, 8, 12, 16, InputLayersOffset]
  {
    InputModelNames();
    var q := AlignedOffsets(InputModelFields, 0);
    assert q[0] == 0 && q[1] == 8;
    assert q[2] == AlignUp(12, 4) == 12;
    assert q[3] == AlignUp(16, 8) == 16;
    assert q[4] == AlignUp(32, 8) == 32;
  }

  lemma ToStructHeaderLayout()
    ensures AlignedOffsets(PackHeaderFields, 0) == [0, 8]
    ensures AlignedEnd(PackHeaderFields) == 12
    ensures AlignedEnd(PackHeaderFields) + ToStructPadding == InputLayersOffset
  {
    var q := AlignedOffsets(PackHeaderFields, 0);
    assert q[0] == 0 && q[1] == 8;
  }

  /**
   * The host decoder (_model_dtype) and the kernel's output struct agree on
   * the offset of every named member, while the layer array of the input
   * record that to_struct writes sits 16 bytes later than in the output record.
   */
  lemma HostAndDeviceLayouts()
    ensures var host, dev := PackedOffsets(ModelDtypeFields, 0), AlignedOffsets(ShaderModelFields, 0);
      host[0] == dev[0] && host[1] == dev[1] && host[3] == dev[2] && host[4] == dev[3] && host[5] == dev[4]
    ensures PackedSize(ModelDtypeFields) == Std430Size(ShaderModelFields)
    ensures AlignedOffsets(InputModelFields, 0)[4] == PackedOffsets(ModelDtypeFields, 0)[3] + 16
  {
    ModelDtypeLayout();
    ShaderModelLayout();
    InputModelLayout();
  }
}
