# Tuyok host/device record core, in Dafny

This project models the integer and byte-level core of Tuyok's GPU variation
explorer. The host side is a Python `Model` dict of ellipsoidal layers. It
validates its layers (`_recalculate`), packs itself into an input record
(`to_struct`), and rebuilds a dict from one output record of the numpy dtype
`_model_dtype` (`from_struct`). A compute harness expands `#include` lines in
the kernel source, owns the GL program and buffer handles, sizes the dispatch
and the output buffer, and decodes the readback. On the device, the kernel
`explore_variations` seeds a PCG generator per invocation, copies the
template model into a local `Model`, zeroes its two scores and writes one
slot of the output buffer.

Modules:

- `Wrappers`: `Option`, `Result`, and `Prepend` for lists built by a loop
  that stops at the first error.
- `Bytes`: bytes, `uint32`, little-endian 32-bit words, and doubles as
  opaque 8-byte values.
- `Layout`: the two placement rules (a packed numpy dtype, and the aligned
  rule shared by `struct.pack` native mode and GLSL std430), applied to the
  field lists the source declares.
- `Records` (Model.py): the layer decision table, the `Model` class with
  `Recalculate` and `ToStruct` as loops over its fields, the byte image of
  `to_struct`, and the `_model_dtype` record with `from_struct`.
- `Include` (compute_harness.py): `load`/`load_lines` over a map from path to
  lines.
- `Harness` (compute_harness.py): the `ComputeProgram` class and its handle
  fields, `create_program`, dispatch sizing, the payload-size assertion, and
  `run` with the readback.
- `Pcg` (shader/random.glsl.c): `PCGState`, `pcg_hash`, `initPCG`.
- `Kernel` (shader/explore_variations.glsl.c): the `InputModel` buffer, one
  invocation of `main`, and its effect on the `OutputModels` array.

The arithmetic follows the source's integer widths. GLSL `uint` arithmetic
wraps modulo 2^32: the LCG state step is written on integers and reduced by
`Pcg.Wrap`, and the RXS-M-XS output permutation is written on `bv32`.
`np.cbrt(a*b*c)` and `np.isclose(.., rtol=1e-8)` are the two function fields
of `Records.Numerics`, so every property about validation holds whatever
those functions compute.

The code and its own comments disagree in two places, and the model follows
the code:

- `struct Model` in shader/explore_variations.glsl.c carries comments placing
  `layers` at offset 32 and the scores at 1312/1320. Under std430, with the
  40-byte `Layer`, the members sit at 16, 816 and 824, which is the packed
  `_model_dtype` layout (`Layout.HostAndDeviceLayouts`).
- The comment in `to_struct` says each layer takes 64 bytes. The code packs
  five doubles, 40 bytes (`Records.SerializeLayout`).

## Model

| member | source | states |
|---|---|---|
| Records.NormalizeLayer | Model.py:45-56 | one layer's decision table: success iff the layer has abc or r and, when it has both, r is close to cbrt(a·b·c); neither key gives MissingAbcOrR; an inconsistent pair gives InconsistentAbcAndR; on success the layer is complete, keeps density and whichever of abc and r it had, and gets abc = (r, r, r) or r = cbrt(a·b·c) |
| Records.FirstInadmissible | Model.py:45-56 | the index where validation stops: every earlier layer is admissible and, when below the length, the layer there is not |
| Records.FirstInadmissibleAt | Model.py:45-56 | any index with all earlier layers admissible and itself inadmissible (or at the end) is that stopping index |
| Records.RecalculateAll | Model.py:44-56 | _recalculate's outcome on the layer list: success iff every layer is admissible; then each layer is complete, keeps what it had and gets what it lacked; otherwise the error is that of the first inadmissible layer |
| Records.Model.Recalculate | Model.py:44-56 | without a 'layers' key it raises the KeyError and changes nothing; otherwise the in-place loop: layers before the first inadmissible one are normalised, that layer and the rest are untouched, the error is the one that layer raises, the other keys are unchanged, and a normal return leaves exactly RecalculateAll's layers |
| Records.Model.FromDict | Model.py:38-39 | the dict constructor holds exactly the given keys |
| Records.Model.Create | Model.py:38-45 | Model(d) raises KeyError when d has no 'layers'; otherwise it succeeds iff RecalculateAll does, and yields a fresh object holding d with the validated layers, or raises RecalculateAll's error |
| Records.ValidatedLayersNeedOnlyDensity | Model.py:44-56 | after a successful validation a layer has every key to_struct reads iff it was given a density |
| Records.RecalculateIdempotent | Model.py:44-56 | when each radius derived from abc is close to itself and cbrt(r·r·r) is close to r, validating validated layers again changes nothing |
| Records.RevalidationCanFail | Model.py:49-56 | without that proviso a layer given only r can pass once and then fail the consistency check on a second pass |
| Records.Model.ToStruct | Model.py:75-95 | the loop that appends the header, the 20 zero bytes and each layer's five doubles returns exactly Serialize of the object's keys, including each KeyError and the uint32 range error |
| Records.SerializeLayout | Model.py:75-95 | to_struct's bytes are 32 + 40n long: angular_momentum at 0..8, n as a little-endian uint32 at 8..12, zeros at 12..32, and layer i's a, b, c, r, density at 32+40i..72+40i |
| Records.LayersBytesLayout | Model.py:84-93 | the layer part is 40n bytes with layer i at 40i..40i+40, and each layer has abc, r and density |
| Records.SerializeSucceedsIff | Model.py:75-95 | to_struct succeeds iff angular_momentum and layers are present, the layer count fits a uint32 and every layer has abc, r and density; a missing angular_momentum is the KeyError reported, and then a missing layers |
| Records.LayersBytesSucceedsIff | Model.py:84-93 | packing the layers succeeds iff no layer misses a key, and otherwise fails with the missing key of the first layer that misses one |
| Records.FromStruct | Model.py:58-73 | from_struct copies angular_momentum and both scores and builds one layer dict per slot of layers[:num_layers], clamped to the 20 slots, in order |
| Records.RecordRoundTrip | Model.py:27-35 | decoding the 832-byte encoding of a _model_dtype record gives the record back |
| Records.BytesRoundTrip | Model.py:27-35 | encoding a decoded 832-byte record reproduces its bytes: no byte of the record is lost |
| Records.LayerRecordsDecode | Model.py:18-25 | decoding the concatenated 40-byte encodings of a list of layer records gives the list back |
| Records.LayerRecordsRoundTrip | Model.py:18-25 | encoding the layer records decoded from 40n bytes reproduces the bytes |
| Records.ModelDtypeMisreadsInputRecord | Model.py:27-35 | the input record to_struct writes is not a _model_dtype record: read with that dtype, layer 0's a and b are the zero padding, its c is layer 0's a, and the two scores are layer 19's r and density |
| Bytes.U32RoundTrip | Model.py:78-80 | the little-endian uint32 that struct.pack 'I' writes decodes to the same number |
| Bytes.BytesRoundTrip | Model.py:29 | four bytes read as the uint32 num_layers and written back are the same four bytes |
| Bytes.Zeros | Model.py:82 | the padding is n bytes, each zero |
| Layout.LayerLayout | Model.py:18-25 | a layer record is five doubles at offsets 0, 8, 16, 24 and 32, 40 bytes in all, the same under the packed rule, the aligned rule and std430 |
| Layout.ModelDtypeLayout | Model.py:27-35 | _model_dtype puts num_layers at 8, the pad at 12, layers at 16, the scores at 816 and 824, and is 832 bytes |
| Layout.ShaderModelLayout | shader/explore_variations.glsl.c:19-28 | the kernel's struct Model under std430 puts layers at 16 and the scores at 816 and 824, and is 832 bytes |
| Layout.InputModelLayout | shader/explore_variations.glsl.c:35-42 | the InputModel block puts its members at 0, 8, 12, 16 and template_layers at 32 |
| Layout.ToStructHeaderLayout | Model.py:78-82 | struct.pack('dI') puts the count at 8 and ends at 12, and the 20 padding bytes bring the layers to offset 32 |
| Layout.HostAndDeviceLayouts | shader/explore_variations.glsl.c:19-47 | _model_dtype and the kernel's output struct agree on every member's offset and on the size, while the input record's layers sit 16 bytes later |
| Layout.AlignUp | shader/explore_variations.glsl.c:35-42 | a multiple of the alignment, at or after the offset and less than one alignment further (so the least such multiple), and the offset itself when already aligned |
| Layout.MaxAlignAttained | shader/explore_variations.glsl.c:11-17 | a struct's alignment is the largest member alignment, reached by any member that attains the bound |
| Include.LoadLines | compute_harness.py:61-73 | the read-and-append loop with its recursion for include lines returns exactly ExpandFile: the expanded lines, or the first error in reading order |
| Include.Load | compute_harness.py:59-77 | load returns the concatenation of load_lines' result, or its error |
| Include.Strip | compute_harness.py:66 | str.strip(): the result is a slice of the line after its leading whitespace, starts and ends with a non-space and drops only whitespace at the end |
| Include.EvalLiteral | compute_harness.py:68 | evaluation succeeds iff the argument is a single- or double-quoted literal with no backslash, line break or own quote inside, and then gives the text between the quotes; anything else is a bad argument |
| Include.PlainLiteralEvaluates | compute_harness.py:68 | a path of plain characters in matching quotes evaluates to that path |
| Include.PlainLineKept | compute_harness.py:71-72 | a line that is not a directive is emitted unchanged, in front of the rest of the expansion |
| Include.IncludeSpliced | compute_harness.py:67-70 | a directive line is dropped and the expansion of the file its literal names is spliced in its place; an error there is the result |
| Include.BadArgumentFails | compute_harness.py:68 | a directive whose argument is not a plain literal stops the expansion with that argument |
| Include.ExpandLinesAppend | compute_harness.py:65-73 | expanding two line lists in sequence is expanding the first and then the second |
| Include.NoIncludesUnchanged | compute_harness.py:65-73 | lines without directives expand to themselves |
| Include.NoIncludesLoadsItself | compute_harness.py:59-77 | a file with no include lines loads as the concatenation of its own lines |
| Include.MissingFileFails | compute_harness.py:63-64 | opening a path that is not there is reported with that path |
| Include.ExpandedLinesArePlain | compute_harness.py:61-73 | every line of a successful expansion is a non-directive line of some file |
| Include.IncludeCycleNeverTerminates | compute_harness.py:61-73 | without cycle detection, every file of an include cycle (each file including a file of the cycle, with only plain lines before that directive) fails at every recursion limit |
| Include.SelfIncludeNeverTerminates | compute_harness.py:67-70 | a file that includes itself on any line after plain lines fails at every recursion limit |
| Include.MutualIncludeNeverTerminates | compute_harness.py:67-70 | two files that include each other both fail at every recursion limit |
| Include.DepthMonotone | compute_harness.py:61-73 | a result that did not hit the recursion limit stays the same under any larger limit |
| Harness.ComputeProgram.WithSource | compute_harness.py:50-52 | a new program object holds the loaded source and no handles |
| Harness.ComputeProgram.CompileProgram | compute_harness.py:84-100 | a linked compile stores the program handle and the new output buffer name; a failed one raises with the log and leaves both fields; ssbo_in is never set |
| Harness.NewComputeProgram | compute_harness.py:50-56 | construction succeeds iff the source loads and compiles, and the object then holds the loaded source with all three handles 0, because the reset follows the compile |
| Harness.CreateProgram | compute_harness.py:246-249 | create_program succeeds iff the source loads and both compiles link, and only the second compile's handles are kept; otherwise it raises the load error, else the first compile's error, else the second's |
| Harness.GroupsX | compute_harness.py:105-167 | groups_x·256 covers num_samples and falls short of it by less than one group |
| Harness.OutBytes | compute_harness.py:129-137 | the output buffer is num_samples × 40 bytes |
| Harness.AllocOrUpdate | compute_harness.py:107-122 | succeeds iff the buffer name is nonzero and a payload, if any, has exactly byte_size bytes; a payload is then uploaded, and without one the buffer is byte_size undefined bytes; a size mismatch is the assertion error with both sizes, raised before glBufferData; glBufferData on name 0 raises GLError |
| Harness.AllocatedSize | compute_harness.py:115-119 | an allocated buffer store always holds byte_size bytes |
| Harness.DecodeEvaluations | compute_harness.py:183-195 | the readback succeeds iff the buffer holds 40·count bytes, and then gives exactly count records, record i decoded from bytes 40i..40i+40 |
| Harness.EvaluationRoundTrip | compute_harness.py:183-189 | decoding an encoded five-double record gives it back |
| Harness.ReadbackRoundTrip | compute_harness.py:192-195 | reading back records written one after another gives those records |
| Harness.Run | compute_harness.py:103-205 | run succeeds iff the output buffer and program handles are nonzero and num_samples fits the uint32 uniform; a zero output buffer raises GLError at glBufferData, then a zero program at glGetUniformLocation, then an oversized count is UniformOutOfRange; on success it allocates the output buffer with num_samples·40 undefined bytes, sets seed 42, dispatches ceil(num_samples/256) groups and decodes exactly num_samples records from the readback |
| Pcg.PcgHash | shader/random.glsl.c:7-12 | the state becomes old·747796405 + inc mod 2^32, the increment is unchanged, and the returned word is the permutation of the old state alone |
| Pcg.ShiftAmount | shader/random.glsl.c:10 | the data-dependent shift (x >> 28) + 4 lies between 4 and 19 |
| Pcg.Increment | shader/random.glsl.c:21 | the stream increment (sequence << 1) \| 1 is odd |
| Pcg.Seeded | shader/random.glsl.c:19-25 | the seeded state is ((inc + seed)·747796405 + inc) mod 2^32 with inc the stream increment |
| Pcg.InitPcg | shader/random.glsl.c:19-25 | initPCG yields exactly Seeded(seed, sequence), whatever the state held before, with an odd increment |
| Pcg.SequenceBit31Lost | shader/random.glsl.c:21 | sequences that agree on their low 31 bits give the same increment and the same seeded state |
| Pcg.IncrementInjectiveBelowBit31 | shader/random.glsl.c:21 | below 2^31 different sequences give different increments |
| Pcg.LcgStepInvertible | shader/random.glsl.c:9 | the state step is undone by multiplying by the inverse of 747796405 modulo 2^32, so it permutes the states of a stream |
| Pcg.AdvanceAdds | shader/random.glsl.c:7-12 | m steps followed by n steps are m + n steps |
| Kernel.DecodeInput | shader/explore_variations.glsl.c:35-42 | the kernel reads the header at 0 and 8 and as many template layers as the buffer holds, layer i at 32 + 40i |
| Kernel.BuildVariation | shader/explore_variations.glsl.c:71-111 | the local Model gets the template's angular_momentum and num_layers, a copy of every template layer below num_layers, the uninitialised contents in the other slots, zero scores, and the generator advanced exactly three steps per layer from the stream seeded with (seed + idx, idx) |
| Kernel.VaryLayer | shader/explore_variations.glsl.c:88-105 | one loop pass copies the template layer field by field and advances the generator three steps |
| Kernel.Invoke | shader/explore_variations.glsl.c:63-115 | an index at or beyond num_variations writes nothing; any other writes Variation to variations[idx] and leaves every other slot as it was |
| Kernel.ToStructFeedsInputModel | shader/explore_variations.glsl.c:35-42 | the kernel reads to_struct's bytes as the host meant them: angular_momentum, the layer count, and exactly the host's layers |
| Kernel.VariationRoundTrip | shader/explore_variations.glsl.c:63-115 | a model of at most 20 layers sent through to_struct, one invocation, the output record and from_struct comes back with the same angular momentum and layers and zero scores |
| Kernel.DistinctStreams | shader/explore_variations.glsl.c:72-73 | invocations with different indices below 2^31 draw from different PCG streams |

## Left out

- Floating point: `pcg_float`, the `exp2` multipliers (never applied, since
  the multiplications are commented out) and the `annealing_temperature`
  uniform that feeds only them. The generator's words are drawn and the
  generator state is tracked, but no float is derived from them.
- `np.cbrt` and `np.isclose` are uninterpreted parameters (`Records.Numerics`).
  Properties that need arithmetic facts about them take those facts as
  preconditions (`Records.RecalculateIdempotent`).
- Doubles are opaque 8-byte patterns. Type errors that `struct.pack` would
  raise for a non-numeric value, and values that are not 8 bytes, are
  outside the model.
- Include.EvalLiteral: `eval` is modelled only for a plain single- or
  double-quoted literal; any other argument (escapes, concatenation,
  arbitrary Python) is reported as `BadIncludeArgument` instead of evaluated.
- Include.IncludeCycleNeverTerminates: it covers cycles in which each file's
  cycle-closing directive follows only plain lines. A cycle whose directive
  comes after other, terminating includes in the same file is not stated.
- Include.LoadLines: Python's recursion limit is the explicit `depth`
  parameter, and the file system is a map from path to lines. Encoding
  errors and partial reads are not modelled.
- The debugging `print` calls (`print(subpath)`, the checkpoints) and
  `_dump_src` have no effect on the modelled state and are left out.
- Every OpenGL and Qt call is foreign: the compile outcome, the generated
  buffer name and the bytes the device leaves in the output buffer are
  parameters. The Qt context set-up in `GLSLComputeHarness.__init__` and
  `cleanup` are not modelled.
- Harness.Run: the sample count is a `nat`. A negative `num_samples`, which
  gives a negative `out_bytes` that `glBufferData` refuses, is outside the
  model's domain. Of the GL errors, only those of a handle still 0 are
  modelled; a nonzero name the driver did not hand out is not. The readback
  is given as exactly `out_bytes` bytes, as `glGetBufferSubData` returns. A sample count of 2^32 or more is an error,
  as `np.uint32` raises on it; older NumPy versions wrap the value instead.
  The output buffer is allocated (`glBufferData` with `out_bytes`) before
  that error is raised; the model computes `AllocOrUpdate` first in the
  same order, but the allocation itself is a foreign call.
- Harness.AllocOrUpdate: the size check is a Python `assert`, which
  `python -O` removes; the model treats it as always enforced.
- Harness.Run does not connect the compute_harness.py kernel (which takes
  `num_samples`) to shader/explore_variations.glsl.c (which takes
  `num_variations` and another buffer layout). The source wires them up
  only through `Model.explore_variations`, which depends on classes
  compute_harness.py does not define.
- `Model.explore_variations` is left out. It calls `ShaderConfig`,
  `BufferSpec` and `UniformSpec`, which the shown harness does not define,
  and reads the global `model` instead of `self`. The best/top-k reduction
  its callers expect does not exist in the source.
- Records.FromStruct returns the dict as a value. The numpy scalar types of
  its values (`np.float64`, `np.uint32`) are not modelled.
- Records.Model.Create takes the layer dicts by value. In the source,
  `Model(d)` copies `d` shallowly, so `_recalculate` writes `abc` and `r`
  into the caller's own layer dicts, including those it fixed up before it
  raised part-way through the list. That mutation of the caller's dicts is
  not modelled, and neither is aliasing inside the list: a dict listed twice
  is validated twice in the source, and its second visit sees the keys the
  first one added. A layer given only a huge r (1e200, say) gets abc on the
  first visit and then fails the consistency check on the second, since
  r·r·r overflows; the model validates both entries from the given values
  and succeeds.
- Records.RecalculateIdempotent: layers whose derived radius is NaN (which
  `np.isclose` rejects even against itself) are excluded by its
  precondition.
- Kernel.BuildVariation: the uninitialised local `Model variation` is a
  parameter (`uninit`), so the slots beyond `num_layers` and the padding hold
  whatever that parameter holds. A `num_layers` above 20, or above the
  number of template layers, indexes out of bounds in the kernel; the model
  requires it not to (`Kernel.InBounds`).
- Kernel.Invoke models one invocation. Concurrency between invocations is
  not modelled; each writes only its own slot.
- Pcg.Permute: its invertibility (RXS-M-XS is a bijection on 32-bit words) is
  not proved. Only its dependence on the old state is stated.
