/**
 * The compute harness around a kernel: program and buffer handles, kernel
 * source loading, dispatch sizing, the payload-size assertion of the buffer
 * upload and the readback of evaluation records.
 *
 * Every OpenGL call is foreign. What the shader compiler and the buffer
 * allocator hand back, and what the device leaves in the output buffer, are
 * parameters.
 */
module Harness {
  import opened Wrappers
  import opened Bytes
  import Include

  /** A GL object name handed out by the driver: never 0, which means "no object". */
  type Handle = n: nat | n > 0 witness 1

  /** What compileShader/compileProgram do with a source: a linked program, or an error log. */
  datatype CompileOutcome = Linked(program: Handle) | CompileFailed(log: string)

  datatype HarnessError =
    | LoadFailed(cause: Include.LoadError)
    | CompilationFailed(log: string)
    | PayloadSizeMismatch(nbytes: nat, byteSize: nat)
    | ReadbackTooShort(available: nat, needed: nat)
    | UniformOutOfRange(value: nat)
    | GLError(call: string)

  /** GLSLComputeProgram: the loaded source and the GL handles it owns. */
  class ComputeProgram {
    const sourceCode: string
    var program: nat
    var ssboIn: nat
    var ssboOut: nat

    constructor WithSource(source: string)
      ensures sourceCode == source
      ensures program == 0 && ssboIn == 0 && ssboOut == 0
    {
      sourceCode := source;
      program := 0;
      ssboIn := 0;
      ssboOut := 0;
    }

    /**
     * compile_program: on success the program handle and a newly generated
     * output buffer name are stored; on failure the exception leaves both
     * fields as they were. The input buffer is never generated.
     */
    method CompileProgram(outcome: CompileOutcome, buffer: Handle) returns (err: Option<HarnessError>)
      modifies this
      ensures outcome.Linked? ==> err.None? && program == outcome.program && ssboOut == buffer
      ensures outcome.CompileFailed? ==>
        err == Some(CompilationFailed(outcome.log)) && program == old(program) && ssboOut == old(ssboOut)
      ensures ssboIn == old(ssboIn)
    {
      if outcome.CompileFailed? {
        return Some(CompilationFailed(outcome.log));
      }
      program := outcome.program;
      ssboOut := buffer;
      return None;
    }
  }

  /**
   * GLSLComputeProgram.__init__: load the source, compile it, and then set
   * all three handles to 0, which throws away what the compile stored.
   */
  method NewComputeProgram(files: Include.Files, path: string, depth: nat, outcome: CompileOutcome, buffer: Handle)
    returns (res: Result<ComputeProgram, HarnessError>)
    ensures Include.LoadSource(files, path, depth).Failure? ==>
      res == Failure(LoadFailed(Include.LoadSource(files, path, depth).error))
    ensures Include.LoadSource(files, path, depth).Success? && outcome.CompileFailed? ==>
      res == Failure(CompilationFailed(outcome.log))
    ensures res.Success? <==> Include.LoadSource(files, path, depth).Success? && outcome.Linked?
    ensures res.Success? ==>
      && fresh(res.value)
      && res.value.sourceCode == Include.LoadSource(files, path, depth).value
      && res.value.program == 0 && res.value.ssboIn == 0 && res.value.ssboOut == 0
  {
    var source := Include.Load(files, path, depth);
    if source.Failure? {
      return Failure(LoadFailed(source.error));
    }
    var prg := new ComputeProgram.WithSource(source.value);
    var err := prg.CompileProgram(outcome, buffer);
    if err.Some? {
      return Failure(err.value);
    }
    prg.program := 0;
    prg.ssboIn := 0;
    prg.ssboOut := 0;
    return Success(prg);
  }

  /**
   * GLSLComputeHarness.create_program: construct (which compiles once and
   * resets the handles) and compile a second time. Only the second compile's
   * handles survive.
   */
  method CreateProgram(files: Include.Files, path: string, depth: nat,
                       first: CompileOutcome, firstBuffer: Handle,
                       second: CompileOutcome, secondBuffer: Handle)
    returns (res: Result<ComputeProgram, HarnessError>)
    ensures res.Success? <==> Include.LoadSource(files, path, depth).Success? && first.Linked? && second.Linked?
    ensures res.Failure? ==> (res.error ==
      if Include.LoadSource(files, path, depth).Failure? then LoadFailed(Include.LoadSource(files, path, depth).error)
      else if first.CompileFailed? then CompilationFailed(first.log)
      else CompilationFailed(second.log))
    ensures res.Success? ==>
      && fresh(res.value)
      && res.value.sourceCode == Include.LoadSource(files, path, depth).value
      && res.value.program == second.program
      && res.value.ssboOut == secondBuffer
      && res.value.ssboIn == 0
  {
    res := NewComputeProgram(files, path, depth, first, firstBuffer);
    if res.Failure? {
      return;
    }
    var err := res.value.CompileProgram(second, secondBuffer);
    if err.Some? {
      return Failure(err.value);
    }
  }

  // ------------------------------------------------------------------
  // Dispatch sizing and buffers
  // ------------------------------------------------------------------

  const LocalSizeX: nat := 256

  /** groups_x: the ceiling of numSamples / 256, so the groups cover every sample and no group is idle. */
  function GroupsX(numSamples: nat): (groups: nat)
    ensures groups * LocalSizeX >= numSamples
    ensures groups * LocalSizeX < numSamples + LocalSizeX
    ensures numSamples > 0 ==> (groups - 1) * LocalSizeX < numSamples
  {
    (numSamples + LocalSizeX - 1) / LocalSizeX
  }

  /** The five doubles a, b, c, p, result of one evaluation record. */
  const EvaluationFields: nat := 5

  /** struct.pack("ddddd", 0., 0., 0., 0., 0.): the template whose length sizes a record. */
  function EvaluationStruct(): (s: seq<byte>)
    ensures |s| == EvaluationFields * DoubleSize == 40
  {
    Zeros(EvaluationFields * DoubleSize)
  }

  /** out_bytes: the output buffer holds one 40-byte record per sample. */
  function OutBytes(numSamples: nat): (n: nat)
    ensures n == numSamples * 40
  {
    numSamples * |EvaluationStruct()|
  }

  /** The store glBufferData gives a buffer: the uploaded bytes, or size bytes left undefined. */
  datatype BufferStore = Uploaded(bytes: seq<byte>) | Uninitialised(size: nat)

  /**
   * _alloc_or_update_ssbo: a payload must have exactly byteSize bytes (an
   * assertion); without one, the buffer is allocated with undefined contents.
   * glBufferData on the name 0, which binds no buffer, is GL_INVALID_OPERATION,
   * which PyOpenGL raises as GLError.
   */
  function AllocOrUpdate(buffer: nat, byteSize: nat, initial: Option<seq<byte>>): (r: Result<BufferStore, HarnessError>)
    ensures r.Success? <==> buffer > 0 && (initial.None? || |initial.value| == byteSize)
    ensures buffer > 0 && initial.None? ==> r == Success(Uninitialised(byteSize))
    ensures initial.Some? && r.Success? ==> r.value == Uploaded(initial.value)
    ensures initial.Some? && |initial.value| != byteSize ==> r == Failure(PayloadSizeMismatch(|initial.value|, byteSize))
    ensures buffer == 0 && (initial.None? || |initial.value| == byteSize) ==> r == Failure(GLError("glBufferData"))
  {
    match initial
    case None => if buffer == 0 then Failure(GLError("glBufferData")) else Success(Uninitialised(byteSize))
    case Some(payload) =>
      if |payload| != byteSize then Failure(PayloadSizeMismatch(|payload|, byteSize))
      else if buffer == 0 then Failure(GLError("glBufferData"))
      else Success(Uploaded(payload))
  }

  /** The number of bytes a buffer store holds. */
  function StoreSize(store: BufferStore): nat
  {
    match store
    case Uploaded(bytes) => |bytes|
    case Uninitialised(size) => size
  }

  lemma AllocatedSize(buffer: nat, byteSize: nat, initial: Option<seq<byte>>)
    requires AllocOrUpdate(buffer, byteSize, initial).Success?
    ensures StoreSize(AllocOrUpdate(buffer, byteSize, initial).value) == byteSize
  {
  }

  /** One record of the readback dtype: fields a, b, c, p and result. */
  datatype Evaluation = Evaluation(a: Double, b: Double, c: Double, p: Double, result: Double)

  function DecodeEvaluation(raw: seq<byte>): Evaluation
    requires |raw| == 40
  {
    Evaluation(raw[0..8], raw[8..16], raw[16..24], raw[24..32], raw[32..40])
  }

  function EncodeEvaluation(e: Evaluation): (raw: seq<byte>)
    ensures |raw| == 40
  {
    e.a + e.b + e.c + e.p + e.result
  }

  lemma EvaluationRoundTrip(e: Evaluation)
    ensures DecodeEvaluation(EncodeEvaluation(e)) == e
  {
    var raw := EncodeEvaluation(e);
    var front: seq<byte> := e.a + e.b + e.c + e.p;
    assert raw == front + e.result;
    assert front[0..8] == e.a && front[8..16] == e.b && front[16..24] == e.c && front[24..32] == e.p;
    assert raw[0..32] == front && raw[32..40] == e.result;
  }

  /**
   * np.frombuffer(raw, dtype, count=numSamples): exactly numSamples records
   * from the front of the buffer; a buffer too short for them is an error.
   */
  function DecodeEvaluations(raw: seq<byte>, count: nat): (r: Result<seq<Evaluation>, HarnessError>)
    ensures r.Success? <==> |raw| >= 40 * count
    ensures r.Success? ==> |r.value| == count
    ensures r.Success? ==> forall i :: 0 <= i < count ==> r.value[i] == DecodeEvaluation(raw[40 * i..40 * i + 40])
    ensures r.Failure? ==> r.error == ReadbackTooShort(|raw|, 40 * count)
  {
    if |raw| < 40 * count then Failure(ReadbackTooShort(|raw|, 40 * count))
    else Success(seq(count, (i: nat) requires i < count => DecodeEvaluation(raw[40 * i..40 * i + 40])))
  }

  function EncodeEvaluations(es: seq<Evaluation>): (raw: seq<byte>)
    ensures |raw| == 40 * |es|
  {
    if |es| == 0 then [] else EncodeEvaluations(es[..|es| - 1]) + EncodeEvaluation(es[|es| - 1])
  }

  lemma {:induction false} EncodeEvaluationsAt(es: seq<Evaluation>, i: nat)
    requires i < |es|
    ensures EncodeEvaluations(es)[40 * i..40 * i + 40] == EncodeEvaluation(es[i])
  {
    var front := EncodeEvaluations(es[..|es| - 1]);
    if i < |es| - 1 {
      EncodeEvaluationsAt(es[..|es| - 1], i);
      assert EncodeEvaluations(es)[40 * i..40 * i + 40] == front[40 * i..40 * i + 40];
    } else {
      assert EncodeEvaluations(es)[40 * i..40 * i + 40] == EncodeEvaluation(es[|es| - 1]);
    }
  }

  /** Reading back what a kernel wrote record by record gives those records. */
  lemma ReadbackRoundTrip(es: seq<Evaluation>)
    ensures DecodeEvaluations(EncodeEvaluations(es), |es|) == Success(es)
  {
    var raw := EncodeEvaluations(es);
    var r := DecodeEvaluations(raw, |es|);
    forall i | 0 <= i < |es| ensures r.value[i] == es[i] {
      EncodeEvaluationsAt(es, i);
      EvaluationRoundTrip(es[i]);
      assert r.value[i] == DecodeEvaluation(raw[40 * i..40 * i + 40]);
    }
    assert r.value == es;
  }

  /** The work run hands to the device: buffer store, uniforms and group count. */
  datatype Dispatch = Dispatch(program: nat, buffer: nat, store: BufferStore,
                               numSamples: uint32, seed: uint32, groupsX: nat)

  /** What a completed run has done and read back. */
  datatype Completed = Completed(dispatch: Dispatch, records: seq<Evaluation>)

  /** The seed uniform run always sets. */
  const Seed: uint32 := 42

  /**
   * run(num_samples), with the out_bytes bytes the device leaves in the
   * output buffer as a parameter: size and allocate the output buffer
   * without a payload, look up the uniforms and set them (np.uint32 refuses
   * a sample count of 2^32 or more), dispatch ceil(num_samples / 256) groups
   * and decode exactly num_samples records from the readback. A program
   * whose handles are still 0 fails at the first GL call that needs them:
   * glBufferData for the output buffer, glGetUniformLocation for the program.
   */
  method Run(prg: ComputeProgram, numSamples: nat, deviceOutput: seq<byte>) returns (res: Result<Completed, HarnessError>)
    requires |deviceOutput| == OutBytes(numSamples)
    ensures prg.ssboOut == 0 ==> res == Failure(GLError("glBufferData"))
    ensures prg.ssboOut > 0 && prg.program == 0 ==> res == Failure(GLError("glGetUniformLocation"))
    ensures prg.ssboOut > 0 && prg.program > 0 ==>
      (numSamples >= 0x1_0000_0000 <==> res == Failure(UniformOutOfRange(numSamples)))
    ensures res.Success? <==> prg.ssboOut > 0 && prg.program > 0 && numSamples < 0x1_0000_0000
    ensures res.Success? ==>
      var d := res.value.dispatch;
      && d.program == prg.program && d.buffer == prg.ssboOut
      && d.store == Uninitialised(numSamples * 40)
      && d.numSamples as int == numSamples && d.seed == 42
      && d.groupsX == GroupsX(numSamples)
      && |res.value.records| == numSamples
      && Success(res.value.records) == DecodeEvaluations(deviceOutput, numSamples)
  {
    var evaluationStruct := EvaluationStruct();
    var outBytes := numSamples * |evaluationStruct|;
    var store := AllocOrUpdate(prg.ssboOut, outBytes, None);
    if store.Failure? {
      return Failure(store.error);
    }
    if prg.program == 0 {
      return Failure(GLError("glGetUniformLocation"));
    }
    if numSamples >= 0x1_0000_0000 {
      return Failure(UniformOutOfRange(numSamples));
    }
    var groupsX := (numSamples + LocalSizeX - 1) / LocalSizeX;
    var dispatch := Dispatch(prg.program, prg.ssboOut, store.value, numSamples as uint32, Seed, groupsX);
    var records := DecodeEvaluations(deviceOutput, numSamples);
    return Success(Completed(dispatch, records.value));
  }
}
