/**
 * The DMA-BUF converter of host/encoder/intel_vaapi.cpp: one pending surface and the imported producer
 * buffers, against a GPU that may go on reading and writing after a wait has timed out.
 */
module Vaapi {
  import opened Bytes

  type Surface = nat
  type Buffer = int

  const WIDTH_BYTES: nat := 2560 * 4
  const LAST_ROW: nat := 1439
  const UINT32_MAX: nat := 0xFFFF_FFFF

  /** A conversion the GPU has been given and has not finished. */
  datatype Conversion = Conversion(input: Surface, output: Surface)

  /**
   * How process() goes: the parameters cannot be mapped; the picture cannot be begun; it is submitted and an
   * error or the timeout ends the wait; it completes.
   */
  datatype Outcome = MapFailed | BeginFailed | Unfinished | Finished

  datatype Layout = Layout(fd: int, offset: nat, stride: int, modifier: nat, alpha: bool)
  datatype Import = Import(surface: Surface, layout: Layout)

  /** What a producer buffer says about itself. */
  datatype Plane = Plane(count: nat, dmaBuf: bool, chunk: bool, fd: int, offset: nat, stride: int)

  datatype ImportError = NotOnePlane | InvalidMetadata | LayoutChanged | UnknownSize | ExceedsObject | NotCreated

  /** One packed plane of one DMA-BUF, with rows that do not overlap. */
  predicate Packed(plane: Plane) {
    plane.count == 1 && plane.dmaBuf && plane.chunk && plane.fd >= 0 && plane.stride >= WIDTH_BYTES
  }

  /** The object holds the plane; only a linear layout is checked to its last byte. */
  predicate Inside(plane: Plane, modifier: nat, size: int) {
    && 0 < size <= UINT32_MAX && plane.offset < size
    && (modifier == 0 ==> plane.offset + plane.stride * LAST_ROW + WIDTH_BYTES <= size)
  }

  function Position(plane: Plane, y: nat, x: nat): (p: int) {
    plane.offset + plane.stride * y + x
  }

  /** Waiting for a surface ends every conversion that writes it, and no other. */
  function Synced(running: set<Conversion>, surface: Surface): (left: set<Conversion>) {
    set c | c in running && c.output != surface
  }

  function SyncedPending(pending: Option<Surface>, running: set<Conversion>): (left: set<Conversion>) {
    if pending.Some? then Synced(running, pending.value) else running
  }

  /** process(): what is left pending, and what is left running. */
  function Processed(pending: Option<Surface>, running: set<Conversion>, input: Surface, output: Surface,
      outcome: Outcome)
    : (left: (Option<Surface>, set<Conversion>))
  {
    match outcome
    case MapFailed => (pending, running)
    case BeginFailed => (Some(output), running)
    case Unfinished => (Some(output), running + {Conversion(input, output)})
    case Finished => (None, Synced(running, output))
  }

  /** upload(): a failure is settled before it is passed on. */
  function Uploaded(pending: Option<Surface>, running: set<Conversion>, input: Surface, output: Surface,
      outcome: Outcome)
    : (left: (Option<Surface>, set<Conversion>))
  {
    var left := Processed(pending, running, input, output, outcome);
    (None, SyncedPending(left.0, left.1))
  }

  /** Every unfinished conversion writes the pending surface: waiting for that one is waiting for all. */
  ghost predicate Covered(pending: Option<Surface>, running: set<Conversion>) {
    forall c :: c in running ==> pending == Some(c.output)
  }

  /** The surfaces held by the imports, each by one of them. */
  ghost predicate Owns(imports: map<Buffer, Import>, live: set<Surface>) {
    && live == (set b | b in imports :: imports[b].surface)
    && forall b, d :: b in imports && d in imports && imports[b].surface == imports[d].surface ==> b == d
  }

  class Gpu {
    var running: set<Conversion>
    var live: set<Surface>
    var destroyedWhileRead: bool

    method Submit(input: Surface, output: Surface)
      modifies this`running
      ensures running == old(running) + {Conversion(input, output)}
    {
      running := running + {Conversion(input, output)};
    }

    method Sync(surface: Surface)
      modifies this`running
      ensures running == Synced(old(running), surface)
    {
      running := set c | c in running && c.output != surface;
    }

    method Create(surface: Surface)
      modifies this`live
      ensures live == old(live) + {surface}
    {
      live := live + {surface};
    }

    method Destroy(surface: Surface)
      modifies this`live, this`destroyedWhileRead
      ensures live == old(live) - {surface}
      ensures destroyedWhileRead <==> old(destroyedWhileRead) || exists c :: c in running && c.input == surface
    {
      destroyedWhileRead := destroyedWhileRead || exists c :: c in running && c.input == surface;
      live := live - {surface};
    }
  }

  class Converter {
    const gpu: Gpu
    var pending: Option<Surface>
    var imports: map<Buffer, Import>

    ghost predicate Valid()
      reads this, gpu
    {
      Owns(imports, gpu.live)
    }

    constructor (gpu: Gpu)
      requires gpu.live == {} && gpu.running == {}
      ensures this.gpu == gpu && pending == None && imports == map[]
      ensures Valid() && Covered(pending, gpu.running)
    {
      this.gpu := gpu;
      pending, imports := None, map[];
    }

    method Process(input: Surface, output: Surface, outcome: Outcome) returns (ok: bool)
      modifies this`pending, gpu`running
      ensures (pending, gpu.running) == Processed(old(pending), old(gpu.running), input, output, outcome)
      ensures ok <==> outcome == Finished
    {
      if outcome == MapFailed {
        return false;
      }
      pending := Some(output);
      if outcome == BeginFailed {
        return false;
      }
      gpu.Submit(input, output);
      if outcome == Unfinished {
        return false;
      }
      gpu.Sync(output);
      pending := None;
      assert gpu.running == Synced(old(gpu.running), output);
      return true;
    }

    /** A buffer that was never imported, or was removed since, is refused. */
    method Convert(buffer: Buffer, output: Surface, outcome: Outcome) returns (ok: bool)
      modifies this`pending, gpu`running
      ensures ok <==> buffer in imports && outcome == Finished
      ensures (pending, gpu.running) ==
              if buffer in imports then Processed(old(pending), old(gpu.running), imports[buffer].surface, output,
                  outcome)
              else (old(pending), old(gpu.running))
    {
      if buffer !in imports {
        return false;
      }
      ok := Process(imports[buffer].surface, output, outcome);
    }

    method Settle()
      modifies this`pending, gpu`running
      ensures pending == None && gpu.running == SyncedPending(old(pending), old(gpu.running))
      ensures old(Covered(pending, gpu.running)) ==> gpu.running == {}
    {
      if pending.Some? {
        gpu.Sync(pending.value);
        pending := None;
      }
    }

    /** No surface is destroyed while a conversion reads it, if the pending surface covers them all. */
    method Remove(buffer: Buffer)
      requires Valid()
      modifies this, gpu
      ensures Valid()
      ensures pending == None && gpu.running == SyncedPending(old(pending), old(gpu.running))
      ensures imports == old(imports) - {buffer}
      ensures gpu.destroyedWhileRead <==>
              || old(gpu.destroyedWhileRead)
              || (buffer in old(imports) && exists c :: c in gpu.running && c.input == old(imports)[buffer].surface)
      ensures old(Covered(pending, gpu.running)) ==>
                gpu.running == {} && gpu.destroyedWhileRead == old(gpu.destroyedWhileRead)
    {
      if pending.Some? {
        gpu.Sync(pending.value);
        pending := None;
      }
      if buffer in imports {
        gpu.Destroy(imports[buffer].surface);
        ImportRemoved(imports, buffer, old(gpu.live));
        imports := imports - {buffer};
      } else {
        assert imports - {buffer} == imports;
      }
    }

    method Upload(input: Surface, output: Surface, outcome: Outcome) returns (ok: bool)
      modifies this`pending, gpu`running
      ensures (pending, gpu.running) == Uploaded(old(pending), old(gpu.running), input, output, outcome)
      ensures ok <==> outcome == Finished
    {
      ok := Process(input, output, outcome);
      if !ok {
        if pending.Some? {
          gpu.Sync(pending.value);
        }
        pending := None;
      }
    }

    /**
     * A buffer keeps the layout it was imported with until it is removed. `size` is what lseek() says,
     * `surface` what the driver creates.
     */
    method ImportBuffer(buffer: Buffer, plane: Plane, modifier: nat, alpha: bool, size: int, surface: Option<Surface>)
      returns (r: Result<Import, ImportError>)
      requires Valid()
      requires surface.Some? ==> surface.value !in gpu.live
      modifies this`imports, gpu`live
      ensures Valid()
      ensures var layout := Layout(plane.fd, plane.offset, plane.stride, modifier, alpha);
        r.Success? <==>
        && plane.count == 1 && plane.dmaBuf && plane.chunk && plane.fd >= 0 && plane.stride >= 10240
        && if buffer in old(imports) then old(imports)[buffer].layout == layout
           else
             && 0 < size <= 0xFFFF_FFFF && plane.offset < size
             && (modifier == 0 ==> plane.offset + plane.stride * 1439 + 10240 <= size)
             && surface.Some?
      ensures r.Success? ==>
                && r.value.layout == Layout(plane.fd, plane.offset, plane.stride, modifier, alpha)
                && imports == old(imports)[buffer := r.value]
                && if buffer in old(imports) then imports == old(imports) && gpu.live == old(gpu.live)
                   else r.value.surface == surface.value && gpu.live == old(gpu.live) + {surface.value}
      ensures r.Failure? ==> imports == old(imports) && gpu.live == old(gpu.live)
      ensures r == Failure(LayoutChanged) ==>
                buffer in imports && imports[buffer].layout != Layout(plane.fd, plane.offset, plane.stride, modifier,
                    alpha)
    {
      if plane.count != 1 || !plane.dmaBuf {
        return Failure(NotOnePlane);
      }
      if !plane.chunk || plane.fd < 0 || plane.stride < WIDTH_BYTES {
        return Failure(InvalidMetadata);
      }
      var layout := Layout(plane.fd, plane.offset, plane.stride, modifier, alpha);
      if buffer in imports {
        if imports[buffer].layout != layout {
          return Failure(LayoutChanged);
        }
        assert imports[buffer := imports[buffer]] == imports;
        return Success(imports[buffer]);
      }
      if size <= 0 || size > UINT32_MAX {
        return Failure(UnknownSize);
      }
      if plane.offset >= size || (modifier == 0 && plane.offset + plane.stride * LAST_ROW + WIDTH_BYTES > size) {
        return Failure(ExceedsObject);
      }
      if surface == None {
        return Failure(NotCreated);
      }
      gpu.Create(surface.value);
      ImportAdded(imports, buffer, Import(surface.value, layout), old(gpu.live));
      imports := imports[buffer := Import(surface.value, layout)];
      return Success(imports[buffer]);
    }

    /** The destructor waits for the pending surface, then destroys every imported one. */
    method Destroy()
      requires Valid()
      modifies this, gpu
      ensures gpu.live == {}
      ensures old(Covered(pending, gpu.running)) ==>
                gpu.running == {} && gpu.destroyedWhileRead == old(gpu.destroyedWhileRead)
    {
      if pending.Some? {
        gpu.Sync(pending.value);
      }
      while exists b :: b in imports
        invariant Owns(imports, gpu.live) && gpu.running == SyncedPending(old(pending), old(gpu.running))
        invariant old(Covered(pending, gpu.running)) ==> gpu.destroyedWhileRead == old(gpu.destroyedWhileRead)
        decreases |imports|
      {
        var buffer :| buffer in imports;
        ghost var before := gpu.live;
        gpu.Destroy(imports[buffer].surface);
        ImportRemoved(imports, buffer, before);
        imports := imports - {buffer};
      }
    }
  }

  /** The guard of a new import is exact: every byte of a linear image lies inside its object. */
  lemma ImportGuardIsExact(plane: Plane, modifier: nat, size: int)
    requires Packed(plane) && 0 < size <= UINT32_MAX && modifier == 0
    ensures Inside(plane, modifier, size) <==>
            forall y: nat, x: nat :: y < 1440 && x < 10240 ==> Position(plane, y, x) < size
  {
    if Inside(plane, modifier, size) {
      forall y: nat, x: nat | y <= LAST_ROW && x < WIDTH_BYTES
        ensures Position(plane, y, x) < size
      {
        assert plane.stride * y <= plane.stride * LAST_ROW;
      }
    } else {
      assert Position(plane, LAST_ROW, WIDTH_BYTES - 1) >= size;
    }
  }

  lemma ImportRemoved(imports: map<Buffer, Import>, buffer: Buffer, live: set<Surface>)
    requires Owns(imports, live) && buffer in imports
    ensures Owns(imports - {buffer}, live - {imports[buffer].surface})
    ensures |imports - {buffer}| < |imports|
  {
    var left := imports - {buffer};
    forall s
      ensures s in live - {imports[buffer].surface} <==> s in (set b | b in left :: left[b].surface)
    {
      if s in live && s != imports[buffer].surface {
        var b :| b in imports && imports[b].surface == s;
        assert b in left && left[b].surface == s;
      }
    }
    assert left.Keys == imports.Keys - {buffer};
    assert |left| == |left.Keys| && |imports| == |imports.Keys|;
  }

  lemma ImportAdded(imports: map<Buffer, Import>, buffer: Buffer, entry: Import, live: set<Surface>)
    requires Owns(imports, live) && buffer !in imports && entry.surface !in live
    ensures Owns(imports[buffer := entry], live + {entry.surface})
  {
    var more := imports[buffer := entry];
    forall s
      ensures s in live + {entry.surface} <==> s in (set b | b in more :: more[b].surface)
    {
      if s in live {
        var b :| b in imports && imports[b].surface == s;
        assert b in more && more[b].surface == s;
      } else if s == entry.surface {
        assert buffer in more && more[buffer].surface == s;
      }
    }
    forall b | b in imports
      ensures imports[b].surface in live
    {
    }
  }

  // ---------------------------------------------------------------------------------------------
  // When the pending surface covers every conversion
  // ---------------------------------------------------------------------------------------------

  /**
   * process() overwrites the pending surface. Whatever the GPU is doing, the surface it leaves covers every
   * conversion if and only if nothing was pending, or the same output was, or the call did not get that far.
   */
  lemma CoveredAfterProcess(pending: Option<Surface>, input: Surface, output: Surface, outcome: Outcome)
    ensures (forall running :: Covered(pending, running) ==>
               var left := Processed(pending, running, input, output, outcome); Covered(left.0, left.1))
            <==> pending == None || pending == Some(output) || outcome == MapFailed
  {
    if pending.Some? && pending != Some(output) && outcome != MapFailed {
      var running := {Conversion(input, pending.value)};
      assert Covered(pending, running);
      var left := Processed(pending, running, input, output, outcome);
      assert Conversion(input, pending.value) in left.1;
    }
  }

  /** upload() settles its own conversion only: the same condition decides whether an older one is covered. */
  lemma CoveredAfterUpload(pending: Option<Surface>, input: Surface, output: Surface, outcome: Outcome)
    ensures (forall running :: Covered(pending, running) ==>
               var left := Uploaded(pending, running, input, output, outcome); Covered(left.0, left.1))
            <==> pending == None || pending == Some(output) || outcome == MapFailed
  {
    if pending.Some? && pending != Some(output) && outcome != MapFailed {
      var running := {Conversion(input, pending.value)};
      assert Covered(pending, running);
      var left := Uploaded(pending, running, input, output, outcome);
      assert Conversion(input, pending.value) in left.1;
    }
  }

  /**
   * A conversion into surface 1 times out; a second one, into surface 2, completes. Nothing is pending any
   * more, so settling waits for nothing, and removing buffer 0 destroys the surface that is still read.
   */
  method SecondConversionLosesTheFirst() returns (converter: Converter)
    ensures converter.gpu.destroyedWhileRead
  {
    var gpu := new Gpu;
    gpu.running, gpu.live, gpu.destroyedWhileRead := {}, {}, false;
    converter := new Converter(gpu);
    var plane := Plane(1, true, true, 3, 0, WIDTH_BYTES);
    var imported := converter.ImportBuffer(0, plane, 0, false, UINT32_MAX, Some(9));
    assert imported.Success?;
    var first := converter.Convert(0, 1, Unfinished);
    assert Conversion(9, 1) in gpu.running;
    var second := converter.Convert(0, 2, Finished);
    assert converter.pending == None && Conversion(9, 1) in gpu.running;
    converter.Remove(0);
  }

  // ---------------------------------------------------------------------------------------------
  // Runs of calls
  // ---------------------------------------------------------------------------------------------

  /** A call on the converter, or conversions that the GPU finishes by itself. */
  datatype Call =
    | ConvertCall(input: Surface, output: Surface, outcome: Outcome)
    | UploadCall(input: Surface, output: Surface, outcome: Outcome)
    | SettleCall
    | RemoveCall(buffer: Buffer)
    | ImportCall(buffer: Buffer)
    | GpuFinishes(done: set<Conversion>)

  function After(pending: Option<Surface>, running: set<Conversion>,
      call: Call): (left: (Option<Surface>, set<Conversion>)) {
    match call
    case ConvertCall(input, output, outcome) => Processed(pending, running, input, output, outcome)
    case UploadCall(input, output, outcome) => Uploaded(pending, running, input, output, outcome)
    case SettleCall => (None, SyncedPending(pending, running))
    case RemoveCall(_) => (None, SyncedPending(pending, running))
    case ImportCall(_) => (pending, running)
    case GpuFinishes(done) => (pending, running - done)
  }

  function AfterAll(calls: seq<Call>): (left: (Option<Surface>, set<Conversion>)) {
    if calls == [] then (None, {})
    else
      var before := AfterAll(calls[..|calls| - 1]);
      After(before.0, before.1, calls[|calls| - 1])
  }

  /** Throughout the run, what is pending covers what the GPU is doing. */
  ghost predicate AlwaysCovered(calls: seq<Call>) {
    forall k :: 0 <= k <= |calls| ==> CoveredAfter(calls[..k])
  }

  ghost predicate CoveredAfter(calls: seq<Call>) {
    Covered(AfterAll(calls).0, AfterAll(calls).1)
  }

  /** The GPU goes on with the call's conversion. */
  predicate Submits(call: Call) {
    call.ConvertCall? && call.outcome == Unfinished
  }

  /** The call gets as far as replacing what is pending. */
  predicate Starts(call: Call) {
    (call.ConvertCall? || call.UploadCall?) && call.outcome != MapFailed
  }

  /** The call leaves nothing pending. */
  predicate Clears(call: Call) {
    call.SettleCall? || call.RemoveCall? || call.UploadCall? || (call.ConvertCall? && call.outcome == Finished)
  }

  /** The later call writes another output than the conversion the earlier one left to the GPU. */
  predicate Overwrites(earlier: Call, later: Call) {
    Submits(earlier) && Starts(later) && later.output != earlier.output
  }

  /** While the GPU may go on with a conversion, something clears it before another output is written. */
  ghost predicate Disciplined(calls: seq<Call>) {
    forall i, j :: 0 <= i < j < |calls| && Overwrites(calls[i], calls[j]) ==> ClearedBetween(calls, i, j)
  }

  ghost predicate ClearedBetween(calls: seq<Call>, i: int, j: int) {
    exists k :: 0 <= i < k < j <= |calls| && Clears(calls[k])
  }

  lemma Recent(calls: seq<Call>, k: nat)
    requires k < |calls|
    ensures calls[..k + 1][..k] == calls[..k]
    ensures var before := AfterAll(calls[..k]); AfterAll(calls[..k + 1]) == After(before.0, before.1, calls[k])
  {
    assert calls[..k + 1][..k] == calls[..k] && calls[..k + 1][k] == calls[k];
  }

  /** Whatever the GPU is doing was left to it by a call, and nothing has cleared it since. */
  lemma {:induction false} RunningFrom(calls: seq<Call>, j: nat, c: Conversion) returns (i: nat)
    requires j <= |calls| && c in AfterAll(calls[..j]).1 && forall k :: 0 <= k <= j ==> CoveredAfter(calls[..k])
    ensures i < j && Submits(calls[i]) && calls[i].output == c.output && !ClearedBetween(calls, i, j)
    decreases j
  {
    assert j > 0;
    i := j - 1;
    Recent(calls, j - 1);
    assert CoveredAfter(calls[..j]) && CoveredAfter(calls[..j - 1]);
    var before := AfterAll(calls[..j - 1]);
    if !(Submits(calls[j - 1]) && c !in before.1) {
      NotCleared(before.0, before.1, calls[j - 1], c);
      i := RunningFrom(calls, j - 1, c);
    }
  }

  /** A conversion that is covered before and after a call, and goes on, was not cleared by it. */
  lemma NotCleared(pending: Option<Surface>, running: set<Conversion>, call: Call, c: Conversion)
    requires Covered(pending, running) && c in After(pending, running, call).1
    requires !(Submits(call) && c !in running)
    requires var left := After(pending, running, call); Covered(left.0, left.1)
    ensures c in running && !Clears(call)
  {
  }

  /** Without a clearing call in between, the GPU still has a conversion it was left with. */
  lemma {:induction false} StaysRunning(calls: seq<Call>, i: nat, j: nat)
    requires AlwaysCovered(calls) && i < j <= |calls| && Submits(calls[i]) && !ClearedBetween(calls, i, j)
    requires forall k :: 0 <= k < |calls| ==> !calls[k].GpuFinishes?
    ensures Conversion(calls[i].input, calls[i].output) in AfterAll(calls[..j]).1
    decreases j
  {
    hide AlwaysCovered, CoveredAfter;
    Recent(calls, j - 1);
    if i < j - 1 {
      StaysRunning(calls, i, j - 1);
      assert !Clears(calls[j - 1]);
    }
  }

  /** A call that writes another output while the GPU goes on with a conversion leaves it uncovered. */
  lemma OverwritingUncovers(pending: Option<Surface>, running: set<Conversion>, call: Call, c: Conversion)
    requires Covered(pending, running) && c in running && Starts(call) && call.output != c.output
    ensures var left := After(pending, running, call); !Covered(left.0, left.1)
  {
    var left := After(pending, running, call);
    assert c in left.1;
  }

  /** A call keeps things covered if the GPU is idle, or busy only with the output the call writes. */
  lemma CallKeepsCovered(pending: Option<Surface>, running: set<Conversion>, call: Call)
    requires Covered(pending, running)
    requires Starts(call) ==> forall c :: c in running ==> c.output == call.output
    ensures var left := After(pending, running, call); Covered(left.0, left.1)
  {
  }

  /** What the GPU finishes by itself uncovers nothing. */
  lemma FinishingUncoversNothing(pending: Option<Surface>, running: set<Conversion>, done: set<Conversion>)
    requires Covered(pending, running)
    ensures var left := After(pending, running, GpuFinishes(done)); Covered(left.0, left.1) && left.1 <= running
  {
  }

  /** A disciplined run is covered throughout, whatever the GPU finishes in the meantime. */
  lemma {:induction false} DisciplinedPrefixIsCovered(calls: seq<Call>, k: nat)
    requires Disciplined(calls) && k <= |calls|
    ensures forall m :: 0 <= m <= k ==> CoveredAfter(calls[..m])
    decreases k
  {
    if k == 0 {
      assert AfterAll(calls[..0]) == (None, {});
    } else {
      DisciplinedPrefixIsCovered(calls, k - 1);
      Recent(calls, k - 1);
      var before := AfterAll(calls[..k - 1]);
      assert CoveredAfter(calls[..k - 1]);
      if Starts(calls[k - 1]) {
        forall c | c in before.1
          ensures c.output == calls[k - 1].output
        {
          var i := RunningFrom(calls, k - 1, c);
          assert !Overwrites(calls[i], calls[k - 1]);
        }
      }
      CallKeepsCovered(before.0, before.1, calls[k - 1]);
      assert CoveredAfter(calls[..k]);
    }
  }

  /**
   * A run of calls is covered throughout, if and only if something clears each conversion that was left to
   * the GPU before another output is written. A conversion the GPU finishes by itself only helps.
   */
  lemma CoveredExactlyWhenDisciplined(calls: seq<Call>)
    ensures Disciplined(calls) ==> AlwaysCovered(calls)
    ensures (forall k :: 0 <= k < |calls| ==> !calls[k].GpuFinishes?) ==> (AlwaysCovered(calls) <==> Disciplined(calls))
  {
    if Disciplined(calls) {
      DisciplinedPrefixIsCovered(calls, |calls|);
    }
    if AlwaysCovered(calls) && forall k :: 0 <= k < |calls| ==> !calls[k].GpuFinishes? {
      forall i, j | 0 <= i < j < |calls| && Overwrites(calls[i], calls[j])
        ensures ClearedBetween(calls, i, j)
      {
        if !ClearedBetween(calls, i, j) {
          StaysRunning(calls, i, j);
          Recent(calls, j);
          var before := AfterAll(calls[..j]);
          assert CoveredAfter(calls[..j]) && CoveredAfter(calls[..j + 1]);
          OverwritingUncovers(before.0, before.1, calls[j], Conversion(calls[i].input, calls[i].output));
          assert false;
        }
      }
    }
  }

  /** A disciplined run that ends with settling or removing leaves the GPU idle. */
  lemma DisciplinedRunsAreCovered(calls: seq<Call>)
    requires Disciplined(calls)
    ensures CoveredAfter(calls)
    ensures calls != [] && (calls[|calls| - 1].SettleCall? || calls[|calls| - 1].RemoveCall?) ==>
              AfterAll(calls) == (None, {})
  {
    DisciplinedPrefixIsCovered(calls, |calls|);
    assert calls[..|calls|] == calls;
    if calls != [] {
      var before := AfterAll(calls[..|calls| - 1]);
      assert CoveredAfter(calls[..|calls| - 1]);
      SettledIsIdle(before.0, before.1);
    }
  }

  lemma SettledIsIdle(pending: Option<Surface>, running: set<Conversion>)
    requires Covered(pending, running)
    ensures SyncedPending(pending, running) == {}
  {
    forall c
      ensures c !in SyncedPending(pending, running)
    {
    }
  }
}
