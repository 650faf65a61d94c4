/** Every step of the capture session keeps its invariant. */
module CaptureInvariant {
  import opened Bytes
  import opened Capture

  // ---------------------------------------------------------------------------------------------
  // Reference counts
  // ---------------------------------------------------------------------------------------------

  lemma {:induction false} CountAppend(a: seq<nat>, b: seq<nat>, f: nat)
    ensures Count(a + b, f) == Count(a, f) + Count(b, f)
  {
    if b == [] {
      assert a + b == a;
    } else {
      assert (a + b)[..|a + b| - 1] == a + b[..|b| - 1];
      CountAppend(a, b[..|b| - 1], f);
    }
  }

  lemma CountOne(x: nat, f: nat)
    ensures Count([x], f) == if x == f then 1 else 0
  {
    assert [x][..0] == [];
  }

  lemma CountSnoc(a: seq<nat>, x: nat, f: nat)
    ensures Count(a + [x], f) == Count(a, f) + (if x == f then 1 else 0)
  {
    CountAppend(a, [x], f);
    CountOne(x, f);
  }

  /** Leaving out entry i leaves one occurrence of it fewer. */
  lemma CountWithout(a: seq<nat>, i: nat, f: nat)
    requires i < |a|
    ensures Count(a[..i] + a[i + 1..], f) == Count(a, f) - (if a[i] == f then 1 else 0)
  {
    assert a == a[..i] + [a[i]] + a[i + 1..];
    CountAppend(a[..i] + [a[i]], a[i + 1..], f);
    CountSnoc(a[..i], a[i], f);
    CountAppend(a[..i], a[i + 1..], f);
  }

  lemma {:induction false} CountIn(a: seq<nat>, f: nat)
    ensures Count(a, f) > 0 <==> f in a
  {
    if a != [] {
      CountIn(a[..|a| - 1], f);
      assert a == a[..|a| - 1] + [a[|a| - 1]];
    }
  }

  lemma NothingReleased(refs: seq<int>)
    ensures Release(refs, []) == refs
  {
  }

  lemma ReleaseNext(refs: seq<int>, fs: seq<nat>, f: nat)
    ensures Release(refs, fs + [f]) == ReleaseOne(Release(refs, fs), Some(f))
  {
    var both, one := Release(refs, fs + [f]), ReleaseOne(Release(refs, fs), Some(f));
    forall g: nat | g < |refs|
      ensures both[g] == one[g]
    {
      CountSnoc(fs, f, g);
    }
    assert both == one;
  }

  /** A held frame lies in the pool. */
  lemma HeldIsInPool(refs: seq<int>, hwRefs: seq<int>, h: Holdings, own: Option<nat>, f: nat)
    requires RefsOk(refs, hwRefs, h, own) && (IsHeld(h, f) || own == Some(f))
    ensures f < |refs| && f < |hwRefs|
  {
  }

  /** A change of holders, counted frame by frame. */
  lemma RefsChange(refs: seq<int>, hwRefs: seq<int>, h: Holdings, own: Option<nat>,
                   refs': seq<int>, hwRefs': seq<int>, h': Holdings, own': Option<nat>)
    requires RefsOk(refs, hwRefs, h, own) && |refs'| == |refs| && |hwRefs'| == |hwRefs|
    requires forall f: nat :: f < |refs| ==>
               && refs'[f] - refs[f] == Uses(h', f) + One(own', f) - Uses(h, f) - One(own, f)
               && hwRefs'[f] - hwRefs[f] == Count(h'.surfaces, f) - Count(h.surfaces, f)
    requires forall f: nat :: f >= |refs| ==> Uses(h', f) + One(own', f) <= Uses(h, f) + One(own, f)
    requires forall f: nat :: f >= |refs| ==> Count(h'.surfaces, f) <= Count(h.surfaces, f)
    ensures RefsOk(refs', hwRefs', h', own')
  {
    hide Uses, Count;
  }

  /** Fewer holders leave less to keep. */
  lemma ContentShrinks(contents: seq<Image>, stamped: seq<Image>, h: Holdings, own: Option<nat>, complete: Option<nat>,
                       h': Holdings, own': Option<nat>, complete': Option<nat>)
    requires ContentOk(contents, stamped, h, own, complete)
    requires forall f: nat :: IsHeld(h', f) ==> IsHeld(h, f) || complete == Some(f)
    requires own' == None || (own' == own && complete == None)
    requires complete' == None || complete' == complete
    ensures ContentOk(contents, stamped, h', own', complete')
  {
    hide IsHeld;
  }

  // ---------------------------------------------------------------------------------------------
  // The callback
  // ---------------------------------------------------------------------------------------------

  lemma BeginCallbackKeeps(st: State)
    requires Inv(st) && CallbackEnabled(st, BeginCallback)
    ensures Inv(CallbackNext(st, BeginCallback))
  {
    hide RefsOk, ContentOk, EncoderOk, ConsumerOk, CountsOk, BuffersOk, Uses;
  }

  lemma DequeueKeeps(st: State, b: Buffer)
    requires Inv(st) && CallbackEnabled(st, Dequeue(b))
    ensures Inv(CallbackNext(st, Dequeue(b)))
  {
    hide RefsOk, ContentOk, EncoderOk, ConsumerOk, BuffersOk, QuarantineOk, GpuOk, Uses, Exchanged;
    DrainingReadsNothing(st, b);
    ExchangeKeepsBuffers(st.outstanding, st.quarantined, st.callback.latest, b, st.dequeued, st.returned);
  }

  lemma DrainingReadsNothing(st: State, b: Buffer)
    requires GpuOk(st.callback, st.dma, st.pending, st.reading, st.stopping, st.quarantined) && st.callback.Draining?
    requires QuarantineOk(st.quarantined, st.stopping, Running(st.callback))
    ensures GpuOk(Draining(Some(b)), st.dma, st.pending, st.reading, st.stopping, st.quarantined)
    ensures QuarantineOk(st.quarantined, st.stopping, true)
  {
  }

  lemma ExchangeKeepsBuffers(outstanding: set<Buffer>, quarantined: set<Buffer>, older: Option<Buffer>, b: Buffer,
      dequeued: nat, returned: nat)
    requires BuffersOk(outstanding, quarantined, Carried(Draining(older)), dequeued, returned) && b !in outstanding
    ensures var back := if older.Some? then 1 else 0;
      BuffersOk(Exchanged(outstanding, older, b), quarantined, {b}, dequeued + 1, returned + back)
  {
    hide BuffersOk;
    if older.Some? {
      BufferBack(outstanding, quarantined, older.value, dequeued, returned);
      BufferTaken(Without(outstanding, older.value), quarantined, b, dequeued, returned + 1);
    } else {
      BufferTaken(outstanding, quarantined, b, dequeued, returned);
    }
  }

  lemma BufferBack(outstanding: set<Buffer>, quarantined: set<Buffer>, b: Buffer, dequeued: nat, returned: nat)
    requires BuffersOk(outstanding, quarantined, {b}, dequeued, returned)
    ensures BuffersOk(Without(outstanding, b), quarantined, {}, dequeued, returned + 1)
  {
    assert Without(outstanding, b) == quarantined;
  }

  lemma BufferTaken(outstanding: set<Buffer>, quarantined: set<Buffer>, b: Buffer, dequeued: nat, returned: nat)
    requires BuffersOk(outstanding, quarantined, {}, dequeued, returned) && b !in outstanding
    ensures BuffersOk(outstanding + {b}, quarantined, {b}, dequeued + 1, returned)
  {
    assert outstanding + {b} == {b} + quarantined;
  }

  lemma EndDrainKeeps(st: State)
    requires Inv(st) && CallbackEnabled(st, EndDrain)
    ensures Inv(CallbackNext(st, EndDrain))
  {
    hide RefsOk, ContentOk, EncoderOk, ConsumerOk, CountsOk, BuffersOk, Uses;
  }

  lemma DiscardKeeps(st: State)
    requires Inv(st) && CallbackEnabled(st, Discard)
    ensures Inv(CallbackNext(st, Discard))
  {
    hide RefsOk, ContentOk, EncoderOk, ConsumerOk, BuffersOk, Uses;
  }

  lemma TooSmallKeeps(st: State)
    requires Inv(st) && CallbackEnabled(st, TooSmall)
    ensures Inv(CallbackNext(st, TooSmall))
  {
    hide RefsOk, ContentOk, EncoderOk, ConsumerOk, BuffersOk, Uses;
  }

  lemma ThrowKeeps(st: State)
    requires Inv(st) && CallbackEnabled(st, Throw)
    ensures Inv(CallbackNext(st, Throw))
  {
    hide RefsOk, ContentOk, EncoderOk, ConsumerOk, CountsOk, BuffersOk, Uses;
    UnwindKeeps(st);
  }

  /** Unwinding the callback releases its frame, if it had one. */
  lemma UnwindKeeps(st: State)
    requires RefsOk(st.refs, st.hwRefs, Held(st), Own(st.callback))
    requires ContentOk(st.contents, st.stamped, Held(st), Own(st.callback), Complete(st.callback))
    ensures RefsOk(ReleaseOne(st.refs, Own(st.callback)), st.hwRefs, Held(st), None)
    ensures ContentOk(st.contents, st.stamped, Held(st), Own(st.callback), None)
    ensures ContentOk(st.contents, st.stamped, Held(st), None, None)
  {
    hide Uses, Count;
    RefsChange(st.refs, st.hwRefs, Held(st), Own(st.callback), ReleaseOne(st.refs, Own(st.callback)), st.hwRefs,
        Held(st), None);
  }

  lemma BeginScanKeeps(st: State)
    requires Inv(st) && CallbackEnabled(st, BeginScan)
    ensures Inv(CallbackNext(st, BeginScan))
  {
    hide RefsOk, ContentOk, CountsOk, BuffersOk, Uses;
    if st.frugal && |st.refs| >= POOL_SIZE {
      var f := SomeFrameIsUnheld(st);
    }
  }

  /** Two queued, one with the consumer and the last one: of five frames one is held by nobody. */
  lemma SomeFrameIsUnheld(st: State) returns (f: nat)
    requires |st.queue| <= QUEUE_LIMIT && ConsumerOk(st.consumer, st.sample, st.mapped, st.last)
    requires EncoderOk(st.frugal, st.mapped, st.encoder, st.encoderHw) && st.frugal && |st.refs| >= POOL_SIZE
    ensures f < |st.refs| && !IsHeld(Held(st), f)
  {
    hide IsHeld, EncoderOk;
    var n := |st.refs|;
    if forall f: nat :: f < n ==> IsHeld(Held(st), f) {
      var taken := st.queue + AsSeq(st.sample) + AsSeq(st.last);
      forall f: nat | f < n
        ensures f in taken
      {
        HeldIsListed(st, f);
        FrugalKeepsNone(st, f);
      }
      Pigeonhole(n, taken);
      assert false;
    }
    f :| f < n && !IsHeld(Held(st), f);
  }

  lemma FrugalKeepsNone(st: State, f: nat)
    requires EncoderOk(st.frugal, st.mapped, st.encoder, st.encoderHw) && st.frugal
    ensures f in st.encoder || f in st.encoderHw ==> st.mapped == Some(f)
  {
    CountIn(st.encoder, f);
    CountIn(st.encoderHw, f);
  }

  /** n frames cannot all occur in a list shorter than n. */
  lemma {:induction false} Pigeonhole(n: nat, taken: seq<nat>)
    requires forall f: nat :: f < n ==> f in taken
    ensures n <= |taken|
  {
    if n > 0 {
      var last: nat := n - 1;
      assert last in taken;
      var i :| 0 <= i < |taken| && taken[i] == last;
      var rest := taken[..i] + taken[i + 1..];
      forall f: nat | f < n - 1
        ensures f in rest
      {
        assert f in taken;
        var j :| 0 <= j < |taken| && taken[j] == f;
        assert rest[if j < i then j else j - 1] == f;
      }
      Pigeonhole(n - 1, rest);
    }
  }

  function AsSeq(o: Option<nat>): (fs: seq<nat>)
    ensures |fs| <= 1
  {
    if o.Some? then [o.value] else []
  }

  lemma HeldIsListed(st: State, f: nat)
    requires IsHeld(Held(st), f) && ConsumerOk(st.consumer, st.sample, st.mapped, st.last)
    ensures f in st.queue || st.sample == Some(f) || st.last == Some(f) || f in st.encoder || f in st.encoderHw
  {
    CountIn(st.queue, f);
    CountIn(st.encoder, f);
    CountIn(st.encoderHw, f);
  }

  lemma TestKeeps(st: State)
    requires Inv(st) && CallbackEnabled(st, Test)
    ensures Inv(CallbackNext(st, Test))
  {
    hide RefsOk, ContentOk, EncoderOk, ConsumerOk, CountsOk, BuffersOk, Uses, IsHeld;
    var i := st.callback.i;
    if IsFree(st.refs, st.hwRefs, i) {
      ScanKeepsRefs(st.refs, st.hwRefs, Held(st), st.contents, st.stamped, i);
    } else {
      NotFreeIsHeld(st.refs, st.hwRefs, Held(st), i);
    }
  }

  lemma NotFreeIsHeld(refs: seq<int>, hwRefs: seq<int>, h: Holdings, f: nat)
    requires RefsOk(refs, hwRefs, h, None) && f < |refs| && !IsFree(refs, hwRefs, f)
    ensures IsHeld(h, f)
  {
    hide Uses, Count;
    assert refs[f] == 1 + Uses(h, f) + One(None, f) && hwRefs[f] == Count(h.surfaces, f);
  }

  lemma GiveUpKeeps(st: State)
    requires Inv(st) && CallbackEnabled(st, GiveUp)
    ensures Inv(CallbackNext(st, GiveUp))
  {
    hide RefsOk, ContentOk, EncoderOk, ConsumerOk, BuffersOk, Uses;
  }

  /** A frame that passes the scan is held by nobody; the callback becomes its only user. */
  lemma ScanKeepsRefs(refs: seq<int>, hwRefs: seq<int>, h: Holdings, contents: seq<Image>, stamped: seq<Image>, f: nat)
    requires RefsOk(refs, hwRefs, h, None) && ContentOk(contents, stamped, h, None, None) && IsFree(refs, hwRefs, f)
    ensures RefsOk(Acquire(refs, f), hwRefs, h, Some(f)) && ContentOk(contents, stamped, h, Some(f), None)
  {
    hide Uses, Count;
    RefsChange(refs, hwRefs, h, None, Acquire(refs, f), hwRefs, h, Some(f));
  }

  lemma CopyRowKeeps(st: State, partial: Image)
    requires Inv(st) && CallbackEnabled(st, CopyRow(partial))
    ensures Inv(CallbackNext(st, CopyRow(partial)))
  {
    hide RefsOk, ContentOk, EncoderOk, ConsumerOk, CountsOk, BuffersOk, QuarantineOk, GpuOk, Uses;
    WriteKeepsContent(st.contents, st.stamped, Held(st), st.callback.f, partial, st.stamped, None);
  }

  /** Writing the callback's own frame touches no frame that is held. */
  lemma WriteKeepsContent(contents: seq<Image>, stamped: seq<Image>, h: Holdings, f: nat, image: Image,
      stamped': seq<Image>, complete: Option<nat>)
    requires ContentOk(contents, stamped, h, Some(f), None) && f < |contents|
    requires if complete == None then stamped' == stamped else complete == Some(f) && stamped' == stamped[f := image]
    ensures ContentOk(contents[f := image], stamped', h, Some(f), complete)
  {
    hide IsHeld;
  }

  lemma FinishCopyKeeps(st: State, image: Image)
    requires Inv(st) && CallbackEnabled(st, FinishCopy(image))
    ensures Inv(CallbackNext(st, FinishCopy(image)))
  {
    hide RefsOk, ContentOk, EncoderOk, ConsumerOk, CountsOk, BuffersOk, Uses;
    var f := st.callback.f;
    WriteKeepsContent(st.contents, st.stamped, Held(st), f, image, st.stamped[f := image], Some(f));
  }

  lemma StartConvertKeeps(st: State)
    requires Inv(st) && CallbackEnabled(st, StartConvert)
    ensures Inv(CallbackNext(st, StartConvert))
  {
    hide RefsOk, ContentOk, EncoderOk, ConsumerOk, CountsOk, BuffersOk, Uses;
  }

  lemma FinishConvertKeeps(st: State, image: Image)
    requires Inv(st) && CallbackEnabled(st, FinishConvert(image))
    ensures Inv(CallbackNext(st, FinishConvert(image)))
  {
    hide RefsOk, ContentOk, EncoderOk, ConsumerOk, CountsOk, BuffersOk, Uses;
    var f := st.callback.f;
    WriteKeepsContent(st.contents, st.stamped, Held(st), f, image, st.stamped[f := image], Some(f));
  }

  lemma FailConvertKeeps(st: State)
    requires Inv(st) && CallbackEnabled(st, FailConvert)
    ensures Inv(CallbackNext(st, FailConvert))
  {
    hide RefsOk, ContentOk, EncoderOk, ConsumerOk, CountsOk, BuffersOk, Uses;
    UnwindKeeps(st);
  }

  lemma CatchKeeps(st: State)
    requires Inv(st) && CallbackEnabled(st, Catch)
    ensures Inv(CallbackNext(st, Catch))
  {
    hide RefsOk, ContentOk, EncoderOk, ConsumerOk, Uses;
  }

  lemma PushKeeps(st: State)
    requires Inv(st) && CallbackEnabled(st, Push)
    ensures Inv(CallbackNext(st, Push))
  {
    hide RefsOk, ContentOk, EncoderOk, ConsumerOk, BuffersOk, Uses;
    PushKeepsRefs(st, st.callback.f);
    PushKeepsContent(st, st.callback.f);
  }

  lemma QueuedCount(queue: seq<nat>, f: nat, g: nat)
    ensures Count(Queued(queue, f), g) == Count(queue, g) + (if f == g then 1 else 0) - One(Oldest(queue), g)
  {
    hide Count;
    if |queue| == QUEUE_LIMIT {
      CountSnoc(queue[1..], f, g);
      CountWithout(queue, 0, g);
      assert queue[..0] + queue[1..] == queue[1..];
    } else {
      CountSnoc(queue, f, g);
    }
  }

  lemma PushedUses(st: State, f: nat, g: nat)
    ensures Uses(Held(Pushed(st, f)), g) == Uses(Held(st), g) + (if f == g then 1 else 0) - One(Oldest(st.queue), g)
  {
    hide Count, Queued, Oldest, One, ReleaseOne;
    QueuedCount(st.queue, f, g);
  }

  lemma PushKeepsRefs(st: State, f: nat)
    requires RefsOk(st.refs, st.hwRefs, Held(st), Some(f)) && |st.queue| <= QUEUE_LIMIT
    ensures var next := Pushed(st, f);
      RefsOk(next.refs, next.hwRefs, Held(next), None) && |next.refs| == |st.refs|
  {
    hide Uses, Count, Queued;
    var next := Pushed(st, f);
    forall g: nat { PushedUses(st, f, g); }
    HeldIsInPool(st.refs, st.hwRefs, Held(st), Some(f), f);
    if |st.queue| == QUEUE_LIMIT {
      QueuedIsHeld(st, 0);
      HeldIsInPool(st.refs, st.hwRefs, Held(st), Some(f), st.queue[0]);
    }
    RefsChange(st.refs, st.hwRefs, Held(st), Some(f), next.refs, next.hwRefs, Held(next), None);
  }

  lemma QueuedIsHeld(st: State, i: nat)
    requires i < |st.queue|
    ensures IsHeld(Held(st), st.queue[i])
  {
    CountIn(st.queue, st.queue[i]);
  }

  lemma PushKeepsContent(st: State, f: nat)
    requires ContentOk(st.contents, st.stamped, Held(st), Some(f), Some(f)) && |st.queue| <= QUEUE_LIMIT
    ensures ContentOk(st.contents, st.stamped, Held(Pushed(st, f)), None, None)
  {
    hide Uses, Count;
    forall g: nat { PushedUses(st, f, g); }
    ContentShrinks(st.contents, st.stamped, Held(st), Some(f), Some(f), Held(Pushed(st, f)), None, None);
  }

  lemma ReturnKeeps(st: State)
    requires Inv(st) && CallbackEnabled(st, Return)
    ensures Inv(CallbackNext(st, Return))
  {
    hide RefsOk, ContentOk, EncoderOk, ConsumerOk, CountsOk, BuffersOk, QuarantineOk, GpuOk, Uses, Without;
    BufferBack(st.outstanding, st.quarantined, st.callback.b, st.dequeued, st.returned);
    ReturningReadsNothing(st);
  }

  lemma ReturningReadsNothing(st: State)
    requires GpuOk(st.callback, st.dma, st.pending, st.reading, st.stopping, st.quarantined) && st.callback.Returning?
    requires QuarantineOk(st.quarantined, st.stopping, Running(st.callback))
    ensures GpuOk(NoCallback, st.dma, st.pending, st.reading, st.stopping, st.quarantined)
    ensures QuarantineOk(st.quarantined, st.stopping, false)
  {
  }

  // ---------------------------------------------------------------------------------------------
  // The consumer and its encoder
  // ---------------------------------------------------------------------------------------------

  lemma NextTakesKeeps(st: State)
    requires Inv(st) && ConsumerEnabled(st, NextTakes)
    ensures Inv(ConsumerNext(st, NextTakes))
  {
    hide RefsOk, ContentOk, EncoderOk, BuffersOk, QuarantineOk, GpuOk, Uses;
    NextTakesKeepsHoldings(st);
  }

  lemma NextEmptyKeeps(st: State)
    requires Inv(st) && ConsumerEnabled(st, NextEmpty)
    ensures Inv(ConsumerNext(st, NextEmpty))
  {
    hide RefsOk, ContentOk, EncoderOk, CountsOk, BuffersOk, QuarantineOk, GpuOk, Uses;
  }

  lemma SkipEncodeKeeps(st: State)
    requires Inv(st) && ConsumerEnabled(st, SkipEncode)
    ensures Inv(ConsumerNext(st, SkipEncode))
  {
    hide RefsOk, ContentOk, EncoderOk, CountsOk, BuffersOk, QuarantineOk, GpuOk, Uses;
  }

  lemma BeginEncodeKeeps(st: State)
    requires Inv(st) && ConsumerEnabled(st, BeginEncode)
    ensures Inv(ConsumerNext(st, BeginEncode))
  {
    hide RefsOk, ContentOk, EncoderOk, CountsOk, BuffersOk, QuarantineOk, GpuOk, Uses;
    BeginEncodeKeepsHoldings(st);
  }

  lemma RetainKeeps(st: State)
    requires Inv(st) && ConsumerEnabled(st, Retain)
    ensures Inv(ConsumerNext(st, Retain))
  {
    hide RefsOk, ContentOk, EncoderOk, ConsumerOk, CountsOk, BuffersOk, QuarantineOk, GpuOk, Uses;
    RetainKeepsHoldings(st);
  }

  lemma RetainSurfaceKeeps(st: State)
    requires Inv(st) && ConsumerEnabled(st, RetainSurface)
    ensures Inv(ConsumerNext(st, RetainSurface))
  {
    hide RefsOk, ContentOk, EncoderOk, ConsumerOk, CountsOk, BuffersOk, QuarantineOk, GpuOk, Uses;
    RetainSurfaceKeepsHoldings(st);
  }

  lemma ReleaseFrameKeeps(st: State, i: nat)
    requires Inv(st) && ConsumerEnabled(st, ReleaseFrame(i))
    ensures Inv(ConsumerNext(st, ReleaseFrame(i)))
  {
    hide RefsOk, ContentOk, EncoderOk, ConsumerOk, CountsOk, BuffersOk, QuarantineOk, GpuOk, Uses;
    ReleaseFrameKeepsHoldings(st, i);
  }

  lemma ReleaseSurfaceKeeps(st: State, i: nat)
    requires Inv(st) && ConsumerEnabled(st, ReleaseSurface(i))
    ensures Inv(ConsumerNext(st, ReleaseSurface(i)))
  {
    hide RefsOk, ContentOk, EncoderOk, ConsumerOk, CountsOk, BuffersOk, QuarantineOk, GpuOk, Uses;
    ReleaseSurfaceKeepsHoldings(st, i);
  }

  lemma EndEncodeKeeps(st: State)
    requires Inv(st) && ConsumerEnabled(st, EndEncode)
    ensures Inv(ConsumerNext(st, EndEncode))
  {
    hide RefsOk, ContentOk, EncoderOk, CountsOk, BuffersOk, QuarantineOk, GpuOk, Uses;
    EndEncodeKeepsHoldings(st);
  }

  /** What the consumer's steps must keep of frames and references. */
  ghost predicate HoldingsOk(st: State) {
    && RefsOk(st.refs, st.hwRefs, Held(st), Own(st.callback))
    && ContentOk(st.contents, st.stamped, Held(st), Written(st.callback, st.reading), Complete(st.callback))
    && |st.contents| == |st.refs|
    && EncoderOk(st.frugal, st.mapped, st.encoder, st.encoderHw)
    && ScanOk(st.callback, st.frugal, |st.refs|, Held(st))
  }

  /** A consumer step that hands out no frame nobody held: counts frame by frame. */
  lemma HoldingsChange(st: State, next: State)
    requires HoldingsOk(st)
    requires next.callback == st.callback && next.reading == st.reading && next.contents == st.contents
        && next.stamped == st.stamped
    requires |next.refs| == |st.refs| && |next.hwRefs| == |st.hwRefs|
    requires forall f: nat :: f < |st.refs| ==>
               && next.refs[f] - st.refs[f] == Uses(Held(next), f) - Uses(Held(st), f)
               && next.hwRefs[f] - st.hwRefs[f] == Count(next.encoderHw, f) - Count(st.encoderHw, f)
    requires forall f: nat :: IsHeld(Held(next), f) ==> IsHeld(Held(st), f)
    requires EncoderOk(next.frugal, next.mapped, next.encoder, next.encoderHw) && next.frugal == st.frugal
    ensures HoldingsOk(next)
  {
    hide Uses, Count, EncoderOk;
    var own, written := Own(st.callback), Written(st.callback, st.reading);
    forall f: nat | f >= |st.refs|
      ensures Uses(Held(next), f) == 0 && Count(next.encoderHw, f) == 0
    {
      assert !IsHeld(Held(st), f);
      assert !IsHeld(Held(next), f);
    }
    RefsChange(st.refs, st.hwRefs, Held(st), own, next.refs, next.hwRefs, Held(next), own);
    SameOwnContent(st.contents, st.stamped, Held(st), written, Complete(st.callback), Held(next));
  }

  lemma SameOwnContent(contents: seq<Image>, stamped: seq<Image>, h: Holdings, own: Option<nat>, complete: Option<nat>,
      h': Holdings)
    requires ContentOk(contents, stamped, h, own, complete)
    requires forall f: nat :: IsHeld(h', f) ==> IsHeld(h, f)
    ensures ContentOk(contents, stamped, h', own, complete)
  {
    hide IsHeld;
  }

  lemma NextTakesKeepsHoldings(st: State)
    requires HoldingsOk(st) && ConsumerEnabled(st, NextTakes) && st.sample == None
    ensures HoldingsOk(ConsumerNext(st, NextTakes))
  {
    var next := ConsumerNext(st, NextTakes);
    var n := |st.queue| - 1;
    assert st.queue == st.queue[..n] + [st.queue[n]];
    forall f: nat
      ensures Uses(Held(next), f) == Uses(Held(st), f) - Count(st.queue[..n], f)
    {
      CountSnoc(st.queue[..n], st.queue[n], f);
    }
    hide Uses, Count;
    HoldingsChange(st, next);
  }

  lemma BeginEncodeKeepsHoldings(st: State)
    requires HoldingsOk(st) && ConsumerEnabled(st, BeginEncode) && st.mapped == None
    ensures HoldingsOk(ConsumerNext(st, BeginEncode))
  {
    hide Uses, Count, RefsOk, ContentOk;
    var next, h := ConsumerNext(st, BeginEncode), Held(st);
    var frame := if st.sample.Some? then st.sample.value else st.last.value;
    SampleIsHeld(h, frame);
    HeldIsInPool(st.refs, st.hwRefs, h, Own(st.callback), frame);
    assert Held(next) == h.(mapped := Some(frame));
    forall f: nat { MappedUses(h, frame, f); }
    HoldingsChange(st, next);
  }

  lemma SampleIsHeld(h: Holdings, f: nat)
    requires h.sample == Some(f) || h.last == Some(f) || h.mapped == Some(f)
    ensures IsHeld(h, f)
  {
  }

  lemma MappedUses(h: Holdings, frame: nat, f: nat)
    requires h.mapped == None
    ensures Uses(h.(mapped := Some(frame)), f) == Uses(h, f) + (if f == frame then 1 else 0)
    ensures IsHeld(h.(mapped := Some(frame)), f) <==> IsHeld(h, f) || f == frame
  {
  }

  lemma RetainKeepsHoldings(st: State)
    requires HoldingsOk(st) && ConsumerEnabled(st, Retain)
    ensures HoldingsOk(ConsumerNext(st, Retain))
  {
    var next := ConsumerNext(st, Retain);
    var frame := st.mapped.value;
    assert IsHeld(Held(st), frame);
    forall f: nat
      ensures Count(next.encoder, f) == Count(st.encoder, f) + (if f == frame then 1 else 0)
    {
      CountSnoc(st.encoder, frame, f);
    }
    hide Count;
    HoldingsChange(st, next);
  }

  lemma RetainSurfaceKeepsHoldings(st: State)
    requires HoldingsOk(st) && ConsumerEnabled(st, RetainSurface)
    ensures HoldingsOk(ConsumerNext(st, RetainSurface))
  {
    var next := ConsumerNext(st, RetainSurface);
    var frame := st.mapped.value;
    assert IsHeld(Held(st), frame);
    forall f: nat
      ensures Count(next.encoderHw, f) == Count(st.encoderHw, f) + (if f == frame then 1 else 0)
    {
      CountSnoc(st.encoderHw, frame, f);
    }
    hide Count;
    HoldingsChange(st, next);
  }

  lemma ReleaseFrameKeepsHoldings(st: State, i: nat)
    requires HoldingsOk(st) && ConsumerEnabled(st, ReleaseFrame(i))
    ensures HoldingsOk(ConsumerNext(st, ReleaseFrame(i)))
  {
    var next := ConsumerNext(st, ReleaseFrame(i));
    var frame := st.encoder[i];
    CountIn(st.encoder, frame);
    HeldIsInPool(st.refs, st.hwRefs, Held(st), Own(st.callback), frame);
    forall f: nat
      ensures Count(next.encoder, f) == Count(st.encoder, f) - (if f == frame then 1 else 0)
    {
      CountWithout(st.encoder, i, f);
    }
    hide Count;
    HoldingsChange(st, next);
  }

  lemma ReleaseSurfaceKeepsHoldings(st: State, i: nat)
    requires HoldingsOk(st) && ConsumerEnabled(st, ReleaseSurface(i))
    ensures HoldingsOk(ConsumerNext(st, ReleaseSurface(i)))
  {
    var next := ConsumerNext(st, ReleaseSurface(i));
    var frame := st.encoderHw[i];
    CountIn(st.encoderHw, frame);
    HeldIsInPool(st.refs, st.hwRefs, Held(st), Own(st.callback), frame);
    forall f: nat
      ensures Count(next.encoderHw, f) == Count(st.encoderHw, f) - (if f == frame then 1 else 0)
    {
      CountWithout(st.encoderHw, i, f);
    }
    hide Count;
    HoldingsChange(st, next);
  }

  lemma EndEncodeKeepsHoldings(st: State)
    requires HoldingsOk(st) && ConsumerEnabled(st, EndEncode)
    requires st.mapped == if st.sample.Some? then st.sample else st.last
    ensures HoldingsOk(ConsumerNext(st, EndEncode))
  {
    hide Uses, Count, RefsOk, ContentOk;
    var next, h := ConsumerNext(st, EndEncode), Held(st);
    SampleIsHeld(h, h.mapped.value);
    HeldIsInPool(st.refs, st.hwRefs, h, Own(st.callback), h.mapped.value);
    if h.last.Some? {
      SampleIsHeld(h, h.last.value);
      HeldIsInPool(st.refs, st.hwRefs, h, Own(st.callback), h.last.value);
    }
    assert Held(next) == Unmapped(h);
    forall f: nat { UnmappedUses(h, f); }
    EncoderEmptied(st);
    HoldingsChange(st, next);
  }

  /** The mapped frame is released; a new sample becomes the last one. */
  function Unmapped(h: Holdings): (h': Holdings) {
    h.(sample := None, mapped := None, last := if h.sample.Some? then h.sample else h.last)
  }

  lemma UnmappedUses(h: Holdings, f: nat)
    requires h.mapped == if h.sample.Some? then h.sample else h.last
    ensures Uses(Unmapped(h), f) == Uses(h, f) - One(h.mapped, f) - (if h.sample.Some? then One(h.last, f) else 0)
    ensures IsHeld(Unmapped(h), f) ==> IsHeld(h, f)
  {
  }

  lemma EncoderEmptied(st: State)
    requires EncoderOk(st.frugal, st.mapped, st.encoder, st.encoderHw) && ConsumerEnabled(st, EndEncode)
    ensures EncoderOk(st.frugal, None, st.encoder, st.encoderHw)
  {
  }

  // ---------------------------------------------------------------------------------------------
  // The GPU, PipeWire and the destructor
  // ---------------------------------------------------------------------------------------------

  lemma GpuWriteKeeps(st: State, partial: Image)
    requires Inv(st) && OtherEnabled(st, GpuWrite(partial))
    ensures Inv(OtherNext(st, GpuWrite(partial)))
  {
    hide RefsOk, ContentOk, EncoderOk, ConsumerOk, CountsOk, BuffersOk, Uses;
    WriteKeepsContent(st.contents, st.stamped, Held(st), st.reading.value.1, partial, st.stamped, None);
  }

  lemma GpuDoneKeeps(st: State)
    requires Inv(st) && OtherEnabled(st, GpuDone)
    ensures Inv(OtherNext(st, GpuDone))
  {
    hide RefsOk, ContentOk, EncoderOk, ConsumerOk, CountsOk, BuffersOk, Uses;
    NothingWritten(st);
  }

  /** When no callback writes a frame, the end of a conversion leaves less to keep. */
  lemma NothingWritten(st: State)
    requires ContentOk(st.contents, st.stamped, Held(st), Written(st.callback, st.reading), Complete(st.callback))
    ensures ContentOk(st.contents, st.stamped, Held(st), None, Complete(st.callback))
  {
    hide IsHeld;
  }

  lemma RemoveBufferKeeps(st: State)
    requires Inv(st) && OtherEnabled(st, RemoveBuffer)
    ensures Inv(OtherNext(st, RemoveBuffer))
  {
    hide RefsOk, ContentOk, EncoderOk, ConsumerOk, CountsOk, BuffersOk, Uses;
    NothingWritten(st);
  }

  lemma StreamErrorKeeps(st: State)
    requires Inv(st) && OtherEnabled(st, StreamError)
    ensures Inv(OtherNext(st, StreamError))
  {
    hide RefsOk, ContentOk, EncoderOk, ConsumerOk, CountsOk, BuffersOk, QuarantineOk, GpuOk, Uses;
  }

  lemma RequestStopKeeps(st: State)
    requires Inv(st) && OtherEnabled(st, RequestStop)
    ensures Inv(OtherNext(st, RequestStop))
  {
    hide RefsOk, ContentOk, EncoderOk, ConsumerOk, CountsOk, BuffersOk, Uses;
  }

  lemma BeginDestroyKeeps(st: State)
    requires Inv(st) && OtherEnabled(st, BeginDestroy)
    ensures Inv(OtherNext(st, BeginDestroy))
  {
    hide RefsOk, ContentOk, EncoderOk, ConsumerOk, CountsOk, BuffersOk, Uses;
  }

  lemma SettleKeeps(st: State)
    requires Inv(st) && OtherEnabled(st, Settle)
    ensures Inv(OtherNext(st, Settle))
  {
    hide RefsOk, ContentOk, EncoderOk, ConsumerOk, CountsOk, BuffersOk, Uses;
    NothingWritten(st);
  }

  lemma CallbackStepKeeps(st: State, step: Step)
    requires Inv(st) && CallbackStep(step) && CallbackEnabled(st, step)
    ensures Inv(CallbackNext(st, step))
  {
    hide Inv, CallbackNext, CallbackEnabled;
    match step
    case BeginCallback => BeginCallbackKeeps(st);
    case Dequeue(b) => DequeueKeeps(st, b);
    case EndDrain => EndDrainKeeps(st);
    case Discard => DiscardKeeps(st);
    case TooSmall => TooSmallKeeps(st);
    case Throw => ThrowKeeps(st);
    case BeginScan => BeginScanKeeps(st);
    case Test => TestKeeps(st);
    case GiveUp => GiveUpKeeps(st);
    case CopyRow(partial) => CopyRowKeeps(st, partial);
    case FinishCopy(image) => FinishCopyKeeps(st, image);
    case StartConvert => StartConvertKeeps(st);
    case FinishConvert(image) => FinishConvertKeeps(st, image);
    case FailConvert => FailConvertKeeps(st);
    case Catch => CatchKeeps(st);
    case Push => PushKeeps(st);
    case Return => ReturnKeeps(st);
    case _ =>
  }

  lemma ConsumerStepKeeps(st: State, step: Step)
    requires Inv(st) && ConsumerStep(step) && ConsumerEnabled(st, step)
    ensures Inv(ConsumerNext(st, step))
  {
    hide Inv, ConsumerNext, ConsumerEnabled;
    match step
    case NextTakes => NextTakesKeeps(st);
    case NextEmpty => NextEmptyKeeps(st);
    case BeginEncode => BeginEncodeKeeps(st);
    case SkipEncode => SkipEncodeKeeps(st);
    case Retain => RetainKeeps(st);
    case RetainSurface => RetainSurfaceKeeps(st);
    case ReleaseFrame(i) => ReleaseFrameKeeps(st, i);
    case ReleaseSurface(i) => ReleaseSurfaceKeeps(st, i);
    case EndEncode => EndEncodeKeeps(st);
    case _ =>
  }

  lemma OtherStepKeeps(st: State, step: Step)
    requires Inv(st) && !CallbackStep(step) && !ConsumerStep(step) && OtherEnabled(st, step)
    ensures Inv(OtherNext(st, step))
  {
    hide Inv, OtherNext, OtherEnabled;
    match step
    case GpuWrite(partial) => GpuWriteKeeps(st, partial);
    case GpuDone => GpuDoneKeeps(st);
    case RemoveBuffer => RemoveBufferKeeps(st);
    case StreamError => StreamErrorKeeps(st);
    case RequestStop => RequestStopKeeps(st);
    case BeginDestroy => BeginDestroyKeeps(st);
    case Settle => SettleKeeps(st);
    case _ =>
  }

  lemma StepKeeps(st: State, step: Step)
    requires Inv(st) && Enabled(st, step)
    ensures Inv(Next(st, step))
  {
    hide Inv, CallbackNext, ConsumerNext, OtherNext, CallbackEnabled, ConsumerEnabled, OtherEnabled;
    if CallbackStep(step) {
      CallbackStepKeeps(st, step);
    } else if ConsumerStep(step) {
      ConsumerStepKeeps(st, step);
    } else {
      OtherStepKeeps(st, step);
    }
  }

  lemma StartOk(n: nat, dma: bool, frugal: bool)
    ensures Inv(Start(n, dma, frugal))
  {
  }

  lemma {:induction false} RunKeeps(st: State, schedule: seq<Step>)
    requires Inv(st)
    ensures Run(st, schedule).Some? ==> Inv(Run(st, schedule).value)
    decreases schedule
  {
    hide Inv, Next, Enabled;
    if schedule != [] && Enabled(st, schedule[0]) {
      StepKeeps(st, schedule[0]);
      RunKeeps(Next(st, schedule[0]), schedule[1..]);
    }
  }
}
