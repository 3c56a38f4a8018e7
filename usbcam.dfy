/**
 * The capture session of usbcam: the process-wide flags and buffer tables,
 * and the four public operations `usbcam_init`, `usbcam_cleanup`,
 * `usbcam_lock` and `usbcam_unlock`, over the abstract driver of module Driver.
 *
 * Where the original terminates the process (`usbcam_assert`, a failed
 * request), an operation here returns an error, distinguishing misuse by the
 * caller from a device failure.
 */
module Usbcam {
  import opened Buffers
  import opened Driver
  import opened Calls

  /** The size of the buffer tables, and the largest buffer count accepted. */
  const MaxBuffers: nat := 128

  /** errno values after which a request is simply issued again. */
  const EINTR: int := 4
  const EAGAIN: int := 11

  /** What the caller asks for (`usbcam_opt_t`). */
  datatype Options = Options(deviceName: string, buffers: int, format: Format)

  /** What the outside world answers during start-up. */
  datatype Reply = Reply(
    fd: int,              // v4l2_open's result, negative on failure
    format: Format,       // the format VIDIOC_S_FMT leaves in place
    lengths: seq<nat>,    // one length per buffer VIDIOC_REQBUFS grants
    starts: seq<int>)     // mmap's address per buffer, MapFailed on failure

  /** Caller errors: operations out of order or arguments out of range. */
  datatype Misuse = TooManyBuffers | NoBuffers | AlreadyLocked | NotOpen | NotMapped | NotStreaming

  /** Failures reported by the device. */
  datatype Fault =
    | OpenFailed
    | FormatMismatch
    | WidthMismatch
    | HeightMismatch
    | CountMismatch
    | MappingFailed(index: nat)
    | RequestFailed(errno: int)

  datatype Error = Misused(misuse: Misuse) | DeviceFailure(fault: Fault)

  datatype Outcome = Pass | Fail(error: Error)

  /** What `usbcam_lock` hands out: the buffer's address, the bytes in it, and when it was captured. */
  datatype Locked = Locked(data: int, size: nat, timestamp: Timeval)

  datatype LockResult = Acquired(frame: Locked) | Refused(error: Error)

  /** One attempt of a driver request: it succeeded, or failed with an errno. */
  datatype Attempt = Succeeded | Failed(errno: int)

  /** How the retry loop of `usbcam_ioctl` ends. */
  datatype Request = Completed | Rejected(error: Error) | StillRetrying

  predicate Transient(a: Attempt)
  {
    a.Failed? && (a.errno == EINTR || a.errno == EAGAIN)
  }

  /** The first buffer among 0..n-1 whose mapping failed, if any. */
  function FirstMapFailure(starts: seq<int>, n: nat): (r: Option<nat>)
    requires n <= |starts|
    ensures r.Some? ==>
      && r.value < n && starts[r.value] == MapFailed
      && forall j :: 0 <= j < r.value ==> starts[j] != MapFailed
    ensures r.None? ==> forall j :: 0 <= j < n ==> starts[j] != MapFailed
  {
    if n == 0 then None
    else if FirstMapFailure(starts, n - 1).Some? then FirstMapFailure(starts, n - 1)
    else if starts[n - 1] == MapFailed then Some(n - 1)
    else None
  }

  /** A mapping failure found among the first k buffers stays the first one found among more. */
  lemma {:induction false} FirstMapFailureStable(starts: seq<int>, k: nat, m: nat)
    requires k <= m <= |starts|
    requires FirstMapFailure(starts, k).Some?
    ensures FirstMapFailure(starts, m) == FirstMapFailure(starts, k)
  {
  }

  /**
   * The buffers a start-up that ended with `r` has mapped: the whole pool of
   * n on success, the ones before the failed mapping, or none at all.
   */
  function MappedAtStart(r: Outcome, n: nat): set<nat>
  {
    if r.Pass? then Range(n)
    else if r.error.DeviceFailure? && r.error.fault.MappingFailed? then Range(r.error.fault.index)
    else {}
  }

  /** `t` holds `vals` below `written` and still holds `t0` from there on. */
  ghost predicate TableAfter(t: seq<int>, t0: seq<int>, written: nat, vals: seq<int>)
  {
    && |t| == |t0| && written <= |t| && written <= |vals|
    && t[..written] == vals[..written] && t[written..] == t0[written..]
  }

  /** `m` maps the indices below `mapped` to `starts` and otherwise agrees with `m0`. */
  ghost predicate MappingsAfter(m: map<nat, int>, m0: map<nat, int>, mapped: nat, starts: seq<int>)
  {
    && mapped <= |starts|
    && m.Keys == m0.Keys + Range(mapped)
    && (forall k: nat :: k < mapped ==> k in m && m[k] == starts[k])
    && (forall k: nat :: mapped <= k && k in m0 ==> k in m && m[k] == m0[k])
  }

  lemma TableStep(t: seq<int>, t0: seq<int>, w: nat, vals: seq<int>)
    requires TableAfter(t, t0, w, vals) && w < |t| && w < |vals|
    ensures TableAfter(t[w := vals[w]], t0, w + 1, vals)
  {
    assert t[w := vals[w]][..w + 1] == t[..w] + [vals[w]];
    assert vals[..w + 1] == vals[..w] + [vals[w]];
    assert t[w := vals[w]][w + 1..] == t[w + 1..];
  }

  lemma MappingsStep(m: map<nat, int>, m0: map<nat, int>, mapped: nat, starts: seq<int>)
    requires MappingsAfter(m, m0, mapped, starts) && mapped < |starts|
    ensures MappingsAfter(m[mapped := starts[mapped]], m0, mapped + 1, starts)
  {
    assert Range(mapped + 1) == Range(mapped) + {mapped};
  }

  /** Every answer is the one asked for: nothing is adjusted silently. */
  ghost predicate Acceptable(opt: Options, reply: Reply)
  {
    && 0 < opt.buffers <= MaxBuffers
    && reply.fd >= 0
    && reply.format == opt.format
    && |reply.lengths| == opt.buffers
    && forall j :: 0 <= j < opt.buffers && j < |reply.starts| ==> reply.starts[j] != MapFailed
  }

  /** The result of `usbcam_init`: the first of its checks that fails, in the order it makes them. */
  function InitOutcome(opt: Options, reply: Reply): (r: Outcome)
    requires |reply.starts| == |reply.lengths|
    ensures r.Pass? <==> Acceptable(opt, reply)
    ensures (r.Fail? && r.error.Misused?) <==> !(0 < opt.buffers <= MaxBuffers)
  {
    if opt.buffers > MaxBuffers as int then Fail(Misused(TooManyBuffers))
    else if opt.buffers <= 0 then Fail(Misused(NoBuffers))
    else if reply.fd < 0 then Fail(DeviceFailure(OpenFailed))
    else if reply.format.pixelFormat != opt.format.pixelFormat then Fail(DeviceFailure(FormatMismatch))
    else if reply.format.width != opt.format.width then Fail(DeviceFailure(WidthMismatch))
    else if reply.format.height != opt.format.height then Fail(DeviceFailure(HeightMismatch))
    else if |reply.lengths| != opt.buffers then Fail(DeviceFailure(CountMismatch))
    else match FirstMapFailure(reply.starts, opt.buffers)
      case Some(i) => Fail(DeviceFailure(MappingFailed(i)))
      case None => Pass
  }

  /** Where the drain stops in a backlog of n frames when the k-th poll (if any) fails. */
  function DrainStop(n: nat, pollErrorAt: int): (k: nat)
    requires n > 0
    ensures k < n
  {
    if 0 <= pollErrorAt < n - 1 then pollErrorAt else n - 1
  }

  /** The buffer indices of some frames. */
  function IndexSet(fs: seq<Frame>): set<nat>
  {
    set f | f in fs :: f.index
  }

  lemma IndexSetExtend(fs: seq<Frame>, k: nat)
    requires k < |fs|
    ensures IndexSet(fs[..k + 1]) == IndexSet(fs[..k]) + {fs[k].index}
  {
    assert fs[..k + 1] == fs[..k] + [fs[k]];
  }

  class Session {
    var hasMmap: bool
    var hasDqbuf: bool
    var hasFd: bool
    var hasStream: bool
    var fd: int
    var buffers: nat
    const bufferStart: array<int>
    const bufferLength: array<int>
    /** The locked buffer, meaningful while hasDqbuf. */
    var dqbuf: Frame
    const dev: Device

    /** The buffer the consumer holds, if any. */
    ghost function Held(): Option<nat>
      reads this
    {
      if hasDqbuf then Some(dqbuf.index) else None
    }

    ghost predicate Valid()
      reads this, dev, bufferStart, bufferLength
    {
      && bufferStart.Length == MaxBuffers && bufferLength.Length == MaxBuffers
      && bufferStart != bufferLength
      // the flags are set in this order and never out of it
      && (hasDqbuf ==> hasStream) && (hasStream ==> hasMmap) && (hasMmap ==> hasFd)
      && dev.isOpen == hasFd && dev.streaming == hasStream
      && (!hasStream ==> dev.queued == {} && dev.ready == [])
      // the tables describe the pool the driver granted
      && (hasMmap ==>
            && 0 < buffers <= MaxBuffers && dev.count == buffers && |dev.lengths| == buffers
            && forall i: nat :: i < buffers ==>
                 bufferLength[i] == dev.lengths[i] && i in dev.mappedAt && dev.mappedAt[i] == bufferStart[i])
      // while streaming, each buffer has one owner
      && (hasStream ==>
            && Owned(buffers, dev.queued, dev.ready, Held())
            && forall j :: 0 <= j < |dev.ready| ==> dev.ready[j].bytesUsed <= dev.lengths[dev.ready[j].index])
      && (hasDqbuf ==> dqbuf.bytesUsed <= dev.lengths[dqbuf.index])
    }

    /** The calls `usbcam_cleanup` makes from this state. */
    ghost function CleanupPlan(): seq<Call>
      reads this
    {
      CleanupCalls(Held(), hasMmap, buffers, hasStream, hasFd)
    }

    /** The process starts with every flag clear and zeroed tables. */
    constructor (d: Device)
      requires !d.isOpen && !d.streaming && d.queued == {} && d.ready == []
      ensures Valid() && dev == d && fresh(bufferStart) && fresh(bufferLength)
      ensures !hasFd && !hasMmap && !hasStream && !hasDqbuf && buffers == 0 && fd == 0
      ensures forall i :: 0 <= i < MaxBuffers ==> bufferStart[i] == 0 && bufferLength[i] == 0
    {
      hasMmap, hasDqbuf, hasFd, hasStream := false, false, false, false;
      fd, buffers := 0, 0;
      bufferStart := new int[MaxBuffers](_ => 0);
      bufferLength := new int[MaxBuffers](_ => 0);
      dqbuf := Frame(0, 0, Timeval(0, 0));
      dev := d;
    }

    /**
     * `usbcam_ioctl`: issue a request until an attempt is not interrupted.
     * `attempts` are the driver's answers in order; `tries` counts the
     * interrupted ones before the decisive one.
     */
    method Ioctl(attempts: seq<Attempt>) returns (r: Request, tries: nat)
      ensures !hasFd ==> r == Rejected(Misused(NotOpen)) && tries == 0
      ensures hasFd ==> tries <= |attempts| && forall j :: 0 <= j < tries ==> Transient(attempts[j])
      ensures hasFd && tries == |attempts| ==> r == StillRetrying
      ensures hasFd && tries < |attempts| && attempts[tries] == Succeeded ==> r == Completed
      ensures hasFd && tries < |attempts| && attempts[tries].Failed? ==>
        && !Transient(attempts[tries])
        && r == Rejected(DeviceFailure(RequestFailed(attempts[tries].errno)))
    {
      if !hasFd {
        return Rejected(Misused(NotOpen)), 0;
      }
      tries := 0;
      while tries < |attempts| && Transient(attempts[tries])
        invariant tries <= |attempts|
        invariant forall j :: 0 <= j < tries ==> Transient(attempts[j])
      {
        tries := tries + 1;
      }
      if tries == |attempts| {
        r := StillRetrying;
      } else if attempts[tries] == Succeeded {
        r := Completed;
      } else {
        r := Rejected(DeviceFailure(RequestFailed(attempts[tries].errno)));
      }
    }

    /**
     * `usbcam_cleanup`: requeue the locked buffer, unmap the pool, stop
     * streaming and close the descriptor, each step guarded by its own flag.
     */
    method Cleanup()
      requires Valid()
      modifies this, dev
      ensures Valid()
      ensures !hasDqbuf && !hasMmap && !hasStream && !hasFd
      ensures dev.log == old(dev.log) + old(CleanupPlan())
      ensures dev.queued == {} && dev.ready == []
      ensures dev.mappedAt == old(dev.mappedAt) - (if old(hasMmap) then Range(old(buffers)) else {})
      ensures fd == old(fd) && buffers == old(buffers) && dqbuf == old(dqbuf)
      ensures dev.count == old(dev.count) && dev.lengths == old(dev.lengths)
    {
      ghost var q: seq<Call> := if hasDqbuf then [Queue(dqbuf.index)] else [];
      assert CleanupPlan() == q + CleanupCalls(None, hasMmap, buffers, hasStream, hasFd);
      Unlock();
      Release();
    }

    /** The rest of `usbcam_cleanup`, once no frame is locked: unmap, stop streaming, close. */
    method Release()
      requires Valid() && !hasDqbuf
      modifies this, dev
      ensures Valid()
      ensures !hasDqbuf && !hasMmap && !hasStream && !hasFd
      ensures dev.log == old(dev.log) + CleanupCalls(None, old(hasMmap), buffers, old(hasStream), old(hasFd))
      ensures dev.queued == {} && dev.ready == []
      ensures dev.mappedAt == old(dev.mappedAt) - (if old(hasMmap) then Range(buffers) else {})
      ensures fd == old(fd) && buffers == old(buffers) && dqbuf == old(dqbuf)
      ensures dev.count == old(dev.count) && dev.lengths == old(dev.lengths)
    {
      ghost var log0 := dev.log;
      ghost var u := if hasMmap then UnmapCalls(buffers) else [];
      ghost var s: seq<Call> := if hasStream then [StreamOff] else [];
      ghost var c: seq<Call> := if hasFd then [Close] else [];
      assert CleanupCalls(None, hasMmap, buffers, hasStream, hasFd) == u + s + c;
      if hasMmap {
        UnmapAll();
        hasMmap := false;
      }
      assert dev.log == log0 + u;
      if hasStream {
        dev.StopStreaming();
        hasStream := false;
      }
      assert dev.log == log0 + u + s;
      if hasFd {
        dev.CloseDevice();
        hasFd := false;
      }
    }

    /** The unmapping loop of `usbcam_cleanup`: every buffer of the pool, in index order. */
    method UnmapAll()
      modifies dev
      ensures dev.log == old(dev.log) + UnmapCalls(buffers)
      ensures dev.mappedAt == old(dev.mappedAt) - Range(buffers)
      ensures dev.isOpen == old(dev.isOpen) && dev.streaming == old(dev.streaming)
      ensures dev.queued == old(dev.queued) && dev.ready == old(dev.ready)
      ensures dev.count == old(dev.count) && dev.lengths == old(dev.lengths)
    {
      for i := 0 to buffers
        invariant dev.log == old(dev.log) + UnmapCalls(i)
        invariant dev.mappedAt == old(dev.mappedAt) - Range(i)
        invariant dev.isOpen == old(dev.isOpen) && dev.streaming == old(dev.streaming)
        invariant dev.queued == old(dev.queued) && dev.ready == old(dev.ready)
        invariant dev.count == old(dev.count) && dev.lengths == old(dev.lengths)
      {
        dev.UnmapBuffer(i);
      }
    }

    /**
     * `usbcam_init`: tear down, check the buffer count, open the device,
     * insist on the requested format and buffer count, map every buffer,
     * start streaming and queue every buffer.
     */
    method Init(opt: Options, reply: Reply) returns (r: Outcome)
      requires Valid()
      requires |reply.starts| == |reply.lengths|
      modifies this, dev, bufferStart, bufferLength
      ensures Valid()
      ensures r == InitOutcome(opt, reply)
      ensures !hasDqbuf
      ensures old(dev.log) + old(CleanupPlan()) <= dev.log
      ensures dev.mappedAt.Keys ==
        (old(dev.mappedAt).Keys - (if old(hasMmap) then Range(old(buffers)) else {})) + MappedAtStart(r, buffers)
      ensures r.Pass? ==>
        && hasFd && hasMmap && hasStream && fd == reply.fd && buffers == opt.buffers
        && dev.queued == Range(buffers) && dev.ready == []
        && (forall i :: 0 <= i < buffers ==> bufferLength[i] == reply.lengths[i] && bufferStart[i] == reply.starts[i])
        && dev.log == old(dev.log) + old(CleanupPlan()) + InitCalls(buffers)
        && (forall k :: buffers <= k < MaxBuffers ==>
              bufferStart[k] == old(bufferStart[k]) && bufferLength[k] == old(bufferLength[k]))
      ensures r.Fail? ==> !hasMmap && !hasStream
      ensures r.Fail? ==> (hasFd <==> r.error.DeviceFailure? && r.error.fault != OpenFailed)
      ensures r.Fail? && r.error.Misused? ==> dev.log == old(dev.log) + old(CleanupPlan())
    {
      Cleanup();
      assert dev.mappedAt.Keys == old(dev.mappedAt).Keys - (if old(hasMmap) then Range(old(buffers)) else {});
      r := StartUp(opt, reply);
    }

    /** `usbcam_init` after its opening teardown, from a session with every flag clear. */
    method StartUp(opt: Options, reply: Reply) returns (r: Outcome)
      requires Valid() && !hasFd && !hasMmap && !hasStream && !hasDqbuf
      requires |reply.starts| == |reply.lengths|
      modifies this, dev, bufferStart, bufferLength
      ensures Valid()
      ensures r == InitOutcome(opt, reply)
      ensures !hasDqbuf && old(dev.log) <= dev.log
      ensures dev.mappedAt.Keys == old(dev.mappedAt).Keys + MappedAtStart(r, buffers)
      ensures r.Pass? ==>
        && hasFd && hasMmap && hasStream && fd == reply.fd && buffers == opt.buffers
        && dev.queued == Range(buffers) && dev.ready == []
        && (forall i :: 0 <= i < buffers ==> bufferLength[i] == reply.lengths[i] && bufferStart[i] == reply.starts[i])
        && dev.log == old(dev.log) + InitCalls(buffers)
        && (forall k :: buffers <= k < MaxBuffers ==>
              bufferStart[k] == old(bufferStart[k]) && bufferLength[k] == old(bufferLength[k]))
      ensures r.Fail? ==> !hasMmap && !hasStream
      ensures r.Fail? ==> (hasFd <==> r.error.DeviceFailure? && r.error.fault != OpenFailed)
      ensures r.Fail? && r.error.Misused? ==> dev.log == old(dev.log)
    {
      ghost var log0 := dev.log;
      if opt.buffers > MaxBuffers as int {
        r := Fail(Misused(TooManyBuffers));
      } else if opt.buffers <= 0 {
        r := Fail(Misused(NoBuffers));
      } else {
        r := OpenAndConfigure(opt, reply);
        if r.Fail? {
          assert MappedAtStart(r, buffers) == {};
        } else {
          r := Allocate(opt.buffers, reply);
          if r.Pass? {
            assert dev.log == log0 + InitCalls(opt.buffers);
          }
        }
      }
    }

    /**
     * The first half of `usbcam_init`: open the device, set the format and
     * request the buffers, refusing any answer other than the one asked for.
     */
    method OpenAndConfigure(opt: Options, reply: Reply) returns (r: Outcome)
      requires Valid() && !hasFd && !hasMmap && !hasStream && !hasDqbuf
      requires 0 < opt.buffers <= MaxBuffers && |reply.starts| == |reply.lengths|
      modifies this, dev
      ensures Valid() && !hasMmap && !hasStream && !hasDqbuf
      ensures buffers == old(buffers) && old(dev.log) <= dev.log && dev.mappedAt == old(dev.mappedAt)
      ensures r.Fail? ==> r == InitOutcome(opt, reply) && (hasFd <==> r.error.fault != OpenFailed)
      ensures r.Fail? ==> r.error.DeviceFailure? && !r.error.fault.MappingFailed?
      ensures r.Pass? ==>
        && hasFd && fd == reply.fd && reply.fd >= 0 && reply.format == opt.format
        && |reply.lengths| == opt.buffers && dev.count == opt.buffers && dev.lengths == reply.lengths
        && dev.log == old(dev.log) + [Open, SetFormat, RequestBuffers(opt.buffers)]
    {
      fd := dev.OpenDevice(reply.fd);
      if fd < 0 {
        return Fail(DeviceFailure(OpenFailed));
      }
      hasFd := true;

      var got := dev.SetCaptureFormat(opt.format, reply.format);
      if got.pixelFormat != opt.format.pixelFormat {
        return Fail(DeviceFailure(FormatMismatch));
      }
      if got.width != opt.format.width {
        return Fail(DeviceFailure(WidthMismatch));
      }
      if got.height != opt.format.height {
        return Fail(DeviceFailure(HeightMismatch));
      }

      var granted := dev.Request(opt.buffers, reply.lengths);
      if granted != opt.buffers {
        return Fail(DeviceFailure(CountMismatch));
      }
      r := Pass;
    }

    /**
     * The second half of `usbcam_init`: map the pool, start streaming and
     * queue every buffer.
     */
    method Allocate(n: nat, reply: Reply) returns (r: Outcome)
      requires Valid() && hasFd && !hasMmap && !hasStream && !hasDqbuf
      requires 0 < n <= MaxBuffers && |reply.starts| == n && |reply.lengths| == n
      requires dev.count == n && dev.lengths == reply.lengths
      modifies this, dev, bufferStart, bufferLength
      ensures Valid() && hasFd && !hasDqbuf && fd == old(fd) && old(dev.log) <= dev.log
      ensures r == match FirstMapFailure(reply.starts, n)
        case Some(i) => Fail(DeviceFailure(MappingFailed(i)))
        case None => Pass
      ensures r.Fail? ==> !hasMmap && !hasStream
      ensures dev.mappedAt.Keys == old(dev.mappedAt).Keys + MappedAtStart(r, n)
      ensures forall k :: n <= k < MaxBuffers ==>
        bufferStart[k] == old(bufferStart[k]) && bufferLength[k] == old(bufferLength[k])
      ensures r.Pass? ==>
        && hasMmap && hasStream && buffers == n
        && dev.queued == Range(n) && dev.ready == []
        && (forall i :: 0 <= i < n ==> bufferLength[i] == reply.lengths[i] && bufferStart[i] == reply.starts[i])
        && dev.log == old(dev.log) + MapCalls(n) + [StreamOn] + QueueCalls(n)
    {
      var failed := MapPool(n, reply);
      assert forall k :: n <= k < MaxBuffers ==>
        bufferStart[k] == old(bufferStart[k]) && bufferLength[k] == old(bufferLength[k]);
      if failed.Some? {
        r := Fail(DeviceFailure(MappingFailed(failed.value)));
        assert MappedAtStart(r, n) == Range(failed.value);
      } else {
        Start(n);
        r := Pass;
      }
    }

    /** The end of `usbcam_init`, once every buffer is mapped: start streaming and queue the pool. */
    method Start(n: nat)
      requires Valid() && hasFd && !hasMmap && !hasStream && !hasDqbuf
      requires 0 < n <= MaxBuffers && dev.count == n && |dev.lengths| == n
      requires forall k: nat :: k < n ==>
        bufferLength[k] == dev.lengths[k] && k in dev.mappedAt && dev.mappedAt[k] == bufferStart[k]
      modifies this, dev
      ensures Valid() && hasFd && hasMmap && hasStream && !hasDqbuf && buffers == n && fd == old(fd)
      ensures dev.queued == Range(n) && dev.ready == [] && dev.mappedAt == old(dev.mappedAt)
      ensures dev.log == old(dev.log) + [StreamOn] + QueueCalls(n)
    {
      buffers := n;
      hasMmap := true;

      dev.StartStreaming();
      hasStream := true;

      QueueAll(n);
      AllQueuedOwned(n);
    }

    /**
     * What the allocation loop has done so far: buffers before `mapped` are
     * mapped at the addresses in `reply`, table entries before `written` hold
     * its lengths and addresses, and every other mapping and table entry is
     * as in `m0`, `s0` and `l0`.
     */
    ghost predicate PoolMapped(mapped: nat, written: nat, reply: Reply, m0: map<nat, int>, s0: seq<int>, l0: seq<int>)
      reads this, dev, bufferStart, bufferLength
    {
      && MappingsAfter(dev.mappedAt, m0, mapped, reply.starts)
      && TableAfter(bufferStart[..], s0, written, reply.starts)
      && TableAfter(bufferLength[..], l0, written, reply.lengths)
    }

    /** The driver state that mapping buffers leaves alone. */
    ghost function Untouched(): (bool, bool, nat, seq<nat>, set<nat>, seq<Frame>)
      reads dev
    {
      (dev.isOpen, dev.streaming, dev.count, dev.lengths, dev.queued, dev.ready)
    }

    /** Before the allocation loop, nothing has been mapped or written. */
    lemma PoolMappedAtStart(reply: Reply)
      ensures PoolMapped(0, 0, reply, dev.mappedAt, bufferStart[..], bufferLength[..])
    {
      assert dev.mappedAt.Keys + Range(0) == dev.mappedAt.Keys;
    }

    /**
     * The allocation loop of `usbcam_init`: query and map buffers 0..n-1 in
     * order, filling the tables, and stop at the first mapping that fails.
     * The buffers before the failed one are mapped, the table entries up to
     * it are written, and no other mapping or entry changes.
     */
    method MapPool(n: nat, reply: Reply) returns (failed: Option<nat>)
      requires n <= bufferStart.Length && n <= bufferLength.Length && bufferStart != bufferLength
      requires dev.isOpen && |reply.starts| == n && dev.lengths == reply.lengths && |reply.lengths| == n
      modifies dev, bufferStart, bufferLength
      ensures failed == FirstMapFailure(reply.starts, n)
      ensures dev.log == old(dev.log) + MapCalls(if failed.Some? then failed.value + 1 else n)
      ensures Untouched() == old(Untouched())
      ensures PoolMapped(if failed.Some? then failed.value else n, if failed.Some? then failed.value + 1 else n,
                         reply, old(dev.mappedAt), old(bufferStart[..]), old(bufferLength[..]))
    {
      ghost var m0, s0, l0 := dev.mappedAt, bufferStart[..], bufferLength[..];
      PoolMappedAtStart(reply);
      failed := None;
      for i := 0 to n
        invariant Untouched() == old(Untouched())
        invariant dev.log == old(dev.log) + MapCalls(i)
        invariant FirstMapFailure(reply.starts, i) == None
        invariant PoolMapped(i, i, reply, m0, s0, l0)
        invariant failed == None
      {
        var start := MapOne(i, reply, m0, s0, l0);
        if start == MapFailed {
          assert FirstMapFailure(reply.starts, i + 1) == Some(i);
          FirstMapFailureStable(reply.starts, i + 1, n);
          failed := Some(i);
          break;
        }
      }
    }

    /** One round of the allocation loop: query buffer i, map it and record both answers. */
    method MapOne(i: nat, reply: Reply, ghost m0: map<nat, int>, ghost s0: seq<int>, ghost l0: seq<int>) returns (start: int)
      requires i < bufferStart.Length && i < bufferLength.Length && bufferStart != bufferLength
      requires dev.isOpen && i < |reply.starts| && i < |reply.lengths| && dev.lengths == reply.lengths
      requires PoolMapped(i, i, reply, m0, s0, l0)
      modifies dev, bufferStart, bufferLength
      ensures start == reply.starts[i]
      ensures PoolMapped(if start == MapFailed then i else i + 1, i + 1, reply, m0, s0, l0)
      ensures dev.log == old(dev.log) + [QueryBuffer(i), Map(i)]
      ensures Untouched() == old(Untouched())
    {
      var length := dev.Query(i);
      bufferLength[i] := length;
      start := dev.MapBuffer(i, reply.starts[i]);
      bufferStart[i] := start;
      TableStep(old(bufferStart[..]), s0, i, reply.starts);
      TableStep(old(bufferLength[..]), l0, i, reply.lengths);
      if start != MapFailed {
        MappingsStep(old(dev.mappedAt), m0, i, reply.starts);
      }
    }

    /** The queueing loop of `usbcam_init`: hand buffers 0..n-1 to the driver, in order. */
    method QueueAll(n: nat)
      requires dev.isOpen && dev.count == n && dev.queued == {} && dev.ready == []
      modifies dev
      ensures dev.queued == Range(n) && dev.log == old(dev.log) + QueueCalls(n)
      ensures dev.isOpen == old(dev.isOpen) && dev.streaming == old(dev.streaming) && dev.ready == []
      ensures dev.count == old(dev.count) && dev.lengths == old(dev.lengths)
      ensures dev.mappedAt == old(dev.mappedAt)
    {
      for i := 0 to n
        invariant dev.isOpen == old(dev.isOpen) && dev.streaming == old(dev.streaming) && dev.ready == []
        invariant dev.count == n && dev.lengths == old(dev.lengths) && dev.mappedAt == old(dev.mappedAt)
        invariant dev.queued == Range(i)
        invariant dev.log == old(dev.log) + QueueCalls(i)
      {
        dev.QueueBuffer(i);
      }
    }

    /** `usbcam_unlock`: give the locked buffer back to the driver, if there is one. */
    method Unlock()
      requires Valid()
      modifies this, dev
      ensures Valid()
      ensures !hasDqbuf
      ensures old(hasDqbuf) ==>
        && dev.queued == old(dev.queued) + {old(dqbuf.index)}
        && dev.log == old(dev.log) + [Queue(old(dqbuf.index))]
      ensures !old(hasDqbuf) ==> unchanged(dev)
      ensures hasFd == old(hasFd) && hasMmap == old(hasMmap) && hasStream == old(hasStream)
      ensures fd == old(fd) && buffers == old(buffers) && dqbuf == old(dqbuf)
      ensures dev.ready == old(dev.ready) && dev.mappedAt == old(dev.mappedAt)
      ensures dev.count == old(dev.count) && dev.lengths == old(dev.lengths)
    {
      if hasDqbuf {
        RequeueOwned(buffers, dev.queued, dev.ready, dqbuf.index);
        dev.QueueBuffer(dqbuf.index);
        hasDqbuf := false;
      }
    }

    /**
     * `usbcam_lock`: refuse unless streaming with no frame locked, then
     * drain to the newest completed frame and lock it. `pollErrorAt` is the
     * drain round (counting from 0) at which the readiness check fails, if any.
     */
    method Lock(pollErrorAt: int) returns (r: LockResult)
      requires Valid()
      requires hasFd && hasMmap && hasStream && !hasDqbuf ==> dev.ready != []
      modifies this, dev
      ensures Valid()
      ensures r.Acquired? <==> !old(hasDqbuf) && old(hasFd) && old(hasMmap) && old(hasStream)
      ensures old(hasDqbuf) ==> r == Refused(Misused(AlreadyLocked))
      ensures !old(hasDqbuf) && !old(hasFd) ==> r == Refused(Misused(NotOpen))
      ensures !old(hasDqbuf) && old(hasFd) && !old(hasMmap) ==> r == Refused(Misused(NotMapped))
      ensures !old(hasDqbuf) && old(hasFd) && old(hasMmap) && !old(hasStream) ==> r == Refused(Misused(NotStreaming))
      ensures r.Refused? ==> unchanged(this) && unchanged(dev)
      ensures hasFd == old(hasFd) && hasMmap == old(hasMmap) && hasStream == old(hasStream)
      ensures fd == old(fd) && buffers == old(buffers)
      ensures dev.mappedAt == old(dev.mappedAt) && dev.count == old(dev.count) && dev.lengths == old(dev.lengths)
      ensures r.Acquired? ==>
        var k := DrainStop(|old(dev.ready)|, pollErrorAt);
        var f := old(dev.ready)[k];
        && hasDqbuf && dqbuf == f
        && r.frame == Locked(bufferStart[f.index], f.bytesUsed, f.timestamp)
        && f.index < buffers && f.bytesUsed <= bufferLength[f.index]
        && dev.ready == old(dev.ready)[k + 1..]
        && dev.queued == old(dev.queued) + IndexSet(old(dev.ready)[..k])
        && dev.log == old(dev.log) + DrainCalls(old(dev.ready), k) + [Poll]
    {
      if hasDqbuf {
        return Refused(Misused(AlreadyLocked));
      }
      if !hasFd {
        return Refused(Misused(NotOpen));
      }
      if !hasMmap {
        return Refused(Misused(NotMapped));
      }
      if !hasStream {
        return Refused(Misused(NotStreaming));
      }
      var buf := DrainToLatest(pollErrorAt);
      dqbuf := buf;
      hasDqbuf := true;
      r := Acquired(Locked(bufferStart[buf.index], buf.bytesUsed, buf.timestamp));
    }

    /**
     * The dequeue loop of `usbcam_lock`: take the oldest completed buffer,
     * then, while the device reports another one ready, queue the held
     * buffer back and take the next.
     */
    method DrainToLatest(pollErrorAt: int) returns (buf: Frame)
      requires dev.isOpen && dev.streaming && dev.count == buffers && dev.ready != []
      requires Owned(buffers, dev.queued, dev.ready, None)
      modifies dev
      ensures var k := DrainStop(|old(dev.ready)|, pollErrorAt);
        && buf == old(dev.ready)[k]
        && dev.ready == old(dev.ready)[k + 1..]
        && dev.queued == old(dev.queued) + IndexSet(old(dev.ready)[..k])
        && dev.log == old(dev.log) + DrainCalls(old(dev.ready), k) + [Poll]
      ensures dev.isOpen == old(dev.isOpen) && dev.streaming == old(dev.streaming)
      ensures dev.mappedAt == old(dev.mappedAt) && dev.count == old(dev.count) && dev.lengths == old(dev.lengths)
      ensures Owned(buffers, dev.queued, dev.ready, Some(buf.index))
    {
      ghost var rs, q0 := dev.ready, dev.queued;
      ghost var stop := DrainStop(|rs|, pollErrorAt);
      DequeueOwned(buffers, dev.queued, dev.ready);
      buf := dev.DequeueBuffer();
      assert rs[..0] == [];
      var round := 0;
      var p := 1;
      while p == 1
        invariant 0 <= round < |rs| && buf == rs[round] && dev.ready == rs[round + 1..]
        invariant dev.queued == q0 + IndexSet(rs[..round])
        invariant Owned(buffers, dev.queued, dev.ready, Some(buf.index))
        invariant dev.isOpen && dev.streaming
        invariant dev.mappedAt == old(dev.mappedAt) && dev.count == old(dev.count) && dev.lengths == old(dev.lengths)
        invariant p == 1 ==> round <= stop && dev.log == old(dev.log) + DrainCalls(rs, round)
        invariant p != 1 ==> round == stop && dev.log == old(dev.log) + DrainCalls(rs, round) + [Poll]
        decreases |dev.ready| + (if p == 1 then 1 else 0)
      {
        p := dev.ReadyCount(round == pollErrorAt);
        if p == 1 {
          ghost var log1 := dev.log;
          IndexSetExtend(rs, round);
          buf := Exchange(buf);
          assert dev.ready == rs[round + 2..];
          assert dev.log == log1 + [Queue(rs[round].index), Dequeue(rs[round + 1].index)];
          assert DrainCalls(rs, round + 1) == DrainCalls(rs, round) + [Poll, Queue(rs[round].index), Dequeue(rs[round + 1].index)];
          round := round + 1;
        }
      }
    }

    /** One round of the drain: queue the held buffer back and dequeue the next one. */
    method Exchange(held: Frame) returns (next: Frame)
      requires dev.isOpen && dev.count == buffers && dev.ready != []
      requires Owned(buffers, dev.queued, dev.ready, Some(held.index))
      modifies dev
      ensures next == old(dev.ready)[0] && dev.ready == old(dev.ready)[1..]
      ensures dev.queued == old(dev.queued) + {held.index}
      ensures dev.log == old(dev.log) + [Queue(held.index), Dequeue(next.index)]
      ensures Owned(buffers, dev.queued, dev.ready, Some(next.index))
      ensures dev.isOpen == old(dev.isOpen) && dev.streaming == old(dev.streaming)
      ensures dev.mappedAt == old(dev.mappedAt) && dev.count == old(dev.count) && dev.lengths == old(dev.lengths)
    {
      RequeueOwned(buffers, dev.queued, dev.ready, held.index);
      dev.QueueBuffer(held.index);
      DequeueOwned(buffers, dev.queued, dev.ready);
      next := dev.DequeueBuffer();
    }

    /**
     * Not part of usbcam: the camera completes a frame into a queued buffer.
     * It is how a buffer given back by Unlock can be locked again.
     */
    method FrameCompleted(f: Frame)
      requires Valid() && hasStream && f.index in dev.queued
      requires f.index < |dev.lengths| && f.bytesUsed <= dev.lengths[f.index]
      modifies dev
      ensures Valid()
      ensures dev.queued == old(dev.queued) - {f.index} && dev.ready == old(dev.ready) + [f]
      ensures dev.log == old(dev.log)
      ensures dev.isOpen == old(dev.isOpen) && dev.streaming == old(dev.streaming) && dev.count == old(dev.count)
      ensures dev.lengths == old(dev.lengths) && dev.mappedAt == old(dev.mappedAt)
    {
      CompleteOwned(buffers, dev.queued, dev.ready, Held(), f);
      dev.Complete(f);
    }
  }
}
