/**
 * A client of the session, showing what its contracts let a caller conclude:
 * a three-buffer session at 640x480, a backlog drained to its newest frame,
 * a second lock refused, a released buffer captured and locked again, and a
 * teardown that a second teardown leaves as it is.
 */
module Scenario {
  import opened Buffers
  import opened Driver
  import opened Usbcam

  method ThreeBufferSession(t0: Timeval, t1: Timeval, t2: Timeval, t3: Timeval)
  {
    var s := StartThreeBuffers();
    LatestFrameWins(s, t0, t1, t2, t3);
    TeardownTwice(s);
  }

  /**
   * From a fresh device, start-up followed by teardown releases every mapping
   * when start-up succeeded. After a failed mapping, the buffers mapped before
   * it stay mapped: the flag that guards unmapping was never set.
   */
  method StartAndTearDown(opt: Options, reply: Reply) returns (r: Outcome, d: Device)
    requires |reply.starts| == |reply.lengths|
    ensures r == InitOutcome(opt, reply)
    ensures !d.isOpen && !d.streaming && d.queued == {} && d.ready == []
    ensures r.Pass? ==> d.mappedAt == map[]
    ensures r.Fail? ==>
      d.mappedAt.Keys == (if r.error.DeviceFailure? && r.error.fault.MappingFailed? then Range(r.error.fault.index) else {})
  {
    d := new Device();
    var s := new Session(d);
    r := s.Init(opt, reply);
    s.Cleanup();
    if r.Pass? {
      assert d.mappedAt.Keys == {};
    }
  }

  /** Start-up with every answer as requested succeeds and queues all three buffers. */
  method StartThreeBuffers() returns (s: Session)
    ensures fresh(s) && fresh(s.dev) && fresh(s.bufferStart) && fresh(s.bufferLength)
    ensures s.Valid() && s.hasStream && !s.hasDqbuf && s.buffers == 3
    ensures s.dev.queued == {0, 1, 2} && s.dev.ready == []
    ensures s.bufferStart[2] == 12288 && s.dev.lengths == [1000, 1000, 1000]
  {
    var d := new Device();
    s := new Session(d);
    var mjpeg := Format(0x47504A4D, 640, 480);
    var opt := Options("/dev/video0", 3, mjpeg);
    var reply := Reply(3, mjpeg, [1000, 1000, 1000], [4096, 8192, 12288]);
    assert Acceptable(opt, reply);
    var r := s.Init(opt, reply);
    assert r == Pass;
    assert s.dev.queued == Range(3);
  }

  /** Three completed frames: lock returns the newest and queues the two older ones back. */
  method LatestFrameWins(s: Session, t0: Timeval, t1: Timeval, t2: Timeval, t3: Timeval)
    requires s.Valid() && s.hasStream && !s.hasDqbuf && s.buffers == 3
    requires s.dev.queued == {0, 1, 2} && s.dev.ready == []
    requires s.bufferStart[2] == 12288 && s.dev.lengths == [1000, 1000, 1000]
    modifies s, s.dev
    ensures s.Valid() && !s.hasDqbuf
  {
    s.FrameCompleted(Frame(0, 700, t0));
    s.FrameCompleted(Frame(1, 800, t1));
    s.FrameCompleted(Frame(2, 900, t2));
    var first := s.Lock(-1);
    assert first == Acquired(Locked(12288, 900, t2));

    // locking again without unlocking is refused and changes nothing
    var again := s.Lock(-1);
    assert again == Refused(Misused(AlreadyLocked));

    // the released buffer returns to the driver and can be locked again
    s.Unlock();
    assert 2 in s.dev.queued && s.dev.ready == [];
    s.FrameCompleted(Frame(2, 500, t3));
    var second := s.Lock(-1);
    assert second == Acquired(Locked(12288, 500, t3));

    // a second unlock is harmless
    s.Unlock();
    s.Unlock();
  }

  /** Teardown clears every flag, and a second teardown calls nothing. */
  method TeardownTwice(s: Session)
    requires s.Valid()
    modifies s, s.dev
  {
    s.Cleanup();
    assert !s.hasFd && !s.hasMmap && !s.hasStream && !s.hasDqbuf;
    var before := s.dev.log;
    s.Cleanup();
    assert s.dev.log == before;
  }
}
