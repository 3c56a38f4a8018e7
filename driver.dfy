/**
 * An abstract Video4Linux2 capture driver: the collaborator that the session
 * controller calls through `v4l2_open`, `v4l2_ioctl`, `mmap`, `munmap`,
 * `select` and `close`.
 *
 * Only the buffer bookkeeping is modelled. Answers that come from the outside
 * world (the descriptor `open` returns, the format and buffer count the driver
 * grants, the address `mmap` returns) are parameters. Every call the
 * controller makes is appended to `log`, so the order of calls is observable.
 */
module Driver {
  import opened Buffers

  /** `mmap` reports failure with the address (void*)-1. */
  const MapFailed: int := -1

  /** The requested or negotiated capture format (`v4l2_pix_format`). */
  datatype Format = Format(pixelFormat: nat, width: nat, height: nat)

  /** One call into the driver, as recorded in the log. */
  datatype Call =
    | Open
    | SetFormat
    | RequestBuffers(count: nat)
    | QueryBuffer(index: nat)
    | Map(index: nat)
    | StreamOn
    | Queue(index: nat)
    | Dequeue(index: nat)
    | Poll
    | Unmap(index: nat)
    | StreamOff
    | Close

  class Device {
    /** A descriptor to the device is open. */
    var isOpen: bool
    /** VIDIOC_STREAMON has been issued and not yet undone. */
    var streaming: bool
    /** Buffers allocated by the last VIDIOC_REQBUFS, and their lengths. */
    var count: nat
    var lengths: seq<nat>
    /** Buffer index -> start address of its current mapping. */
    var mappedAt: map<nat, int>
    /** Empty buffers the driver may fill. */
    var queued: set<nat>
    /** Filled buffers not yet dequeued, oldest first. */
    var ready: seq<Frame>
    /** Every call made so far, in order. */
    var log: seq<Call>

    constructor ()
      ensures !isOpen && !streaming && count == 0 && lengths == []
      ensures mappedAt == map[] && queued == {} && ready == [] && log == []
    {
      isOpen, streaming, count, lengths := false, false, 0, [];
      mappedAt, queued, ready, log := map[], {}, [], [];
    }

    /** `v4l2_open`: the environment answers with a descriptor, negative on failure. */
    method OpenDevice(answer: int) returns (fd: int)
      modifies this
      ensures fd == answer && isOpen == (answer >= 0)
      ensures log == old(log) + [Open]
      ensures streaming == old(streaming) && count == old(count) && lengths == old(lengths)
      ensures mappedAt == old(mappedAt) && queued == old(queued) && ready == old(ready)
    {
      fd := answer;
      isOpen := answer >= 0;
      log := log + [Open];
    }

    /** VIDIOC_S_FMT: the driver may round or replace the requested format. */
    method SetCaptureFormat(requested: Format, negotiated: Format) returns (got: Format)
      requires isOpen
      modifies this`log
      ensures got == negotiated
      ensures log == old(log) + [SetFormat]
    {
      got := negotiated;
      log := log + [SetFormat];
    }

    /** VIDIOC_REQBUFS: the driver grants some number of buffers of the given lengths. */
    method Request(requested: nat, lengthsGranted: seq<nat>) returns (granted: nat)
      requires isOpen
      modifies this
      ensures granted == |lengthsGranted| && count == granted && lengths == lengthsGranted
      ensures log == old(log) + [RequestBuffers(requested)]
      ensures isOpen == old(isOpen) && streaming == old(streaming)
      ensures mappedAt == old(mappedAt) && queued == old(queued) && ready == old(ready)
    {
      granted := |lengthsGranted|;
      count, lengths := granted, lengthsGranted;
      log := log + [RequestBuffers(requested)];
    }

    /** VIDIOC_QUERYBUF: the length of buffer i. */
    method Query(i: nat) returns (length: nat)
      requires isOpen && i < |lengths|
      modifies this`log
      ensures length == lengths[i]
      ensures log == old(log) + [QueryBuffer(i)]
    {
      length := lengths[i];
      log := log + [QueryBuffer(i)];
    }

    /** `mmap` of buffer i: the environment answers with an address or MapFailed. */
    method MapBuffer(i: nat, answer: int) returns (start: int)
      requires isOpen
      modifies this
      ensures start == answer
      ensures mappedAt == if answer == MapFailed then old(mappedAt) else old(mappedAt)[i := answer]
      ensures log == old(log) + [Map(i)]
      ensures isOpen == old(isOpen) && streaming == old(streaming) && count == old(count)
      ensures lengths == old(lengths) && queued == old(queued) && ready == old(ready)
    {
      start := answer;
      if answer != MapFailed {
        mappedAt := mappedAt[i := answer];
      }
      log := log + [Map(i)];
    }

    /** `munmap` of buffer i. */
    method UnmapBuffer(i: nat)
      modifies this
      ensures mappedAt == old(mappedAt) - {i}
      ensures log == old(log) + [Unmap(i)]
      ensures isOpen == old(isOpen) && streaming == old(streaming) && count == old(count)
      ensures lengths == old(lengths) && queued == old(queued) && ready == old(ready)
    {
      mappedAt := mappedAt - {i};
      log := log + [Unmap(i)];
    }

    /** VIDIOC_STREAMON. */
    method StartStreaming()
      requires isOpen
      modifies this
      ensures streaming
      ensures log == old(log) + [StreamOn]
      ensures isOpen == old(isOpen) && count == old(count) && lengths == old(lengths)
      ensures mappedAt == old(mappedAt) && queued == old(queued) && ready == old(ready)
    {
      streaming := true;
      log := log + [StreamOn];
    }

    /** VIDIOC_STREAMOFF: the driver gives back every buffer, filled or not. */
    method StopStreaming()
      requires isOpen
      modifies this
      ensures !streaming && queued == {} && ready == []
      ensures log == old(log) + [StreamOff]
      ensures isOpen == old(isOpen) && count == old(count) && lengths == old(lengths)
      ensures mappedAt == old(mappedAt)
    {
      streaming, queued, ready := false, {}, [];
      log := log + [StreamOff];
    }

    /**
     * VIDIOC_QBUF: buffer i becomes the driver's, to be filled. The driver
     * refuses a buffer it already owns; the caller must not offer one.
     */
    method QueueBuffer(i: nat)
      requires isOpen && i < count
      requires i !in queued && Occurrences(ready, i) == 0
      modifies this
      ensures queued == old(queued) + {i}
      ensures log == old(log) + [Queue(i)]
      ensures isOpen == old(isOpen) && streaming == old(streaming) && count == old(count)
      ensures lengths == old(lengths) && mappedAt == old(mappedAt) && ready == old(ready)
    {
      queued := queued + {i};
      log := log + [Queue(i)];
    }

    /**
     * VIDIOC_DQBUF: the oldest filled buffer becomes the caller's. The real
     * call blocks until one exists; the model requires that it does.
     */
    method DequeueBuffer() returns (f: Frame)
      requires isOpen && ready != []
      modifies this
      ensures f == old(ready)[0] && ready == old(ready)[1..]
      ensures log == old(log) + [Dequeue(f.index)]
      ensures isOpen == old(isOpen) && streaming == old(streaming) && count == old(count)
      ensures lengths == old(lengths) && mappedAt == old(mappedAt) && queued == old(queued)
    {
      f := ready[0];
      ready := ready[1..];
      log := log + [Dequeue(f.index)];
    }

    /**
     * `select` with a zero timeout on the descriptor: 1 when a filled buffer
     * can be dequeued, 0 when none can, -1 when the call itself fails (the
     * environment decides that through `fails`).
     */
    method ReadyCount(fails: bool) returns (r: int)
      requires isOpen
      modifies this`log
      ensures r == (if fails then -1 else if ready != [] then 1 else 0)
      ensures log == old(log) + [Poll]
    {
      r := if fails then -1 else if ready != [] then 1 else 0;
      log := log + [Poll];
    }

    /** `close` of the descriptor. */
    method CloseDevice()
      modifies this
      ensures !isOpen
      ensures log == old(log) + [Close]
      ensures streaming == old(streaming) && count == old(count) && lengths == old(lengths)
      ensures mappedAt == old(mappedAt) && queued == old(queued) && ready == old(ready)
    {
      isOpen := false;
      log := log + [Close];
    }

    /**
     * Not a call the controller makes: the camera completes a frame into a
     * queued buffer, which joins the back of the ready queue.
     */
    method Complete(f: Frame)
      requires streaming && f.index in queued
      requires f.index < |lengths| && f.bytesUsed <= lengths[f.index]
      modifies this`queued, this`ready
      ensures queued == old(queued) - {f.index} && ready == old(ready) + [f]
    {
      queued := queued - {f.index};
      ready := ready + [f];
    }
  }
}
