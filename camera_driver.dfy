/**
 * The control logic of the USB camera V4L2 driver: format negotiation
 * (VIDIOC_TRY_FMT / VIDIOC_S_FMT / VIDIOC_ENUM_FMT), videobuf2 buffer
 * negotiation, the FIFO list of queued buffers, and the four-state device
 * lifecycle driven by probe, start, stop and disconnect.
 *
 * videobuf2 itself is abstract: whether the queue is busy is an input, and
 * handing a buffer back (`vb2_buffer_done`) appends to a completion log.
 */
module CameraDriver {
  import opened Base

  /** A kernel `u32`. */
  type u32 = x: int | 0 <= x < 0x1_0000_0000

  const EINVAL: int := 22
  const EBUSY: int := 16

  const MIN_BUFFERS: u32 := 2
  const MAX_BUFFERS: u32 := 4
  const MAX_FRAME_SIZE: int := 1280 * 720 * 2

  /** `v4l2_fourcc('M','J','P','G')` and `v4l2_fourcc('Y','U','Y','V')`. */
  const PIX_FMT_MJPEG: u32 := 0x4750_4A4D
  const PIX_FMT_YUYV: u32 := 0x5659_5559

  const FIELD_NONE: u32 := 1
  const COLORSPACE_SRGB: u32 := 8
  const FMT_FLAG_COMPRESSED: u32 := 1

  const MIN_WIDTH: u32 := 160
  const MAX_WIDTH: u32 := 1280
  const MIN_HEIGHT: u32 := 120
  const MAX_HEIGHT: u32 := 720

  /** The fields of `struct v4l2_pix_format` the driver reads or writes. */
  datatype PixFormat = PixFormat(
    width: u32,
    height: u32,
    pixelformat: u32,
    field: u32,
    bytesperline: u32,
    sizeimage: u32,
    colorspace: u32)

  /** One entry of the driver's format table. */
  datatype FmtDesc = FmtDesc(index: u32, flags: u32, description: string, pixelformat: u32)

  datatype CameraState = Disconnected | Connected | Streaming | Error

  /** `enum vb2_buffer_state`. */
  datatype Vb2BufferState = Dequeued | InRequest | Preparing | Queued | Active | Done | Error

  type BufId = nat

  // ---------------------------------------------------------------------
  // Format negotiation

  /** The kernel's `clamp(v, lo, hi)`. */
  function Clamp(v: int, lo: int, hi: int): int
    requires lo <= hi
  {
    if v < lo then lo else if v > hi then hi else v
  }

  /** `ALIGN(x, a)`: `x` rounded up to a multiple of the power of two `a`. */
  function AlignUp(x: nat, a: nat): nat
    requires a > 0
  {
    (x + a - 1) / a * a
  }

  lemma AlignUpBounds(x: nat, a: nat)
    requires a == 16 || a == 2
    ensures AlignUp(x, a) % a == 0
    ensures x <= AlignUp(x, a) < x + a
    ensures x % a == 0 ==> AlignUp(x, a) == x
  {
    if a == 16 {
      assert AlignUp(x, a) == (x + 15) / 16 * 16;
    } else {
      assert AlignUp(x, a) == (x + 1) / 2 * 2;
    }
  }

  lemma AlignMonotone(x: nat, y: nat, a: nat)
    requires a == 16 || a == 2
    requires x <= y
    ensures AlignUp(x, a) <= AlignUp(y, a)
  {
    if a == 16 {
      assert AlignUp(x, a) == (x + 15) / 16 * 16;
      assert AlignUp(y, a) == (y + 15) / 16 * 16;
    } else {
      assert AlignUp(x, a) == (x + 1) / 2 * 2;
      assert AlignUp(y, a) == (y + 1) / 2 * 2;
    }
  }

  /** What `camera_try_fmt` accepts without change. */
  predicate Negotiated(f: PixFormat)
  {
    && (f.pixelformat == PIX_FMT_MJPEG || f.pixelformat == PIX_FMT_YUYV)
    && MIN_WIDTH <= f.width <= MAX_WIDTH && f.width % 16 == 0
    && MIN_HEIGHT <= f.height <= MAX_HEIGHT && f.height % 2 == 0
    && (f.pixelformat == PIX_FMT_YUYV ==>
          f.bytesperline == 2 * f.width && f.sizeimage == 2 * f.width * f.height)
    && (f.pixelformat == PIX_FMT_MJPEG ==>
          f.bytesperline == 0 && f.sizeimage == f.width * f.height)
    && f.field == FIELD_NONE
    && f.colorspace == COLORSPACE_SRGB
  }

  /**
   * `camera_try_fmt`: adjusts the request instead of rejecting it, and
   * always succeeds (returns 0).
   */
  function TryFmt(f: PixFormat): (r: PixFormat)
    ensures Negotiated(r)
    ensures r.pixelformat ==
              (if f.pixelformat == PIX_FMT_MJPEG || f.pixelformat == PIX_FMT_YUYV
               then f.pixelformat else PIX_FMT_MJPEG)
    ensures r.width - 16 < Clamp(f.width, MIN_WIDTH, MAX_WIDTH) <= r.width
    ensures r.height - 2 < Clamp(f.height, MIN_HEIGHT, MAX_HEIGHT) <= r.height
    ensures r.sizeimage <= MAX_FRAME_SIZE
  {
    var pixelformat :=
      if f.pixelformat != PIX_FMT_MJPEG && f.pixelformat != PIX_FMT_YUYV
      then PIX_FMT_MJPEG else f.pixelformat;
    var w := Clamp(f.width, MIN_WIDTH, MAX_WIDTH);
    var h := Clamp(f.height, MIN_HEIGHT, MAX_HEIGHT);
    AlignUpBounds(w, 16);
    AlignUpBounds(h, 2);
    var width := AlignUp(w, 16);
    var height := AlignUp(h, 2);
    assert width <= MAX_WIDTH && height <= MAX_HEIGHT by {
      AlignUpBounds(MAX_WIDTH, 16);
      AlignUpBounds(MAX_HEIGHT, 2);
      AlignMonotone(w, MAX_WIDTH, 16);
      AlignMonotone(h, MAX_HEIGHT, 2);
    }
    FilledFormat(width, height, pixelformat)
  }

  /** The format the driver reports for aligned, in-range dimensions: line length and image size follow from them. */
  function FilledFormat(width: u32, height: u32, pixelformat: u32): (r: PixFormat)
    requires MIN_WIDTH <= width <= MAX_WIDTH && width % 16 == 0
    requires MIN_HEIGHT <= height <= MAX_HEIGHT && height % 2 == 0
    requires pixelformat == PIX_FMT_MJPEG || pixelformat == PIX_FMT_YUYV
    ensures Negotiated(r)
    ensures r.width == width && r.height == height && r.pixelformat == pixelformat
    ensures r.sizeimage <= MAX_FRAME_SIZE
  {
    SizeBound(width, height);
    if pixelformat == PIX_FMT_YUYV then
      PixFormat(width, height, pixelformat, FIELD_NONE,
                width * 2, width * 2 * height, COLORSPACE_SRGB)
    else
      PixFormat(width, height, pixelformat, FIELD_NONE,
                0, width * height, COLORSPACE_SRGB)
  }

  lemma SizeBound(width: nat, height: nat)
    requires width <= 1280 && height <= 720
    ensures width * 2 * height <= MAX_FRAME_SIZE
    ensures width * height <= MAX_FRAME_SIZE
  {
    assert width * height <= 1280 * height;
    assert 1280 * height <= 1280 * 720;
  }

  /** A negotiated format passes through `camera_try_fmt` unchanged. */
  lemma {:induction false} TryFmtKeepsNegotiated(f: PixFormat)
    requires Negotiated(f)
    ensures TryFmt(f) == f
  {
    AlignUpBounds(f.width, 16);
    AlignUpBounds(f.height, 2);
  }

  /** Trying a format twice gives what trying it once gave. */
  lemma TryFmtIdempotent(f: PixFormat)
    ensures TryFmt(TryFmt(f)) == TryFmt(f)
  {
    TryFmtKeepsNegotiated(TryFmt(f));
  }

  /** The format table `VIDIOC_ENUM_FMT` walks. */
  function Formats(): (t: seq<FmtDesc>)
  {
    [ FmtDesc(0, FMT_FLAG_COMPRESSED, "Motion-JPEG", PIX_FMT_MJPEG),
      FmtDesc(1, 0, "YUYV 4:2:2", PIX_FMT_YUYV) ]
  }

  datatype EnumResult = EnumOk(desc: FmtDesc) | EnumErr(errno: int)

  /** `camera_enum_fmt`: the table entry at `index`, or -EINVAL past its end. */
  function EnumFmt(index: u32): (r: EnumResult)
    ensures r.EnumErr? <==> index >= |Formats()|
    ensures r.EnumErr? ==> r.errno == -EINVAL
    ensures r.EnumOk? ==> r.desc.index == index
  {
    if index >= |Formats()| then EnumErr(-EINVAL) else EnumOk(Formats()[index])
  }

  /**
   * The enumerated pixel formats are exactly the ones `camera_try_fmt`
   * keeps: each enumerated one survives negotiation, and every negotiated
   * format is enumerated at some index.
   */
  lemma EnumFmtMatchesTryFmt(f: PixFormat)
    ensures (exists i: u32 :: EnumFmt(i).EnumOk? && EnumFmt(i).desc.pixelformat == f.pixelformat)
            <==> TryFmt(f).pixelformat == f.pixelformat
  {
    if f.pixelformat == PIX_FMT_MJPEG {
      assert EnumFmt(0).desc.pixelformat == f.pixelformat;
    } else if f.pixelformat == PIX_FMT_YUYV {
      assert EnumFmt(1).desc.pixelformat == f.pixelformat;
    }
  }

  // ---------------------------------------------------------------------
  // Buffer negotiation

  /** The outputs of `camera_queue_setup`: its return value and the counts it writes. */
  datatype QueueSetupResult = QueueSetupResult(ret: int, nbuffers: u32, nplanes: u32, size0: u32)

  /**
   * `camera_queue_setup` against the device's current format. With planes
   * already given it only checks the first plane's size; otherwise it asks
   * for one plane of `sizeimage` bytes and brings the buffer count into
   * [MIN_BUFFERS, MAX_BUFFERS].
   */
  function QueueSetup(fmt: PixFormat, nbuffers: u32, nplanes: u32, size0: u32): (r: QueueSetupResult)
    ensures nplanes != 0 ==>
      && (r.ret == -EINVAL <==> size0 < fmt.sizeimage)
      && (r.ret == 0 <==> size0 >= fmt.sizeimage)
      && r.nbuffers == nbuffers && r.nplanes == nplanes && r.size0 == size0
    ensures nplanes == 0 ==>
      && r.ret == 0 && r.nplanes == 1 && r.size0 == fmt.sizeimage
      && MIN_BUFFERS <= r.nbuffers <= MAX_BUFFERS
      && (MIN_BUFFERS <= nbuffers <= MAX_BUFFERS ==> r.nbuffers == nbuffers)
      && (nbuffers < MIN_BUFFERS ==> r.nbuffers == MIN_BUFFERS)
      && (nbuffers > MAX_BUFFERS ==> r.nbuffers == MAX_BUFFERS)
  {
    var size := fmt.sizeimage;
    if nplanes != 0 then
      QueueSetupResult(if size0 < size then -EINVAL else 0, nbuffers, nplanes, size0)
    else
      var n := if nbuffers < MIN_BUFFERS then MIN_BUFFERS else nbuffers;
      var n := if n > MAX_BUFFERS then MAX_BUFFERS else n;
      QueueSetupResult(0, n, 1, size)
  }

  /** The outcome of `camera_buf_prepare`: an error, or the payload it set. */
  datatype PrepareResult = PrepareErr(errno: int) | PrepareOk(payload: nat)

  /** `camera_buf_prepare`: a plane smaller than `sizeimage` is refused. */
  function BufPrepare(fmt: PixFormat, planeSize: nat): (r: PrepareResult)
    ensures r.PrepareErr? <==> planeSize < fmt.sizeimage
    ensures r.PrepareErr? ==> r.errno == -EINVAL
    ensures r.PrepareOk? ==> r.payload == fmt.sizeimage <= planeSize
  {
    if planeSize < fmt.sizeimage then PrepareErr(-EINVAL) else PrepareOk(fmt.sizeimage)
  }

  /**
   * A buffer accepted by `camera_queue_setup` with its size given is also
   * accepted by `camera_buf_prepare`, and the size `camera_queue_setup`
   * asks for is always big enough.
   */
  lemma QueueSetupAgreesWithBufPrepare(fmt: PixFormat, nbuffers: u32, nplanes: u32, size0: u32)
    ensures QueueSetup(fmt, nbuffers, nplanes, size0).ret == 0 ==>
              BufPrepare(fmt, QueueSetup(fmt, nbuffers, nplanes, size0).size0)
                == PrepareOk(fmt.sizeimage)
  {
  }

  /** The format set when the video device is created. */
  function DefaultFormat(): (f: PixFormat)
  {
    PixFormat(640, 480, PIX_FMT_MJPEG, FIELD_NONE, 0, 0, COLORSPACE_SRGB)
  }

  /**
   * Until the first VIDIOC_S_FMT the default format has no `sizeimage`
   * (the device is zero-allocated and the default never sets it), so
   * buffer negotiation asks for empty planes and accepts any buffer.
   */
  lemma DefaultFormatHasNoImageSize(nbuffers: u32, planeSize: nat)
    ensures !Negotiated(DefaultFormat())
    ensures QueueSetup(DefaultFormat(), nbuffers, 0, 0).size0 == 0
    ensures BufPrepare(DefaultFormat(), planeSize) == PrepareOk(0)
    ensures TryFmt(DefaultFormat()).sizeimage == 640 * 480
  {
  }

  /** The formats a device can hold: negotiated, or the zero-sized default. */
  predicate Holdable(f: PixFormat)
  {
    Negotiated(f) || f == DefaultFormat()
  }

  /** A format a device can hold never needs more than CAMERA_MAX_FRAME_SIZE bytes per frame. */
  lemma HoldableFitsMaxFrame(f: PixFormat)
    requires Holdable(f)
    ensures f.sizeimage <= MAX_FRAME_SIZE
  {
    if Negotiated(f) {
      SizeBound(f.width, f.height);
    }
  }

  /** Completing each of `bufs`, in order, with `st`. */
  function Completed(bufs: seq<BufId>, st: Vb2BufferState): (r: seq<(BufId, Vb2BufferState)>)
  {
    if bufs == [] then [] else [(bufs[0], st)] + Completed(bufs[1..], st)
  }

  /** Each listed buffer is completed exactly once, in list order, with `st`. */
  lemma {:induction false} CompletedInOrder(bufs: seq<BufId>, st: Vb2BufferState)
    ensures |Completed(bufs, st)| == |bufs|
    ensures forall i :: 0 <= i < |bufs| ==> Completed(bufs, st)[i] == (bufs[i], st)
    decreases |bufs|
  {
    if bufs != [] {
      CompletedInOrder(bufs[1..], st);
    }
  }

  // ---------------------------------------------------------------------
  // The device

  class Device {
    var format: PixFormat
    var state: CameraState
    /** `buf_list`, oldest first. */
    var bufList: seq<BufId>
    var framesReceived: int
    var framesDropped: int
    /** Every `vb2_buffer_done` call, in order. */
    var done: seq<(BufId, Vb2BufferState)>

    ghost predicate Valid()
      reads this
    {
      Holdable(format)
    }

    /** `camera_probe` on success: a connected device with the default format. */
    constructor Probe()
      ensures Valid()
      ensures state == Connected && format == DefaultFormat()
      ensures bufList == [] && done == []
      ensures framesReceived == 0 && framesDropped == 0
    {
      format := DefaultFormat();
      state := Connected;
      bufList := [];
      framesReceived := 0;
      framesDropped := 0;
      done := [];
    }

    /**
     * `camera_s_fmt`: refused with -EBUSY while the queue is busy, leaving
     * both the request and the device alone; otherwise the request is
     * negotiated and becomes the device's format.
     */
    method SetFormat(busy: bool, request: PixFormat) returns (ret: int, reply: PixFormat)
      requires Valid()
      modifies this
      ensures Valid()
      ensures busy ==> ret == -EBUSY && reply == request && format == old(format)
      ensures !busy ==> ret == 0 && reply == TryFmt(request) && format == reply
      ensures reply.sizeimage <= MAX_FRAME_SIZE || busy
      ensures state == old(state) && bufList == old(bufList) && done == old(done)
      ensures framesReceived == old(framesReceived) && framesDropped == old(framesDropped)
    {
      if busy {
        return -EBUSY, request;
      }
      reply := TryFmt(request);
      format := reply;
      ret := 0;
    }

    /**
     * `camera_queue_setup` on this device's format: the plane size it
     * asks for never exceeds CAMERA_MAX_FRAME_SIZE.
     */
    method QueueSetupOn(nbuffers: u32, nplanes: u32, size0: u32) returns (r: QueueSetupResult)
      requires Valid()
      ensures r == QueueSetup(format, nbuffers, nplanes, size0)
      ensures nplanes == 0 ==> r.size0 <= MAX_FRAME_SIZE
      ensures r.ret == 0 ==> BufPrepare(format, r.size0).PrepareOk?
    {
      HoldableFitsMaxFrame(format);
      r := QueueSetup(format, nbuffers, nplanes, size0);
    }

    /** `camera_buf_queue`: the buffer joins the tail of the list. */
    method BufQueue(b: BufId)
      modifies this
      ensures bufList == old(bufList) + [b]
      ensures format == old(format) && state == old(state) && done == old(done)
      ensures framesReceived == old(framesReceived) && framesDropped == old(framesDropped)
    {
      bufList := bufList + [b];
    }

    /**
     * `camera_return_all_buffers`: every listed buffer is unlinked and
     * handed back with `st`, oldest first, leaving the list empty.
     */
    method ReturnAllBuffers(st: Vb2BufferState)
      modifies this
      ensures bufList == []
      ensures done == old(done) + Completed(old(bufList), st)
      ensures format == old(format) && state == old(state)
      ensures framesReceived == old(framesReceived) && framesDropped == old(framesDropped)
    {
      while bufList != []
        invariant done + Completed(bufList, st) == old(done) + Completed(old(bufList), st)
        invariant format == old(format) && state == old(state)
        invariant framesReceived == old(framesReceived) && framesDropped == old(framesDropped)
        decreases |bufList|
      {
        var b := bufList[0];
        var rest := bufList[1..];
        ghost var done0 := done;
        assert Completed(bufList, st) == [(b, st)] + Completed(rest, st);
        bufList := rest;
        done := done + [(b, st)];
        assert done + Completed(rest, st) == done0 + ([(b, st)] + Completed(rest, st));
      }
    }

    /**
     * `camera_start_streaming`. `initResult` stands for what the USB
     * stream set-up returned; on failure that error is passed back and
     * nothing changes.
     */
    method StartStreaming(count: u32, initResult: int) returns (ret: int)
      modifies this
      ensures initResult != 0 ==>
        ret == initResult && state == old(state)
        && framesReceived == old(framesReceived) && framesDropped == old(framesDropped)
      ensures initResult == 0 ==>
        ret == 0 && state == Streaming && framesReceived == 0 && framesDropped == 0
      ensures format == old(format) && bufList == old(bufList) && done == old(done)
    {
      if initResult != 0 {
        return initResult;
      }
      state := Streaming;
      framesReceived := 0;
      framesDropped := 0;
      ret := 0;
    }

    /**
     * `camera_stop_streaming`: every queued buffer goes back as ERROR and
     * the device returns to CONNECTED.
     */
    method StopStreaming()
      modifies this
      ensures state == Connected
      ensures bufList == []
      ensures done == old(done) + Completed(old(bufList), Vb2BufferState.Error)
      ensures format == old(format)
      ensures framesReceived == old(framesReceived) && framesDropped == old(framesDropped)
    {
      ReturnAllBuffers(Vb2BufferState.Error);
      state := Connected;
    }

    /** `camera_disconnect` on a bound device. */
    method Disconnect()
      modifies this
      ensures state == Disconnected
      ensures format == old(format) && bufList == old(bufList) && done == old(done)
      ensures framesReceived == old(framesReceived) && framesDropped == old(framesDropped)
    {
      state := Disconnected;
    }
  }
}
