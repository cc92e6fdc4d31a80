/**
 * Painting a decoded frame onto the canvas and the rolling FPS counter
 * (LiveMode.jsx, lines 183-217).  Decoding (createImageBitmap, or the Image
 * fallback) is a foreign asynchronous call: its outcome is `Some(bitmap)`
 * when either path produced an image and `None` when both failed.  Both
 * paths paint the same way, so the paint step is written once.
 */
module Frames {
  import opened Wrappers

  /** Wall-clock length of one FPS window, in ms. */
  const FpsWindow: nat := 1000

  datatype Bitmap = Bitmap(width: nat, height: nat)

  /** Canvas size, frames painted in the current window, window start, published FPS. */
  datatype FrameState = FrameState(width: nat, height: nat, count: nat, lastTs: nat, fps: nat)

  /** The canvas is resized only when its size differs from the bitmap's. */
  predicate Resizes(s: FrameState, b: Bitmap)
  {
    s.width != b.width || s.height != b.height
  }

  /** The state after a decode attempt completes at time `now`. */
  function Paint(s: FrameState, decoded: Option<Bitmap>, now: nat): (r: FrameState)
    // a failed decode changes nothing, not even the FPS counter
    ensures decoded.None? ==> r == s
    // after a paint the canvas has exactly the bitmap's size
    ensures decoded.Some? ==> r.width == decoded.value.width && r.height == decoded.value.height
    ensures decoded.Some? ==> !Resizes(r, decoded.value)
    // a paint at least one window after the window start publishes the count, this paint included
    ensures decoded.Some? && now - s.lastTs >= FpsWindow ==>
      r.fps == s.count + 1 && r.fps >= 1 && r.count == 0 && r.lastTs == now
    // otherwise it only counts
    ensures decoded.Some? && now - s.lastTs < FpsWindow ==>
      r.fps == s.fps && r.count == s.count + 1 && r.lastTs == s.lastTs
  {
    match decoded
    case None => s
    case Some(b) =>
      var count := s.count + 1;
      if now - s.lastTs >= FpsWindow then
        FrameState(b.width, b.height, 0, now, count)
      else
        FrameState(b.width, b.height, count, s.lastTs, s.fps)
  }

  datatype Frame = Frame(decoded: Option<Bitmap>, at: nat)

  function PaintAll(s: FrameState, fs: seq<Frame>): FrameState
  {
    if fs == [] then s
    else var last := fs[|fs| - 1]; Paint(PaintAll(s, fs[..|fs| - 1]), last.decoded, last.at)
  }

  /** Number of frames whose decode succeeded. */
  function Successes(fs: seq<Frame>): (n: nat)
    ensures n <= |fs|
  {
    if fs == [] then 0
    else Successes(fs[..|fs| - 1]) + (if fs[|fs| - 1].decoded.Some? then 1 else 0)
  }

  /** Within one window the counter grows by exactly the successful paints, and nothing is published. */
  lemma {:induction false} WithinWindow(s: FrameState, fs: seq<Frame>)
    requires forall k :: 0 <= k < |fs| ==> fs[k].at - s.lastTs < FpsWindow
    ensures PaintAll(s, fs).count == s.count + Successes(fs)
    ensures PaintAll(s, fs).lastTs == s.lastTs && PaintAll(s, fs).fps == s.fps
  {
    if fs != [] {
      WithinWindow(s, fs[..|fs| - 1]);
    }
  }

  /**
   * The value published at the end of a window is the number of successful
   * paints since the window opened (the closing paint included); failed
   * decodes are never counted.
   */
  lemma PublishedIsWindowCount(s: FrameState, fs: seq<Frame>, b: Bitmap, now: nat)
    requires s.count == 0
    requires forall k :: 0 <= k < |fs| ==> fs[k].at - s.lastTs < FpsWindow
    requires now - s.lastTs >= FpsWindow
    ensures var r := PaintAll(s, fs + [Frame(Some(b), now)]);
      r.fps == Successes(fs + [Frame(Some(b), now)]) && r.count == 0 && r.lastTs == now
  {
    var all := fs + [Frame(Some(b), now)];
    assert all[..|all| - 1] == fs;
    WithinWindow(s, fs);
  }
}
