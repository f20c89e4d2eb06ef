/** The latest-frame buffer (app/src/frame_buffer.c). A frame is identified by a number. */
module FrameBuffer {
  import opened Common

  type Frame = nat

  class FrameBuffer {
    var pendingFrame: Option<Frame>
    var tmpFrame: Option<Frame>
    var pendingFrameConsumed: bool

    ghost predicate Valid()
      reads this
    {
      (pendingFrameConsumed || pendingFrame.Some?) && tmpFrame.None?
    }

    /** The frame waiting to be consumed. */
    ghost function Pending(): Option<Frame>
      reads this
    {
      if pendingFrameConsumed then None else pendingFrame
    }

    constructor ()
      ensures Valid() && Pending() == None
    {
      pendingFrame, tmpFrame, pendingFrameConsumed := None, None, true;
    }

    method HasFrame() returns (has: bool)
      requires Valid()
      ensures has <==> Pending().Some?
    {
      has := !pendingFrameConsumed;
    }

    /** refOk: a reference to the frame could be taken. On failure the pending frame is preserved. */
    method Push(frame: Frame, refOk: bool) returns (ok: bool)
      requires Valid()
      modifies this
      ensures Valid() && ok == refOk
      ensures Pending() == if refOk then Some(frame) else old(Pending())
    {
      if !refOk {
        return false;
      }
      tmpFrame := Some(frame);
      pendingFrame, tmpFrame := tmpFrame, pendingFrame;
      tmpFrame := None;
      pendingFrameConsumed := false;
      ok := true;
    }

    method Consume() returns (dst: Frame)
      requires Valid() && Pending().Some?
      modifies this
      ensures Valid() && Some(dst) == old(Pending()) && Pending() == None
    {
      pendingFrameConsumed := true;
      dst := pendingFrame.value;
      pendingFrame := None;
    }
  }
}
