/** `GpsLagBuffer`: the one-sample delay line on the scaled acceleration vector. */
module GpsLag {
  import opened Vectors
  import opened MathLibrary

  /** What the line hands out for `ra` while holding `buffer`: the held sample, or `ra`
      itself while nothing but (epsilon) zero is held. The line then holds `ra`. */
  function Delayed(buffer: Vec, ra: Vec): Vec {
    if IsZeroVec(buffer) then ra else buffer
  }

  class GpsLagBuffer {
    var raDelayBuffer: Vec

    constructor ()
      ensures raDelayBuffer == ZERO
    {
      raDelayBuffer := ZERO;
    }

    method RaDelayed(ra: Vec) returns (ret: Vec)
      modifies this
      ensures ret == Delayed(old(raDelayBuffer), ra)
      ensures raDelayBuffer == ra
    {
      ret := raDelayBuffer;
      raDelayBuffer := ra;
      if IsZeroVec(ret) {
        ret := ra;
      }
    }
  }
}
