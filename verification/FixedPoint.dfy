/** Conversions of floats to fixed-point integers (app/src/util/binary.h). A float is a real. */
module FixedPoint {
  import opened Common
  import opened Binary

  /** Not just below 1, where the truncated product is 0xFFFF and an assert fails. */
  predicate FitsU16(f: real) {
    0.0 <= f < 65535.0 / 65536.0 || f == 1.0
  }

  predicate FitsI16(f: real) {
    -1.0 <= f < 32767.0 / 32768.0 || f == 1.0
  }

  /** sc_float_to_u16fp(): None when one of its asserts fails. */
  function ToU16(f: real): (r: Option<U16>)
    ensures r.Some? <==> FitsU16(f)
    ensures r.Some? ==> r.value as real / 65536.0 <= f <= (r.value + 1) as real / 65536.0
  {
    if f < 0.0 || f > 1.0 then None
    else
      var u := Truncate(f * 65536.0);
      if u < 0xFFFF then Some(u) else if u == 0x1_0000 then Some(0xFFFF) else None
  }

  /** sc_float_to_i16fp(): None when one of its asserts fails. */
  function ToI16(f: real): (r: Option<I16>)
    ensures r.Some? <==> FitsI16(f)
    ensures r.Some? ==> (r.value - 1) as real / 32768.0 <= f <= (r.value + 1) as real / 32768.0
  {
    if f < -1.0 || f > 1.0 then None
    else
      var i := Truncate(f * 32768.0);
      assert i >= -0x8000;
      if i < 0x7FFF then Some(i) else if i == 0x8000 then Some(0x7FFF) else None
  }

  function Clamp(v: real, lo: real, hi: real): real {
    var v' := if v > lo then v else lo;
    if v' < hi then v' else hi
  }

  /** A scroll amount, normalized from [-16, 16]. */
  function ScrollToI16(scroll: real): Option<I16> {
    ToI16(Clamp(scroll / 16.0, -1.0, 1.0))
  }

  /** Whether the amount, once clamped, is not just below 16. */
  predicate ScrollFits(scroll: real) {
    scroll < 32767.0 / 2048.0 || scroll >= 16.0
  }

  lemma ScrollFitsIff(scroll: real)
    ensures ScrollToI16(scroll).Some? <==> ScrollFits(scroll)
  {
    assert Clamp(scroll / 16.0, -1.0, 1.0) == Clamp(scroll, -16.0, 16.0) / 16.0;
  }

  lemma ScrollError(scroll: real)
    requires ScrollToI16(scroll).Some?
    ensures var s := ScrollToI16(scroll).value as real / 2048.0;
            s - 1.0 / 2048.0 <= Clamp(scroll, -16.0, 16.0) <= s + 1.0 / 2048.0
  {
    assert Clamp(scroll / 16.0, -1.0, 1.0) * 16.0 == Clamp(scroll, -16.0, 16.0);
  }

  /** Half a unit below the top, which a float holds exactly, is enough. */
  lemma AssertFailsExample()
    ensures ToU16(65535.5 / 65536.0) == None
    ensures ScrollToI16(16.0 - 1.0 / 4096.0) == None
  {
    ScrollFitsIff(16.0 - 1.0 / 4096.0);
  }
}
