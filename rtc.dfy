/** The real-time clock driver: conversion of a requested interrupt frequency into the
    MC146818 register-A rate-select value (frequency = 32768 >> (rate - 1)), the
    read-modify-write of register A, and the device's open, close, read and write. */
module Rtc {
  import opened Common

  const MAX_RTC_FREQ: bv32 := 1024
  const RESET_FREQ: bv32 := 2
  const THEORETICAL_MAX_FREQ: bv32 := 32768
  /** The bit pattern of the `int32_t` -1, the error result of `freq_to_rate`. */
  const MINUS_ONE: bv32 := 0xFFFF_FFFF

  /** The periodic-interrupt frequency of rate-select value `rate`, as the 32-bit word
      `THEORETICAL_MAX_FREQ >> (rate - 1)`. */
  function RtcFreq(rate: bv32): bv32
    requires 1 <= rate <= 16
  {
    THEORETICAL_MAX_FREQ >> (rate - 1)
  }

  /** The frequency words the driver accepts: the powers of two from 2 to 1024 Hz. */
  predicate ValidFreq(w: bv32)
  {
    w in {2, 4, 8, 16, 32, 64, 128, 256, 512, 1024}
  }

  /** `a < b` for the `int32_t` values with bit patterns `a` and `b`: flipping the sign
      bit turns two's complement order into unsigned order. */
  predicate SignedLess(a: bv32, b: bv32)
  {
    (a ^ 0x8000_0000) < (b ^ 0x8000_0000)
  }

  /** Signed order agrees with unsigned order on non-negative values, and every negative
      value is below every non-negative one. */
  lemma SignedLessOrder(a: bv32, b: bv32)
    ensures a < 0x8000_0000 && b < 0x8000_0000 ==> (SignedLess(a, b) <==> a < b)
    ensures a >= 0x8000_0000 && b < 0x8000_0000 ==> SignedLess(a, b)
  {
  }

  /** The rate-select value for each accepted frequency, as the MC146818 data sheet
      tabulates it: 15 for 2 Hz down to 6 for 1024 Hz. It is the rate that produces the
      frequency. */
  function RateOf(f: bv32): (r: bv32)
    requires ValidFreq(f)
    ensures 6 <= r <= 15 && RtcFreq(r) == f
  {
    if f == 2 then 15
    else if f == 4 then 14
    else if f == 8 then 13
    else if f == 16 then 12
    else if f == 32 then 11
    else if f == 64 then 10
    else if f == 128 then 9
    else if f == 256 then 8
    else if f == 512 then 7
    else 6
  }

  /** One more step of the rate halves the frequency, so it strictly lowers it. */
  lemma RtcFreqStep(r: bv32)
    requires 1 <= r < 16
    ensures RtcFreq(r + 1) < RtcFreq(r)
  {
  }

  /** The frequency strictly decreases as the rate grows. */
  lemma {:induction false} RtcFreqDecreasing(r: bv32, s: bv32)
    requires 1 <= r < s <= 16
    ensures RtcFreq(s) < RtcFreq(r)
    decreases s - r
  {
    RtcFreqStep(r);
    if r + 1 < s {
      RtcFreqDecreasing(r + 1, s);
    }
  }

  /** Every rate from 6 to 15 gives an accepted frequency that maps back to it. */
  lemma RateOfInverse(r: bv32)
    requires 6 <= r <= 15
    ensures ValidFreq(RtcFreq(r)) && RateOf(RtcFreq(r)) == r
  {
  }

  /** A higher frequency has a strictly lower rate. */
  lemma RateDecreasing(f: bv32, g: bv32)
    requires ValidFreq(f) && ValidFreq(g) && f < g
    ensures RateOf(f) > RateOf(g)
  {
  }

  /** Every rate below a frequency's own gives a higher frequency, so the driver's search
      from rate 1 stops exactly at `RateOf`. */
  lemma RtcFreqAbove(f: bv32, r: bv32)
    requires ValidFreq(f) && 1 <= r < RateOf(f)
    ensures RtcFreq(r) > f
  {
    RtcFreqDecreasing(r, RateOf(f));
  }

  /** On the words from 2 to 1024, `w & (w - 1) == 0` holds exactly at the powers of two. */
  lemma SingleBitWords(w: bv32)
    ensures (w & (w - 1) == 0 && 2 <= w <= 1024) <==> ValidFreq(w)
  {
  }

  /** The driver's two tests together, `freq & (freq - 1)` on the 32-bit value and the
      signed range check `2 <= freq <= 1024`, accept exactly the powers of two from 2 to
      1024. */
  lemma PowerOfTwoTest(w: bv32)
    ensures (w & (w - 1) == 0 && !SignedLess(MAX_RTC_FREQ, w) && !SignedLess(w, RESET_FREQ))
            <==> ValidFreq(w)
  {
    SingleBitWords(w);
  }

  /** `freq_to_rate(freq)`, for the `int32_t` with bit pattern `w`: -1 unless `freq` is a
      power of two from 2 to 1024; otherwise the loop counts `rate` up from 1 until
      `32768 >> (rate - 1)`, compared as unsigned 32-bit words, equals `freq`. */
  method FreqToRate(w: bv32) returns (rate: bv32)
    ensures rate == MINUS_ONE <==> !ValidFreq(w)
    ensures rate != MINUS_ONE ==> rate == RateOf(w)
  {
    PowerOfTwoTest(w);
    if w & (w - 1) != 0 {
      return MINUS_ONE;
    }
    if SignedLess(MAX_RTC_FREQ, w) || SignedLess(w, RESET_FREQ) {
      return MINUS_ONE;
    }
    var r: bv32 := 1;
    while RtcFreq(r) != w
      invariant 1 <= r <= RateOf(w)
      decreases RateOf(w) - r
    {
      if r < RateOf(w) {
        RtcFreqAbove(w, r);
      }
      r := r + 1;
    }
    return r;
  }

  /** Register A with its low nibble (the rate select) replaced by `rate` and its upper
      nibble (divider and update flag) kept. */
  function MergeRate(prev: bv8, rate: bv32): (v: bv8)
    requires rate < 16
    ensures v & 0xF0 == prev & 0xF0
    ensures (v & 0x0F) as bv32 == rate
  {
    (prev & 0xF0) | (rate as bv8)
  }

  /** The 32-bit word stored little-endian in four bytes: byte `k` of the result is `bk`. */
  function WordLE(b0: bv8, b1: bv8, b2: bv8, b3: bv8): (w: bv32)
    ensures w & 0xFF == b0 as bv32 && (w >> 8) & 0xFF == b1 as bv32 &&
            (w >> 16) & 0xFF == b2 as bv32 && w >> 24 == b3 as bv32
  {
    (b0 as bv32) | ((b1 as bv32) << 8) | ((b2 as bv32) << 16) | ((b3 as bv32) << 24)
  }

  class Rtc {
    /** The last value of register A (`inb` of the data port after selecting it). */
    var registerA: bv8
    /** Set by the interrupt handler, consumed by `read`. */
    var interruptFlag: bool

    constructor (a: bv8)
      ensures registerA == a && !interruptFlag
    {
      registerA := a;
      interruptFlag := false;
    }

    /** `set_rtc_freq`, for the `int32_t` with bit pattern `freq`: -1 and no register write for a rejected frequency; otherwise
        register A gets the frequency's rate in its low nibble and keeps its upper one. */
    method SetRtcFreq(freq: bv32) returns (r: int)
      modifies this
      ensures r == -1 <==> !ValidFreq(freq)
      ensures r == -1 ==> registerA == old(registerA)
      ensures r == 0 ==> registerA == MergeRate(old(registerA), RateOf(freq))
      ensures r == -1 || r == 0
      ensures interruptFlag == old(interruptFlag)
    {
      var rate := FreqToRate(freq);
      if rate == MINUS_ONE {
        return -1;
      }
      var prev := registerA;
      registerA := (prev & 0xF0) | (rate as bv8);
      return 0;
    }

    /** `rtc_open`: set 2 Hz, rate 15, and return 0. */
    method Open(filename: Option<seq<byte>>) returns (r: int)
      modifies this
      ensures r == 0
      ensures registerA & 0x0F == 15 && registerA & 0xF0 == old(registerA) & 0xF0
      ensures interruptFlag == old(interruptFlag)
    {
      var ignored := SetRtcFreq(2);
      return 0;
    }

    /** `rtc_close`: nothing to release. */
    method Close() returns (r: int)
      ensures r == 0
    {
      return 0;
    }

    /** `rtc_read`, from the moment the next interrupt has arrived: the flag is consumed
        and 0 returned. */
    method Read() returns (r: int)
      modifies this
      ensures r == 0 && !interruptFlag && registerA == old(registerA)
    {
      interruptFlag := false;
      return 0;
    }

    /** `rtc_write`: -1 for a NULL buffer or a size other than 4; otherwise the buffer
        holds a little-endian `int32_t` frequency and the result is `set_rtc_freq`'s. */
    method Write(buf: array?<bv8>, nbytes: int) returns (r: int)
      requires buf != null && nbytes == 4 ==> buf.Length >= 4
      modifies this
      ensures buf == null || nbytes != 4 ==> r == -1 && registerA == old(registerA)
      ensures buf != null && nbytes == 4 ==>
                var freq := WordLE(buf[0], buf[1], buf[2], buf[3]);
                (r == -1 <==> !ValidFreq(freq)) &&
                (r == -1 ==> registerA == old(registerA)) &&
                (r == 0 ==> registerA == MergeRate(old(registerA), RateOf(freq)))
      ensures interruptFlag == old(interruptFlag)
    {
      if buf == null {
        return -1;
      }
      if nbytes != 4 {
        return -1;
      }
      r := SetRtcFreq(WordLE(buf[0], buf[1], buf[2], buf[3]));
    }
  }
}
