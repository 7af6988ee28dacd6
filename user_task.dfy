/**
 * `example_user_task`: an endless loop with a 200 ms delay per pass and a
 * `uint32_t` pass counter `stimes`. Each of three feeds keeps the pass at
 * which it last fired and fires when the unsigned difference exceeds its
 * threshold: the clock and the IMU when it exceeds 4, the battery when it
 * exceeds 9. The IMU label alternates between acceleration and rotation
 * by an explicit flag; the battery label is only written for a non-zero
 * reading.
 */
module UserTask {
  import opened Wrappers
  import opened Machine
  import opened Decimal
  import opened Effects

  const RTC_THRESHOLD: uint32 := 4
  const IMU_THRESHOLD: uint32 := 4
  const ADC_THRESHOLD: uint32 := 9
  const PASS_DELAY_MS: nat := 200

  /** `RtcDateTime_t` as `i2c_rtc_get` returns it. */
  datatype RtcDateTime = RtcDateTime(year: int, month: int, day: int, hour: int, minute: int, second: int)

  /** What each sensor would return if polled on a given pass. */
  datatype Sample = Sample(rtc: RtcDateTime, imu: ImuSample, vbat: real)

  /** `%02d`: zero-padded to two characters. */
  function Pad2(n: int): (s: string)
    ensures 0 <= n < 100 ==> |s| == 2 && AllDigits(s)
  {
    if 0 <= n < 10 then "0" + NatToString(n)
    else
      assert 0 <= n < 100 ==> |NatToString(n)| <= 2 by {
        if 0 <= n < 100 { assert Pow10(2) == 100; NatToStringLength(n, 2); }
      }
      IntToString(n)
  }

  /** `"rtc : \n%d/%d/%d\n%02d:%02d:%02d"` formatted with size 45. */
  function RtcText(d: RtcDateTime): string
  {
    Snprintf(45, "rtc : \n" + IntToString(d.year) + "/" + IntToString(d.month) + "/" + IntToString(d.day)
                 + "\n" + Pad2(d.hour) + ":" + Pad2(d.minute) + ":" + Pad2(d.second))
  }

  /** A zero-padded field reads back as the number it shows. */
  lemma Pad2RoundTrip(n: int)
    ensures ParseInt(Pad2(n)) == Some(n)
  {
    if 0 <= n < 10 {
      var s := Pad2(n);
      assert s == ['0', Digit(n)];
      assert s[..1] == "0";
      assert DigitsValue(s[..1]) == 0 by {
        assert s[..1][..0] == [];
      }
      assert DigitsValue(s) == n;
    } else {
      IntToStringRoundTrip(n);
    }
  }

  /** For a four-digit year and two-digit fields the clock text is never truncated. */
  lemma RtcTextFits(d: RtcDateTime)
    requires 0 <= d.year < 10000
    requires 0 <= d.month < 100 && 0 <= d.day < 100
    requires 0 <= d.hour < 100 && 0 <= d.minute < 100 && 0 <= d.second < 100
    ensures |RtcText(d)| <= 26
    ensures RtcText(d) == "rtc : \n" + IntToString(d.year) + "/" + IntToString(d.month) + "/" + IntToString(d.day)
                          + "\n" + Pad2(d.hour) + ":" + Pad2(d.minute) + ":" + Pad2(d.second)
  {
    assert Pow10(4) == 10000 && Pow10(2) == 100;
    NatToStringLength(d.year, 4);
    NatToStringLength(d.month, 2);
    NatToStringLength(d.day, 2);
  }

  // ---------------------------------------------------------------------------
  // The schedule, stated on the unbounded pass number k (0 for the first pass).

  /** Whether a feed with period p (threshold p - 1) fires on pass k. */
  predicate DueAt(k: nat, p: nat)
    requires p > 0
  {
    k > 0 && k % p == 0
  }

  /** The pass a feed of period p last fired on before pass k (0, its initial mark, if none). */
  function LastDue(k: nat, p: nat): nat
    requires p > 0
  {
    if k == 0 then 0 else ((k - 1) / p) * p
  }

  /** The IMU text on pass k (a multiple of 5): the m-th firing (from 1) shows acc when m is odd. */
  function ImuText(k: nat, imu: ImuSample): Text
  {
    if (k / 5) % 2 == 1 then AccText(imu) else GyroText(imu)
  }

  /** The clock read and its label on pass k. */
  function RtcPart(k: nat, s: Sample): seq<Effect>
  {
    if DueAt(k, 5) then [RtcGet, SetLabel(ScreenLabel4, Str(RtcText(s.rtc)))] else []
  }

  /** The IMU read and its label on pass k. */
  function ImuPart(k: nat, s: Sample): seq<Effect>
  {
    if DueAt(k, 5) then [ImuGet, SetLabel(ScreenLabel5, ImuText(k, s.imu))] else []
  }

  /** The battery read on pass k, and its label unless the reading is 0. */
  function AdcPart(k: nat, s: Sample): seq<Effect>
  {
    if DueAt(k, 10) then [AdcGet] + (if s.vbat != 0.0 then [SetLabel(ScreenLabel7, VbatText(s.vbat))] else []) else []
  }

  /**
   * The calls made on pass k. The three parts are written out rather than
   * called so that the loop proof unfolds one function, not four;
   * `PassEffectsParts` shows this is the concatenation of the parts.
   */
  function PassEffects(k: nat, s: Sample): seq<Effect>
  {
    (if DueAt(k, 5) then [RtcGet, SetLabel(ScreenLabel4, Str(RtcText(s.rtc)))] else [])
    + (if DueAt(k, 5) then [ImuGet, SetLabel(ScreenLabel5, ImuText(k, s.imu))] else [])
    + (if DueAt(k, 10) then [AdcGet] + (if s.vbat != 0.0 then [SetLabel(ScreenLabel7, VbatText(s.vbat))] else []) else [])
    + [Delay(PASS_DELAY_MS)]
  }

  lemma PassEffectsParts(k: nat, s: Sample)
    ensures PassEffects(k, s) == RtcPart(k, s) + ImuPart(k, s) + AdcPart(k, s) + [Delay(PASS_DELAY_MS)]
  {
  }

  /** The calls made on passes 0 .. |samples| - 1. */
  function Schedule(samples: seq<Sample>): seq<Effect>
    decreases |samples|
  {
    if samples == [] then []
    else Schedule(samples[..|samples| - 1]) + PassEffects(|samples| - 1, samples[|samples| - 1])
  }

  /** The IMU label writes of a trace, in order: true for the acc format, false for gyro. */
  function ImuKinds(trace: seq<Effect>): seq<bool>
    decreases |trace|
  {
    if trace == [] then []
    else
      var e := trace[|trace| - 1];
      ImuKinds(trace[..|trace| - 1]) + (if e.SetLabel? && e.field == ScreenLabel5 then [e.text.AccText?] else [])
  }

  lemma {:induction false} ImuKindsAppend(a: seq<Effect>, b: seq<Effect>)
    ensures ImuKinds(a + b) == ImuKinds(a) + ImuKinds(b)
    decreases |b|
  {
    if b == [] {
      assert a + b == a;
    } else {
      assert (a + b)[..|a + b| - 1] == a + b[..|b| - 1];
      ImuKindsAppend(a, b[..|b| - 1]);
    }
  }

  lemma PassImuKinds(k: nat, s: Sample)
    ensures ImuKinds(PassEffects(k, s)) == if DueAt(k, 5) then [(k / 5) % 2 == 1] else []
  {
    var rtc, imu, adc, tail := RtcPart(k, s), ImuPart(k, s), AdcPart(k, s), [Delay(PASS_DELAY_MS)];
    PassEffectsParts(k, s);
    ImuKindsAppend(rtc + imu + adc, tail);
    ImuKindsAppend(rtc + imu, adc);
    ImuKindsAppend(rtc, imu);
    assert ImuKinds(tail) == [] by { assert tail[..0] == []; }
    assert ImuKinds(adc) == [] by {
      if DueAt(k, 10) {
        if s.vbat != 0.0 {
          assert adc[..1] == [AdcGet] && adc[..1][..0] == [];
        } else {
          assert adc[..0] == [];
        }
      }
    }
    assert ImuKinds(rtc) == [] by {
      if DueAt(k, 5) { assert rtc[..1] == [RtcGet] && rtc[..1][..0] == []; }
    }
    assert ImuKinds(imu) == if DueAt(k, 5) then [(k / 5) % 2 == 1] else [] by {
      if DueAt(k, 5) { assert imu[..1] == [ImuGet] && imu[..1][..0] == []; }
    }
  }

  /** The number of IMU firings on passes 0 .. n - 1. */
  function ImuFirings(n: nat): nat
  {
    if n == 0 then 0 else (n - 1) / 5
  }

  lemma ImuFiringsStep(k: nat)
    ensures DueAt(k, 5) ==> ImuFirings(k + 1) == ImuFirings(k) + 1
    ensures DueAt(k, 5) ==> (ImuFirings(k) % 2 == 0 <==> (k / 5) % 2 == 1)
    ensures !DueAt(k, 5) ==> ImuFirings(k + 1) == ImuFirings(k)
  {
    ImuFlagStep(k);
    if k > 0 {
      var q, r := k / 5, k % 5;
      if r == 0 {
        DivModUnique(k - 1, 5, q - 1, 4);
      } else {
        DivModUnique(k - 1, 5, q, r - 1);
      }
    }
  }

  /** Entry j of ks is true exactly when j is even. */
  predicate Alternating(ks: seq<bool>)
  {
    forall j :: 0 <= j < |ks| ==> ks[j] == (j % 2 == 0)
  }

  lemma AlternatingSnoc(ks: seq<bool>, b: bool)
    requires Alternating(ks) && b == (|ks| % 2 == 0)
    ensures Alternating(ks + [b])
  {
  }

  /**
   * The IMU label alternates strictly, starting with the acc format: the
   * j-th IMU write (from 0) uses acc exactly when j is even, whatever the
   * readings.
   */
  lemma {:induction false} ImuAlternates(samples: seq<Sample>)
    ensures |ImuKinds(Schedule(samples))| == ImuFirings(|samples|)
    ensures Alternating(ImuKinds(Schedule(samples)))
    decreases |samples|
  {
    if samples != [] {
      var k := |samples| - 1;
      var init := samples[..k];
      ImuAlternates(init);
      var before := ImuKinds(Schedule(init));
      var pass := ImuKinds(PassEffects(k, samples[k]));
      assert ImuKinds(Schedule(samples)) == before + pass by {
        assert Schedule(samples) == Schedule(init) + PassEffects(k, samples[k]);
        ImuKindsAppend(Schedule(init), PassEffects(k, samples[k]));
      }
      assert pass == if DueAt(k, 5) then [(k / 5) % 2 == 1] else [] by {
        PassImuKinds(k, samples[k]);
      }
      ImuFiringsStep(k);
      if DueAt(k, 5) {
        AlternatingSnoc(before, (k / 5) % 2 == 1);
      } else {
        assert before + pass == before;
      }
    }
  }

  /** The battery label written on one pass, if any, shows a non-zero reading. */
  predicate BatteryLabelsNonZero(trace: seq<Effect>)
  {
    forall e :: e in trace && e.SetLabel? && e.field == ScreenLabel7 ==> e.text.VbatText? && e.text.volts != 0.0
  }

  lemma PassBatteryLabelsNonZero(k: nat, s: Sample)
    ensures BatteryLabelsNonZero(PassEffects(k, s))
  {
    PassEffectsParts(k, s);
    var rtc, imu, adc := RtcPart(k, s), ImuPart(k, s), AdcPart(k, s);
    assert BatteryLabelsNonZero(rtc) && BatteryLabelsNonZero(imu) && BatteryLabelsNonZero(adc);
    BatteryLabelsAppend(rtc, imu);
    BatteryLabelsAppend(rtc + imu, adc);
    BatteryLabelsAppend(rtc + imu + adc, [Delay(PASS_DELAY_MS)]);
  }

  lemma BatteryLabelsAppend(a: seq<Effect>, b: seq<Effect>)
    requires BatteryLabelsNonZero(a) && BatteryLabelsNonZero(b)
    ensures BatteryLabelsNonZero(a + b)
  {
  }

  /** Every battery label the task writes shows a non-zero reading. */
  lemma {:induction false} BatteryLabelOnlyNonZero(samples: seq<Sample>)
    ensures BatteryLabelsNonZero(Schedule(samples))
    decreases |samples|
  {
    if samples != [] {
      var k := |samples| - 1;
      var init := samples[..k];
      BatteryLabelOnlyNonZero(init);
      PassBatteryLabelsNonZero(k, samples[k]);
      assert Schedule(samples) == Schedule(init) + PassEffects(k, samples[k]);
      BatteryLabelsAppend(Schedule(init), PassEffects(k, samples[k]));
    }
  }

  // ---------------------------------------------------------------------------
  // The firing rule on uint32_t marks.

  /** Subtracting two wrapped values is wrapping their difference. */
  lemma Sub32OfWrapped(a: int, b: int)
    ensures Sub32(Wrap32(a), Wrap32(b)) == Wrap32(a - b)
  {
    var qa, qb := a / TWO_POW_32, b / TWO_POW_32;
    assert a == qa * TWO_POW_32 + Wrap32(a);
    assert b == qb * TWO_POW_32 + Wrap32(b);
    assert Wrap32(a) - Wrap32(b) == (a - b) + (qb - qa) * TWO_POW_32;
    ModShift(a - b, qb - qa);
  }

  /** Quotient and remainder are determined by any decomposition `n == q * p + r` with `0 <= r < p`. */
  lemma DivModUnique(n: int, p: int, q: int, r: int)
    requires p > 0 && 0 <= r < p && n == q * p + r
    ensures n / p == q && n % p == r
  {
    var q', r' := n / p, n % p;
    assert n == q' * p + r';
    if q > q' {
      MulGap(q, q', p);
    } else if q < q' {
      MulGap(q', q, p);
    }
  }

  lemma MulGap(a: int, b: int, p: int)
    requires a > b && p > 0
    ensures a * p - b * p >= p
  {
    MulAtLeast(a - b, p);
    assert (a - b) * p == a * p - b * p;
  }

  lemma MulAtLeast(c: int, p: int)
    requires c >= 1 && p > 0
    ensures c * p >= p
  {
  }

  /**
   * With `stimes` and the mark kept as `uint32_t`, the test
   * `stimes - mark > p - 1` fires exactly on the passes that are positive
   * multiples of p, whatever the number of passes (wrap-around included),
   * provided the mark is the feed's last firing.
   */
  lemma FiringRule(k: nat, p: nat)
    requires 1 <= p <= 10
    ensures Sub32(Wrap32(k), Wrap32(LastDue(k, p))) > p - 1 <==> DueAt(k, p)
  {
    Sub32OfWrapped(k, LastDue(k, p));
    if k > 0 {
      var q, r := (k - 1) / p, (k - 1) % p;
      assert LastDue(k, p) == q * p;
      assert k - LastDue(k, p) == r + 1;
      if r == p - 1 {
        DivModUnique(k, p, q + 1, 0);
      } else {
        DivModUnique(k, p, q, r + 1);
      }
    }
  }

  /** A feed's mark moves to pass k exactly when it fires on pass k. */
  lemma LastDueStep(k: nat, p: nat)
    requires p > 0
    ensures DueAt(k, p) ==> LastDue(k + 1, p) == k
    ensures !DueAt(k, p) ==> LastDue(k + 1, p) == LastDue(k, p)
  {
    if k > 0 {
      var q, r := k / p, k % p;
      assert k == q * p + r;
      if r != 0 {
        DivModUnique(k - 1, p, q, r - 1);
      }
    }
  }

  /** `imu_flag` before pass k: the parity of the number of IMU firings so far. */
  function ImuFlagBefore(k: nat): uint8
  {
    if k == 0 then 0 else ((k - 1) / 5) % 2
  }

  lemma ImuFlagStep(k: nat)
    ensures DueAt(k, 5) ==> ImuFlagBefore(k + 1) == 1 - ImuFlagBefore(k)
    ensures DueAt(k, 5) ==> (ImuFlagBefore(k) == 0 <==> (k / 5) % 2 == 1)
    ensures !DueAt(k, 5) ==> ImuFlagBefore(k + 1) == ImuFlagBefore(k)
  {
    if k > 0 {
      var q, r := k / 5, k % 5;
      assert k == q * 5 + r;
      if r == 0 {
        DivModUnique(k - 1, 5, q - 1, 4);
      } else {
        DivModUnique(k - 1, 5, q, r - 1);
      }
    }
  }

  /** One more pass appends that pass's calls to the schedule. */
  lemma ScheduleStep(samples: seq<Sample>, i: nat, trace: seq<Effect>, effects: seq<Effect>)
    requires i < |samples|
    requires trace == Schedule(samples[..i])
    requires effects + [Delay(PASS_DELAY_MS)] == PassEffects(i, samples[i])
    ensures trace + (effects + [Delay(PASS_DELAY_MS)]) == Schedule(samples[..i + 1])
  {
    assert samples[..i + 1][..i] == samples[..i];
  }

  /** The marks and the IMU flag as they stand before pass k. */
  ghost predicate MarksBefore(k: nat, rtcTime: uint32, qmiTime: uint32, adcTime: uint32, imuFlag: uint8)
  {
    rtcTime == Wrap32(LastDue(k, 5)) && qmiTime == Wrap32(LastDue(k, 5)) &&
    adcTime == Wrap32(LastDue(k, 10)) && imuFlag == ImuFlagBefore(k)
  }

  /**
   * The body of the loop on pass k (without the delay and the increment):
   * each feed whose unsigned distance exceeds its threshold is polled,
   * published and has its mark moved to `stimes`.
   */
  method RunPass(ghost k: nat, stimes: uint32, rtcTime: uint32, qmiTime: uint32, adcTime: uint32, imuFlag: uint8, s: Sample)
    returns (rtcTime': uint32, qmiTime': uint32, adcTime': uint32, imuFlag': uint8, effects: seq<Effect>)
    requires stimes == Wrap32(k)
    requires MarksBefore(k, rtcTime, qmiTime, adcTime, imuFlag)
    ensures MarksBefore(k + 1, rtcTime', qmiTime', adcTime', imuFlag')
    ensures effects + [Delay(PASS_DELAY_MS)] == PassEffects(k, s)
  {
    rtcTime', qmiTime', adcTime', imuFlag' := rtcTime, qmiTime, adcTime, imuFlag;
    var rtcDue := Sub32(stimes, rtcTime) > RTC_THRESHOLD;
    var imuDue := Sub32(stimes, qmiTime) > IMU_THRESHOLD;
    var adcDue := Sub32(stimes, adcTime) > ADC_THRESHOLD;
    assert rtcDue == DueAt(k, 5) && imuDue == DueAt(k, 5) by { FiringRule(k, 5); }
    assert adcDue == DueAt(k, 10) by { FiringRule(k, 10); }
    var rtcPart: seq<Effect> := [];
    if rtcDue {
      rtcTime' := stimes;
      rtcPart := [RtcGet, SetLabel(ScreenLabel4, Str(RtcText(s.rtc)))];
    }
    var imuPart: seq<Effect> := [];
    if imuDue {
      qmiTime' := stimes;
      var text: Text;
      if imuFlag == 0 {
        text := AccText(s.imu);
        imuFlag' := 1;
      } else {
        text := GyroText(s.imu);
        imuFlag' := 0;
      }
      imuPart := [ImuGet, SetLabel(ScreenLabel5, text)];
    }
    var adcPart: seq<Effect> := [];
    if adcDue {
      adcTime' := stimes;
      adcPart := [AdcGet];
      if s.vbat != 0.0 {
        adcPart := adcPart + [SetLabel(ScreenLabel7, VbatText(s.vbat))];
      }
    }
    assert imuFlag' == ImuFlagBefore(k + 1) by { ImuFlagStep(k); }
    assert imuPart == ImuPart(k, s) by { ImuFlagStep(k); }
    assert rtcPart == RtcPart(k, s) && adcPart == AdcPart(k, s);
    PassEffectsParts(k, s);
    assert rtcTime' == Wrap32(LastDue(k + 1, 5)) && qmiTime' == Wrap32(LastDue(k + 1, 5)) by { LastDueStep(k, 5); }
    assert adcTime' == Wrap32(LastDue(k + 1, 10)) by { LastDueStep(k, 10); }
    effects := rtcPart + imuPart + adcPart;
  }

  /**
   * The task's loop, run for `|samples|` passes from `stimes = 0` and all
   * marks 0, with `samples[k]` what the sensors return on pass k.
   */
  method UserTaskLoop(samples: seq<Sample>) returns (trace: seq<Effect>)
    ensures trace == Schedule(samples)
  {
    var stimes: uint32 := 0;
    var rtcTime: uint32 := 0;
    var qmiTime: uint32 := 0;
    var adcTime: uint32 := 0;
    var imuFlag: uint8 := 0;
    trace := [];
    var i := 0;
    while i < |samples|
      invariant 0 <= i <= |samples|
      invariant stimes == Wrap32(i)
      invariant MarksBefore(i, rtcTime, qmiTime, adcTime, imuFlag)
      invariant trace == Schedule(samples[..i])
    {
      var effects;
      rtcTime, qmiTime, adcTime, imuFlag, effects := RunPass(i, stimes, rtcTime, qmiTime, adcTime, imuFlag, samples[i]);
      assert trace + (effects + [Delay(PASS_DELAY_MS)]) == Schedule(samples[..i + 1]) by {
        ScheduleStep(samples, i, trace, effects);
      }
      trace := trace + (effects + [Delay(PASS_DELAY_MS)]);
      assert Wrap32(stimes + 1) == Wrap32(i + 1) by { Wrap32Inc(i); }
      stimes := Wrap32(stimes + 1);
      i := i + 1;
    }
    assert samples[..i] == samples;
  }
}
