/**
 * `example_scan_wifi_ble_task`: a one-shot sequence. It waits up to 30 s
 * for the Wi-Fi scan bit, releases Wi-Fi whatever the wait returned,
 * brings BLE up and starts scanning, counts the devices it dequeues until
 * a receive times out, writes a summary to `screen_label_8`, and tears BLE
 * down.
 */
module ScanTask {
  import opened Wrappers
  import opened Machine
  import opened Decimal
  import opened Effects
  import Radio

  /**
   * The successful receives before the first timeout. The outcomes of
   * `xQueueReceive` are supplied in order; a receive past the supplied ones
   * times out.
   */
  function LeadingReceives(receives: seq<bool>): (n: nat)
    ensures n <= |receives|
    ensures forall j :: 0 <= j < n ==> receives[j]
    ensures n < |receives| ==> !receives[n]
    decreases |receives|
  {
    if receives == [] || !receives[0] then 0 else 1 + LeadingReceives(receives[1..])
  }

  /** The drain's calls: each success then a 20 ms delay, and the final timed-out receive. */
  function Received(n: nat): seq<Effect>
  {
    if n == 0 then [] else Received(n - 1) + [QueueReceive(true), Delay(20)]
  }

  function Drain(receives: seq<bool>): seq<Effect>
  {
    Received(LeadingReceives(receives)) + [QueueReceive(false)]
  }

  /** The summary: `"ble : %d wifi : %d"` or `"ble : %d wifi : P"`, formatted with size 45. */
  function ScanSummary(bleCount: uint8, wifiSeen: bool, apNum: int32): string
  {
    Snprintf(45, "ble : " + NatToString(bleCount) + " wifi : " + (if wifiSeen then IntToString(apNum) else "P"))
  }

  /** The whole trace of the task, for the bits the 30 s wait returned. */
  function ScanTrace(waitBits: EventBits, receives: seq<bool>, apNum: int32): seq<Effect>
  {
    [WifiDeinit, BleScanPrepare, BleStackInit, BleScanStart]
    + Drain(receives)
    + [SetLabel(ScreenLabel8, Str(ScanSummary(LeadingReceives(receives) % 256, ReadBit(waitBits, 1), apNum))),
       BleStackDeinit]
  }

  /**
   * The task body. `waitBits` is what `xEventGroupWaitBits` returned (0 on
   * the timeout), `receives` the outcomes of the successive receives,
   * `apNum` the access-point count the Wi-Fi scan left.
   */
  method ScanWifiBleTask(waitBits: EventBits, receives: seq<bool>, apNum: int32)
    returns (trace: seq<Effect>, bleCount: uint8)
    ensures bleCount == LeadingReceives(receives) % 256
    ensures trace == ScanTrace(waitBits, receives, apNum)
  {
    trace := [WifiDeinit, BleScanPrepare, BleStackInit, BleScanStart];
    ghost var prologue := trace;
    bleCount := 0;
    var i := 0;
    while i < |receives| && receives[i]
      invariant 0 <= i <= LeadingReceives(receives)
      invariant bleCount == i % 256
      invariant trace == prologue + Received(i)
    {
      bleCount := Inc8(bleCount);
      trace := trace + [QueueReceive(true), Delay(20)];
      i := i + 1;
    }
    trace := trace + [QueueReceive(false)];
    var summary := ScanSummary(bleCount, ReadBit(waitBits, 1), apNum);
    trace := trace + [SetLabel(ScreenLabel8, Str(summary)), BleStackDeinit];
  }

  /** The summary never reaches its 44-character limit: at most 28 characters. */
  lemma {:induction false} ScanSummaryNotTruncated(bleCount: uint8, wifiSeen: bool, apNum: int32)
    ensures ScanSummary(bleCount, wifiSeen, apNum) ==
              "ble : " + NatToString(bleCount) + " wifi : " + (if wifiSeen then IntToString(apNum) else "P")
    ensures |ScanSummary(bleCount, wifiSeen, apNum)| <= 28
  {
    assert Pow10(3) == 1000;
    NatToStringLength(bleCount, 3);
    Int32StringLength(apNum);
  }

  /** A summary read back into its two fields; `wifi` is None where the text says `P`. */
  datatype Summary = Summary(ble: nat, wifi: Option<int>)

  function ParseSummary(s: string): Option<Summary>
  {
    if |s| < 6 || s[..6] != "ble : " then None else ParseFields(s[6..])
  }

  /** The part after `"ble : "`: a run of digits, `" wifi : "`, then `P` or a numeral. */
  function ParseFields(rest: string): Option<Summary>
  {
    var n := DigitPrefix(rest);
    if n == 0 || |rest| < n + 8 || rest[n..n + 8] != " wifi : " then None
    else ParseWifi(DigitsValue(rest[..n]), rest[n + 8..])
  }

  function ParseWifi(ble: nat, w: string): Option<Summary>
  {
    if w == "P" then Some(Summary(ble, None))
    else
      match ParseInt(w)
      case None => None
      case Some(ap) => Some(Summary(ble, Some(ap)))
  }

  /**
   * The summary shows the BLE count exactly, and shows the access-point
   * count exactly when bit 1 of the wait result was set and `P` otherwise.
   */
  lemma ScanSummaryRoundTrip(bleCount: uint8, wifiSeen: bool, apNum: int32)
    ensures ParseSummary(ScanSummary(bleCount, wifiSeen, apNum)) ==
              Some(Summary(bleCount, if wifiSeen then Some(apNum) else None))
  {
    ScanSummaryNotTruncated(bleCount, wifiSeen, apNum);
    var w := if wifiSeen then IntToString(apNum) else "P";
    ParseComposed(NatToString(bleCount), w);
    NatToStringRoundTrip(bleCount);
    if wifiSeen {
      IntToStringRoundTrip(apNum);
      assert w != "P" by {
        if apNum < 0 { assert w[0] == '-'; } else { assert IsDigit(w[0]); }
      }
    }
  }

  /** Parsing a text laid out like a summary recovers its digit field and its Wi-Fi field. */
  lemma ParseComposed(d: string, w: string)
    requires 1 <= |d| && AllDigits(d)
    ensures ParseSummary("ble : " + d + " wifi : " + w) == ParseWifi(DigitsValue(d), w)
  {
    var s := "ble : " + d + " wifi : " + w;
    assert s[..6] == "ble : ";
    assert s[6..] == d + (" wifi : " + w);
    ParseFieldsComposed(d, w);
  }

  lemma ParseFieldsComposed(d: string, w: string)
    requires 1 <= |d| && AllDigits(d)
    ensures ParseFields(d + (" wifi : " + w)) == ParseWifi(DigitsValue(d), w)
  {
    var rest := d + (" wifi : " + w);
    DigitPrefixOfDigits(d, " wifi : " + w);
    assert rest[..|d|] == d;
    assert rest[|d|..|d| + 8] == " wifi : ";
    assert rest[|d| + 8..] == w;
  }

  lemma {:induction false} ReceivedKeepsBle(n: nat)
    ensures Radio.Run(Radio.BleUp, Received(n)) == Some(Radio.BleUp)
    decreases n
  {
    if n > 0 {
      ReceivedKeepsBle(n - 1);
      Radio.RunAppend(Radio.BleUp, Received(n - 1), [QueueReceive(true), Delay(20)]);
    }
  }

  /**
   * Started with Wi-Fi up (as `espwifi_init` leaves it), the sequence never
   * misuses a radio: Wi-Fi is released before BLE is brought up, BLE is up
   * for the scan, and both are down at the end. This holds whatever the
   * 30 s wait returned.
   */
  lemma ScanRadioOwnership(waitBits: EventBits, receives: seq<bool>, apNum: int32)
    ensures Radio.Run(Radio.WifiUp, ScanTrace(waitBits, receives, apNum)) == Some(Radio.NoRadio)
  {
    var prologue := [WifiDeinit, BleScanPrepare, BleStackInit, BleScanStart];
    var summary := ScanSummary(LeadingReceives(receives) % 256, ReadBit(waitBits, 1), apNum);
    var epilogue := [SetLabel(ScreenLabel8, Str(summary)), BleStackDeinit];
    assert ScanTrace(waitBits, receives, apNum) == prologue + Drain(receives) + epilogue;
    PrologueBringsBleUp();
    DrainKeepsBle(receives);
    EpilogueReleasesBle(Str(summary));
    Radio.RunAppend(Radio.WifiUp, prologue, Drain(receives));
    Radio.RunAppend(Radio.WifiUp, prologue + Drain(receives), epilogue);
  }

  lemma PrologueBringsBleUp()
    ensures Radio.Run(Radio.WifiUp, [WifiDeinit, BleScanPrepare, BleStackInit, BleScanStart]) == Some(Radio.BleUp)
  {
  }

  lemma DrainKeepsBle(receives: seq<bool>)
    ensures Radio.Run(Radio.BleUp, Drain(receives)) == Some(Radio.BleUp)
  {
    var n := LeadingReceives(receives);
    ReceivedKeepsBle(n);
    Radio.RunAppend(Radio.BleUp, Received(n), [QueueReceive(false)]);
    assert Radio.Run(Radio.BleUp, [QueueReceive(false)]) == Some(Radio.BleUp);
  }

  lemma EpilogueReleasesBle(text: Text)
    ensures Radio.Run(Radio.BleUp, [SetLabel(ScreenLabel8, text), BleStackDeinit]) == Some(Radio.NoRadio)
  {
    var epilogue := [SetLabel(ScreenLabel8, text), BleStackDeinit];
    assert [BleStackDeinit][1..] == [];
    assert Radio.Run(Radio.BleUp, [BleStackDeinit]) == Some(Radio.NoRadio);
    assert epilogue[1..] == [BleStackDeinit];
  }
}
