/**
 * Radio ownership. The firmware never names this state; it keeps at most
 * one radio stack up by the order of its calls. Here the state is explicit
 * and every radio call is a guarded transition, so a trace that brings BLE
 * up while Wi-Fi still holds the antenna (or releases a stack that is not
 * up) has no run at all.
 */
module Radio {
  import opened Wrappers
  import opened Effects

  datatype Owner = WifiUp | BleUp | NoRadio

  /** The owner after one effect, or None if the effect is a misuse in that state. */
  function Next(r: Owner, e: Effect): Option<Owner>
  {
    match e
    case WifiDeinit => if r == WifiUp then Some(NoRadio) else None
    case BleStackInit => if r == NoRadio then Some(BleUp) else None
    case BleScanStart => if r == BleUp then Some(BleUp) else None
    case BleStackDeinit => if r == BleUp then Some(NoRadio) else None
    case _ => Some(r)
  }

  /** Runs a whole trace; None as soon as one effect is a misuse. */
  function Run(r: Owner, trace: seq<Effect>): Option<Owner>
    decreases |trace|
  {
    if trace == [] then Some(r)
    else
      match Next(r, trace[0])
      case None => None
      case Some(r') => Run(r', trace[1..])
  }

  lemma {:induction false} RunAppend(r: Owner, t1: seq<Effect>, t2: seq<Effect>)
    ensures Run(r, t1 + t2) == match Run(r, t1) case None => None case Some(r') => Run(r', t2)
    decreases |t1|
  {
    if t1 == [] {
      assert t1 + t2 == t2;
    } else {
      assert (t1 + t2)[0] == t1[0];
      assert (t1 + t2)[1..] == t1[1..] + t2;
      match Next(r, t1[0]) {
        case None =>
        case Some(r') => RunAppend(r', t1[1..], t2);
      }
    }
  }
}
