/** The irrigation alert rule: three half-open moisture bands. */
module Alerts {

  datatype Color = Red | Orange | Green

  /** The alert shown beside a parcel: a status text and the colour it is drawn in. */
  datatype Alert = Alert(status: string, color: Color)

  const URGENT: Alert := Alert("ACİL SULAMA GEREKLİ", Red)
  const ADVISED: Alert := Alert("Sulama Yapılması Önerilir", Orange)
  const NORMAL: Alert := Alert("Normal Seviyede", Green)

  /**
   * Classifies a soil-moisture percentage. Every value falls in exactly one band;
   * each band is closed below and open above, so 20.0 is orange and 30.0 is green.
   */
  function CheckForAlerts(moisture: real): (a: Alert)
    ensures a.color == Red <==> moisture < 20.0
    ensures a.color == Orange <==> 20.0 <= moisture < 30.0
    ensures a.color == Green <==> 30.0 <= moisture
    ensures a == URGENT || a == ADVISED || a == NORMAL
  {
    if moisture < 20.0 then URGENT
    else if moisture < 30.0 then ADVISED
    else NORMAL
  }

  /** How pressing an alert is: 2 for red, 1 for orange, 0 for green. */
  function Severity(a: Alert): nat
  {
    match a.color
    case Red => 2
    case Orange => 1
    case Green => 0
  }

  /** Drier soil never gets a milder alert: severity is antitone in moisture. */
  lemma AlertMonotone(drier: real, wetter: real)
    requires drier <= wetter
    ensures Severity(CheckForAlerts(wetter)) <= Severity(CheckForAlerts(drier))
  {
  }

  /** The band edges: just below 20 is red, 20 itself orange, up to 10 below 30 orange, 30 itself green. */
  lemma AlertBoundaries(eps: real)
    requires 0.0 < eps <= 10.0
    ensures CheckForAlerts(20.0 - eps).color == Red
    ensures CheckForAlerts(20.0) == ADVISED
    ensures CheckForAlerts(30.0 - eps) == ADVISED
    ensures CheckForAlerts(30.0) == NORMAL
  {
  }
}
