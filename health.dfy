/** The health classifier of setOnline, setValue and updateHealth (public/main.js). */
module HealthClassifier {

  /** The card's health text: its initial placeholder, then one of three verdicts. */
  datatype Health = Loading | Offline | Ok | NotOk

  function HealthText(h: Health): string
  {
    match h
    case Loading => "Loading…"
    case Offline => "OFFLINE"
    case Ok => "Sensor OK"
    case NotOk => "SENSOR NOT OK"
  }

  /** updateHealth: a display value at or above the threshold is OK, below it NOT OK. */
  function Verdict(show: real, threshold: real): (h: Health)
    ensures h == Ok || h == NotOk
    ensures h == Ok <==> show >= threshold
  {
    if show >= threshold then Ok else NotOk
  }

  /** setValue's banner test, `show < threshold`: shown exactly when the verdict is NOT OK. */
  function BannerShown(show: real, threshold: real): (b: bool)
    ensures b <==> Verdict(show, threshold) == NotOk
  {
    show < threshold
  }

  /** The boundary belongs to the OK side; one display unit below it is NOT OK. */
  lemma BoundaryIsOk(threshold: real)
    ensures Verdict(threshold, threshold) == Ok && !BannerShown(threshold, threshold)
    ensures Verdict(threshold - 1.0, threshold) == NotOk && BannerShown(threshold - 1.0, threshold)
  {
  }

  /** The verdict texts are pairwise distinct, so the text alone tells the state. */
  lemma HealthTextInjective(a: Health, b: Health)
    ensures HealthText(a) == HealthText(b) ==> a == b
  {
  }
}
