/** One sensor card of public/main.js: the derived-threshold engine (createCard's state load and
    input/button handlers, recomputeThreshold), the health classifier (setOnline, setValue,
    updateHealth) and the "Last 10" list (renderHistory). localStorage is a string-to-string map. */
module Cards {
  import opened Basics
  import opened JsMath
  import opened Profiles
  import opened ThresholdRule
  import opened HealthClassifier
  import Chart

  /** The browser's localStorage. */
  class LocalStorage {
    var items: map<string, string>

    constructor (items: map<string, string>)
      ensures this.items == items
    {
      this.items := items;
    }
  }

  /** `String(x)` and `Number(s)` between numbers and stored text. */
  datatype Codec = Codec(format: real -> string, parse: string -> Number)

  /** `Number(String(x))` gives back every finite x. */
  ghost predicate RoundTrips(codec: Codec)
  {
    forall x :: codec.parse(codec.format(x)) == Finite(x)
  }

  function BaselineKey(id: string): string { "baseline:" + id }
  function DropKey(id: string): string { "dropPct:" + id }
  function ThresholdKey(id: string): string { "threshold:" + id }

  /** The three key families never collide, and each is one-to-one in the sensor id. */
  lemma {:induction false} KeysDistinct(a: string, b: string)
    ensures BaselineKey(a) != DropKey(b) && BaselineKey(a) != ThresholdKey(b) && DropKey(a) != ThresholdKey(b)
    ensures BaselineKey(a) == BaselineKey(b) ==> a == b
    ensures DropKey(a) == DropKey(b) ==> a == b
    ensures ThresholdKey(a) == ThresholdKey(b) ==> a == b
  {
    assert BaselineKey(a)[0] == 'b' && DropKey(b)[0] == 'd' && ThresholdKey(b)[0] == 't';
    assert DropKey(a)[0] == 'd';
    assert BaselineKey(a)[9..] == a && BaselineKey(b)[9..] == b;
    assert DropKey(a)[8..] == a && DropKey(b)[8..] == b;
    assert ThresholdKey(a)[10..] == a && ThresholdKey(b)[10..] == b;
  }

  /** `Number(localStorage.getItem(key))`: an absent key reads as null, and Number(null) is 0. */
  function StoredNumber(items: map<string, string>, codec: Codec, key: string): (n: Number)
    ensures key !in items ==> n == Finite(0.0)
    ensures key in items ==> n == codec.parse(items[key])
  {
    if key in items then codec.parse(items[key]) else Finite(0.0)
  }

  /** createCard's baseline load: a non-finite number becomes NaN ("not set yet"). */
  function LoadBaseline(items: map<string, string>, codec: Codec, id: string): (b: Number)
    ensures b.Finite? || b.NaN?
  {
    var n := StoredNumber(items, codec, BaselineKey(id));
    if n.Finite? then n else NaN
  }

  /** createCard's drop load: a non-finite number becomes 10. */
  function LoadDrop(items: map<string, string>, codec: Codec, id: string): (d: real)
    ensures DropKey(id) !in items ==> d == 0.0
    ensures DropKey(id) in items && codec.parse(items[DropKey(id)]).Finite? ==> d == codec.parse(items[DropKey(id)]).value
    ensures DropKey(id) in items && !codec.parse(items[DropKey(id)]).Finite? ==> d == 10.0
  {
    var n := StoredNumber(items, codec, DropKey(id));
    if n.Finite? then n.value else 10.0
  }

  /** recomputeThreshold persists the threshold only when it was derived from a finite baseline. */
  function PersistThreshold(items: map<string, string>, codec: Codec, id: string, baseline: Number, threshold: real): (r: map<string, string>)
    ensures baseline.Finite? ==> r.Keys == items.Keys + {ThresholdKey(id)} && r[ThresholdKey(id)] == codec.format(threshold)
    ensures !baseline.Finite? ==> r == items
    ensures forall k | k in items && k != ThresholdKey(id) :: r[k] == items[k]
  {
    if baseline.Finite? then items[ThresholdKey(id) := codec.format(threshold)] else items
  }

  /** What createCard writes to storage for id: the threshold it derives from the baseline and
      drop it loads, when the loaded baseline is finite. */
  function CreateWrites(items: map<string, string>, codec: Codec, id: string): (r: map<string, string>)
    ensures LoadBaseline(items, codec, id).Finite? ==> r.Keys == items.Keys + {ThresholdKey(id)}
    ensures !LoadBaseline(items, codec, id).Finite? ==> r == items
    ensures forall k | k in items && k != ThresholdKey(id) :: r[k] == items[k]
  {
    var b := LoadBaseline(items, codec, id);
    PersistThreshold(items, codec, id, b, if b.Finite? then Round(Lowered(b.value, LoadDrop(items, codec, id))) as real else 0.0)
  }

  /** The card's own persisting of its derived threshold is createCard's write. */
  lemma CreateWritesPersisted(items: map<string, string>, codec: Codec, id: string, c: Config, t: real)
    requires t == ThresholdFor(c, LoadBaseline(items, codec, id), LoadDrop(items, codec, id))
    ensures PersistThreshold(items, codec, id, LoadBaseline(items, codec, id), t) == CreateWrites(items, codec, id)
  {
  }

  /** createCard's write changes what no sensor loads, its own included. */
  lemma {:induction false} CreateKeepsLoads(items: map<string, string>, codec: Codec, id: string, other: string)
    ensures LoadBaseline(CreateWrites(items, codec, id), codec, other) == LoadBaseline(items, codec, other)
    ensures LoadDrop(CreateWrites(items, codec, id), codec, other) == LoadDrop(items, codec, other)
  {
    KeysDistinct(other, id);
  }

  /** With nothing stored, createCard loads baseline 0 and drop 0 (Number(null) is 0, which is
      finite), so whatever the profile, the derived threshold is 0. */
  lemma NothingStoredLoadsZero(items: map<string, string>, codec: Codec, id: string, c: Config)
    requires BaselineKey(id) !in items && DropKey(id) !in items
    ensures LoadBaseline(items, codec, id) == Finite(0.0)
    ensures LoadDrop(items, codec, id) == 0.0
    ensures ThresholdFor(c, LoadBaseline(items, codec, id), LoadDrop(items, codec, id)) == 0.0
  {
    assert Lowered(0.0, 0.0) == 0.0;
  }

  /** As written, a sensor with nothing stored gets threshold 0 and not its profile's default:
      no profile defaults to 0. */
  lemma FreshCardLoadsZero(items: map<string, string>, codec: Codec, id: string, c: Config)
    requires CfgFor(id) == Some(c)
    requires BaselineKey(id) !in items && DropKey(id) !in items
    ensures LoadBaseline(items, codec, id) == Finite(0.0)
    ensures LoadDrop(items, codec, id) == 0.0
    ensures ThresholdFor(c, LoadBaseline(items, codec, id), LoadDrop(items, codec, id)) == 0.0
    ensures ThresholdFor(c, LoadBaseline(items, codec, id), LoadDrop(items, codec, id)) != c.defaultThreshold
  {
    NothingStoredLoadsZero(items, codec, id, c);
    assert c == Photo || c == Current || c == Fallback;
  }

  /** The default-threshold branch is reached exactly when a stored baseline text is not a finite number. */
  lemma LoadedBaselineUnsetIff(items: map<string, string>, codec: Codec, id: string)
    requires CfgFor(id).Some?
    ensures !LoadBaseline(items, codec, id).Finite?
      <==> BaselineKey(id) in items && !codec.parse(items[BaselineKey(id)]).Finite?
    ensures !LoadBaseline(items, codec, id).Finite? ==>
      ThresholdFor(CfgFor(id).value, LoadBaseline(items, codec, id), LoadDrop(items, codec, id)) == CfgFor(id).value.defaultThreshold
  {
  }

  /** Writing one sensor's keys leaves what every other sensor loads unchanged. */
  lemma {:induction false} OtherSensorsUnaffected(items: map<string, string>, codec: Codec, id: string, other: string, key: string, text: string)
    requires other != id && key in {BaselineKey(id), DropKey(id), ThresholdKey(id)}
    ensures LoadBaseline(items[key := text], codec, other) == LoadBaseline(items, codec, other)
    ensures LoadDrop(items[key := text], codec, other) == LoadDrop(items, codec, other)
  {
    KeysDistinct(other, id);
    KeysDistinct(id, other);
  }

  /** What a reload restores after a baseline or drop was stored (the threshold key is never read back). */
  lemma {:induction false} ReloadRestores(items: map<string, string>, codec: Codec, id: string, x: real, thr: real)
    requires RoundTrips(codec)
    ensures LoadBaseline(items[BaselineKey(id) := codec.format(x)], codec, id) == Finite(x)
    ensures LoadDrop(items[DropKey(id) := codec.format(x)], codec, id) == x
    ensures LoadBaseline(items[ThresholdKey(id) := codec.format(thr)], codec, id) == LoadBaseline(items, codec, id)
    ensures LoadDrop(items[ThresholdKey(id) := codec.format(thr)], codec, id) == LoadDrop(items, codec, id)
  {
    KeysDistinct(id, id);
    assert codec.parse(codec.format(x)) == Finite(x);
  }

  // ---------------------------------------------------------------------------------------
  // Baseline from readings

  /** How many readings "Use avg(10)" averages. */
  const AverageWindow: nat := 10

  /** The display values of a run of readings. */
  function Shown(c: Config, pts: seq<Reading>): (r: seq<real>)
    ensures |r| == |pts| && forall i :: 0 <= i < |pts| ==> r[i] == Display(c, pts[i].v)
  {
    seq(|pts|, i requires 0 <= i < |pts| => Display(c, pts[i].v))
  }

  /** `reduce((s, x) => s + x, 0)`, left to right. */
  function Sum(xs: seq<real>): (total: real)
  {
    if xs == [] then 0.0 else Sum(xs[..|xs| - 1]) + xs[|xs| - 1]
  }

  /** The value "Use avg(10)" would store: the rounded mean display value of the last ten
      readings (of all of them when there are fewer), nothing for an empty history. */
  function AverageBaseline(c: Config, hist: seq<Reading>): (r: Option<int>)
    ensures r.None? <==> hist == []
  {
    var window := LastN(hist, AverageWindow);
    if |window| == 0 then None else Some(Round(Mean(Shown(c, window))))
  }

  function Mean(xs: seq<real>): (m: real)
    requires xs != []
  {
    Sum(xs) / |xs| as real
  }

  /** A mean lies within any bounds of its elements. */
  lemma MeanWithin(xs: seq<real>, lo: real, hi: real)
    requires xs != []
    requires forall i :: 0 <= i < |xs| ==> lo <= xs[i] <= hi
    ensures lo <= Mean(xs) <= hi
  {
    SumBounds(xs, lo, hi);
    MeanBetween(Sum(xs), |xs| as real, lo, hi);
  }

  lemma {:induction false} SumBounds(xs: seq<real>, lo: real, hi: real)
    requires forall i :: 0 <= i < |xs| ==> lo <= xs[i] <= hi
    ensures lo * |xs| as real <= Sum(xs) <= hi * |xs| as real
  {
    if xs != [] {
      var init := xs[..|xs| - 1];
      SumBounds(init, lo, hi);
      StepBounds(lo, hi, |init| as real, Sum(init), xs[|xs| - 1]);
    }
  }

  lemma StepBounds(lo: real, hi: real, m: real, sum: real, x: real)
    requires lo * m <= sum <= hi * m && lo <= x <= hi
    ensures lo * (m + 1.0) <= sum + x <= hi * (m + 1.0)
  {
    assert lo * (m + 1.0) == lo * m + lo;
    assert hi * (m + 1.0) == hi * m + hi;
  }

  lemma MeanBetween(sum: real, k: real, lo: real, hi: real)
    requires k > 0.0 && lo * k <= sum <= hi * k
    ensures lo <= sum / k <= hi
  {
    assert sum / k * k == sum;
  }

  /** The averaged baseline lies between the rounded smallest and largest display value of the
      readings, whenever all of them lie in [lo, hi]. */
  lemma {:induction false} AverageWithinReadings(c: Config, hist: seq<Reading>, lo: real, hi: real)
    requires hist != []
    requires forall i :: 0 <= i < |hist| ==> lo <= Display(c, hist[i].v) <= hi
    ensures Round(lo) <= AverageBaseline(c, hist).value <= Round(hi)
  {
    var window := LastN(hist, AverageWindow);
    WindowWithin(c, hist, |hist| - |window|, lo, hi);
    var xs := Shown(c, window);
    MeanWithin(xs, lo, hi);
    RoundMonotone(lo, Mean(xs));
    RoundMonotone(Mean(xs), hi);
  }

  /** The display values of a suffix of the readings keep the bounds of all of them. */
  lemma WindowWithin(c: Config, hist: seq<Reading>, k: nat, lo: real, hi: real)
    requires k <= |hist|
    requires forall i :: 0 <= i < |hist| ==> lo <= Display(c, hist[i].v) <= hi
    ensures forall i :: 0 <= i < |hist| - k ==> lo <= Shown(c, hist[k..])[i] <= hi
  {
    forall i | 0 <= i < |hist| - k
      ensures lo <= Shown(c, hist[k..])[i] <= hi
    {
      assert hist[k..][i] == hist[k + i];
    }
  }

  /** Readings older than the last ten do not affect the average. */
  lemma {:induction false} AverageIgnoresOlderReadings(c: Config, older: seq<Reading>, recent: seq<Reading>)
    requires |recent| >= AverageWindow
    ensures AverageBaseline(c, older + recent) == AverageBaseline(c, recent)
  {
    var all := older + recent;
    assert LastN(all, AverageWindow) == LastN(recent, AverageWindow);
  }

  /** The value "Use current" would store: the rounded live display value when one is shown,
      else the rounded display value of the last history point, else nothing. */
  function CurrentBaseline(c: Config, shown: Option<real>, hist: seq<Reading>): (r: Option<int>)
    ensures r.None? <==> shown.None? && hist == []
  {
    if shown.Some? then Some(Round(shown.value))
    else if |hist| > 0 then Some(Round(Display(c, hist[|hist| - 1].v)))
    else None
  }

  // ---------------------------------------------------------------------------------------
  // The history list

  /** One line of the "Last 10" list: a reading's time and its display value. */
  datatype ListItem = ListItem(t: int, show: real)

  /** What renderHistory lists for a history: every reading, newest first. */
  function HistoryItems(c: Config, arr: seq<Reading>): (items: seq<ListItem>)
  {
    if arr == [] then [] else HistoryItems(c, arr[1..]) + [ListItem(arr[0].t, Display(c, arr[0].v))]
  }

  /** The list has one line per reading, the k-th line showing the k-th newest reading. */
  lemma {:induction false} HistoryItemsAt(c: Config, arr: seq<Reading>, k: nat)
    ensures |HistoryItems(c, arr)| == |arr|
    ensures k < |arr| ==> HistoryItems(c, arr)[k] == ListItem(arr[|arr| - 1 - k].t, Display(c, arr[|arr| - 1 - k].v))
  {
    if arr != [] {
      HistoryItemsAt(c, arr[1..], k);
    }
  }

  // ---------------------------------------------------------------------------------------
  // The card

  /** The card's user-visible state apart from the threshold engine. */
  datatype View = View(
    online: bool,             // status badge
    health: Health,           // health text
    banner: bool,             // "Threshold reached!" banner visible
    shown: Option<real>,      // live value text, as the number it shows
    updated: Option<int>,     // time of the shown reading
    listed: seq<ListItem>)    // the history list

  /** The DOM elements of a card that setOnline, setValue, updateHealth and renderHistory write. */
  class CardView {
    var online: bool
    var health: Health
    var banner: bool
    var shown: Option<real>
    var updated: Option<int>
    var listed: seq<ListItem>

    /** As createCard's markup starts: offline, "Loading…", no banner, no value, empty list. */
    constructor ()
      ensures online == false && health == Loading && banner == false
      ensures shown == None && updated == None && listed == []
    {
      online := false;
      health := Loading;
      banner := false;
      shown := None;
      updated := None;
      listed := [];
    }
  }

  /** A card: the per-sensor entry createCard builds, with the state its handlers mutate. */
  class Card {
    const id: string
    const config: Config
    const storage: LocalStorage
    const codec: Codec
    const canvas: Chart.Canvas
    const view: CardView

    var baseline: Number       // display units; NaN while not set
    var dropPct: real          // allowed drop, %
    var threshold: real        // derived, display units
    var thresholdShown: real   // the read-only threshold input

    /** The stored keys reproduce the baseline and drop this card holds. */
    ghost predicate Persisted()
      reads this, storage
    {
      && RoundTrips(codec)
      && CfgFor(id) == Some(config)
      && LoadBaseline(storage.items, codec, id) == baseline
      && LoadDrop(storage.items, codec, id) == dropPct
    }

    /** The card invariant: persisted inputs, and a threshold that is never stale. */
    ghost predicate Valid()
      reads this, storage
    {
      && Persisted()
      && threshold == ThresholdFor(config, baseline, dropPct)
      && thresholdShown == threshold
    }

    function ViewState(): View
      reads view
    {
      View(view.online, view.health, view.banner, view.shown, view.updated, view.listed)
    }

    /** The canvas shows this card's threshold over the history hist. */
    ghost predicate Drawn(hist: seq<Reading>)
      reads this, canvas
    {
      && WellFormed(config)
      && canvas.shows == Some(Chart.Picture(config, threshold, hist))
      && canvas.Consistent()
    }

    /** createCard: look up the configuration, load baseline and drop from storage, compute the
        threshold once and draw the chart. */
    constructor (sensorId: string, store: LocalStorage, numberText: Codec,
                 clientWidth: nat, clientHeight: nat, dpr: Chart.Ratio, hist: seq<Reading>)
      requires RoundTrips(numberText) && CfgFor(sensorId).Some?
      modifies store
      ensures Valid() && Drawn(hist)
      ensures id == sensorId && storage == store && codec == numberText && fresh(canvas) && fresh(view)
      ensures baseline == LoadBaseline(old(store.items), numberText, sensorId)
      ensures dropPct == LoadDrop(old(store.items), numberText, sensorId)
      ensures store.items == PersistThreshold(old(store.items), numberText, sensorId, baseline, threshold)
      ensures ViewState() == View(false, Loading, false, None, None, [])
      ensures canvas.clientWidth == clientWidth && canvas.clientHeight == clientHeight && canvas.devicePixelRatio == dpr
    {
      id := sensorId;
      config := CfgFor(sensorId).value;
      storage := store;
      codec := numberText;
      canvas := new Chart.Canvas(clientWidth, clientHeight, dpr);
      baseline := LoadBaseline(store.items, numberText, sensorId);
      dropPct := LoadDrop(store.items, numberText, sensorId);
      threshold := CfgFor(sensorId).value.defaultThreshold;
      thresholdShown := 0.0;
      view := new CardView();
      new;
      RecomputeThreshold(hist);
    }

    /** recomputeThreshold: derive the threshold from baseline and drop (or fall back to the
        default), show it, persist it when derived, and redraw. */
    method RecomputeThreshold(hist: seq<Reading>)
      requires Persisted()
      modifies this`threshold, this`thresholdShown, storage, canvas
      ensures Valid() && Drawn(hist)
      ensures storage.items == PersistThreshold(old(storage.items), codec, id, baseline, threshold)
      ensures canvas.clientWidth == old(canvas.clientWidth) && canvas.clientHeight == old(canvas.clientHeight)
      ensures canvas.devicePixelRatio == old(canvas.devicePixelRatio)
    {
      if baseline.Finite? {
        var thr := Round(Lowered(baseline.value, dropPct)) as real;
        threshold := thr;
        thresholdShown := thr;
        storage.items := storage.items[ThresholdKey(id) := codec.format(thr)];
        ReloadRestores(old(storage.items), codec, id, 0.0, thr);
      } else {
        threshold := config.defaultThreshold;
        thresholdShown := threshold;
      }
      DrawChart(hist);
    }

    /** The baseline input: a non-finite number is ignored; a finite one is stored verbatim,
        persisted, and the threshold recomputed. */
    method OnBaselineInput(n: Number, hist: seq<Reading>)
      requires Valid()
      modifies this`baseline, this`threshold, this`thresholdShown, storage, canvas
      ensures Valid()
      ensures !n.Finite? ==> unchanged(this, storage, canvas)
      ensures n.Finite? ==> baseline == n && Drawn(hist)
      ensures n.Finite? ==>
        storage.items == PersistThreshold(old(storage.items)[BaselineKey(id) := codec.format(n.value)], codec, id, baseline, threshold)
    {
      if n.Finite? {
        baseline := n;
        storage.items := storage.items[BaselineKey(id) := codec.format(n.value)];
        ReloadRestores(old(storage.items), codec, id, n.value, 0.0);
        KeysDistinct(id, id);
        RecomputeThreshold(hist);
      }
    }

    /** The drop-% input: a non-finite number is ignored; a finite one is clamped to [0, 100],
        persisted, and the threshold recomputed. */
    method OnDropInput(n: Number, hist: seq<Reading>)
      requires Valid()
      modifies this`dropPct, this`threshold, this`thresholdShown, storage, canvas
      ensures Valid()
      ensures !n.Finite? ==> unchanged(this, storage, canvas)
      ensures n.Finite? ==> dropPct == ClampPercent(n.value) && Drawn(hist)
      ensures n.Finite? ==>
        storage.items == PersistThreshold(old(storage.items)[DropKey(id) := codec.format(dropPct)], codec, id, baseline, threshold)
    {
      if !n.Finite? {
        return;
      }
      var p := Max(0.0, Min(100.0, n.value));
      dropPct := p;
      storage.items := storage.items[DropKey(id) := codec.format(p)];
      ReloadRestores(old(storage.items), codec, id, p, 0.0);
      KeysDistinct(id, id);
      RecomputeThreshold(hist);
    }

    /** "Use current": the live value shown on the card if there is one, else the display value
        of the last history point, rounded to a whole unit, becomes the baseline; with neither,
        nothing happens. */
    method OnUseCurrent(hist: seq<Reading>)
      requires Valid()
      modifies this`baseline, this`threshold, this`thresholdShown, storage, canvas
      ensures Valid()
      ensures CurrentBaseline(config, view.shown, hist).None? ==> unchanged(this, storage, canvas)
      ensures CurrentBaseline(config, view.shown, hist).Some? ==>
        && baseline == Finite(CurrentBaseline(config, view.shown, hist).value as real)
        && storage.items == PersistThreshold(old(storage.items)[BaselineKey(id) := codec.format(baseline.value)], codec, id, baseline, threshold)
        && Drawn(hist)
    {
      var disp: Option<real> := None;
      if |hist| > 0 {
        disp := Some(Display(config, hist[|hist| - 1].v));
      }
      if view.shown.Some? {
        disp := Some(view.shown.value);
      }
      if disp.Some? {
        baseline := Finite(Round(disp.value) as real);
        storage.items := storage.items[BaselineKey(id) := codec.format(baseline.value)];
        ReloadRestores(old(storage.items), codec, id, baseline.value, 0.0);
        KeysDistinct(id, id);
        RecomputeThreshold(hist);
      }
    }

    /** "Use avg(10)": the rounded mean display value of the last ten readings (fewer if the
        history is shorter) becomes the baseline; with no history, nothing happens. */
    method OnUseAverage(hist: seq<Reading>)
      requires Valid()
      modifies this`baseline, this`threshold, this`thresholdShown, storage, canvas
      ensures Valid()
      ensures hist == [] ==> unchanged(this, storage, canvas)
      ensures hist != [] ==>
        && baseline == Finite(AverageBaseline(config, hist).value as real)
        && storage.items == PersistThreshold(old(storage.items)[BaselineKey(id) := codec.format(baseline.value)], codec, id, baseline, threshold)
        && Drawn(hist)
    {
      var last10 := LastN(hist, AverageWindow);
      if |last10| > 0 {
        var avg := Round(Mean(Shown(config, last10)));
        baseline := Finite(avg as real);
        storage.items := storage.items[BaselineKey(id) := codec.format(avg as real)];
        ReloadRestores(old(storage.items), codec, id, avg as real, 0.0);
        KeysDistinct(id, id);
        RecomputeThreshold(hist);
      }
    }

    /** drawChart(cardEls, hist): redraw this card's canvas for its threshold and hist. */
    method DrawChart(hist: seq<Reading>)
      requires WellFormed(config)
      modifies canvas
      ensures Drawn(hist)
      ensures canvas.clientWidth == old(canvas.clientWidth) && canvas.clientHeight == old(canvas.clientHeight)
      ensures canvas.devicePixelRatio == old(canvas.devicePixelRatio)
    {
      Chart.DrawChart(canvas, config, threshold, hist);
    }

    /** The window resize listener: the canvas's CSS box or pixel ratio changed; redraw. */
    method OnResize(clientWidth: nat, clientHeight: nat, dpr: Chart.Ratio, hist: seq<Reading>)
      requires Valid()
      modifies canvas
      ensures Drawn(hist)
      ensures canvas.clientWidth == clientWidth && canvas.clientHeight == clientHeight && canvas.devicePixelRatio == dpr
    {
      canvas.clientWidth := clientWidth;
      canvas.clientHeight := clientHeight;
      canvas.devicePixelRatio := dpr;
      DrawChart(hist);
    }

    /** setOnline: the badge follows the flag; going offline sets the health text to OFFLINE
        whatever the last reading was. The banner is left as it was. */
    method SetOnline(isOnline: bool)
      modifies view`online, view`health
      ensures view.online == isOnline
      ensures !isOnline ==> view.health == Offline
      ensures isOnline ==> view.health == old(view.health)
    {
      view.online := isOnline;
      if !isOnline {
        view.health := Offline;
      }
    }

    /** setValue: show the reading in display units, show the banner exactly when it is below
        the threshold, and update the health verdict. */
    method SetValue(entry: Reading)
      requires Valid()
      modifies view`shown, view`updated, view`banner, view`health
      ensures view.shown == Some(Display(config, entry.v)) && view.updated == Some(entry.t)
      ensures view.banner <==> Display(config, entry.v) < threshold
      ensures view.health == Ok <==> Display(config, entry.v) >= threshold
      ensures view.health == Ok || view.health == NotOk
      ensures view.banner <==> view.health == NotOk
      ensures view.health == Verdict(Display(config, entry.v), threshold)
      ensures view.banner == BannerShown(Display(config, entry.v), threshold)
    {
      var show := Display(config, entry.v);
      view.shown := Some(show);
      view.updated := Some(entry.t);
      view.banner := show < threshold;
      UpdateHealth(show);
    }

    /** updateHealth: OK at or above the threshold, NOT OK below it. */
    method UpdateHealth(displayVal: real)
      modifies view`health
      ensures view.health == Verdict(displayVal, threshold)
    {
      if displayVal >= threshold {
        view.health := Ok;
      } else {
        view.health := NotOk;
      }
    }

    /** renderHistory: list every reading, newest first, in display units. */
    method RenderHistory(arr: seq<Reading>)
      modifies view`listed
      ensures view.listed == HistoryItems(config, arr)
    {
      var items: seq<ListItem> := [];
      var i := |arr| - 1;
      while i >= 0
        invariant -1 <= i < |arr|
        invariant items == HistoryItems(config, arr[i + 1..])
      {
        assert arr[i..][1..] == arr[i + 1..];
        items := items + [ListItem(arr[i].t, Display(config, arr[i].v))];
        i := i - 1;
      }
      assert arr[0..] == arr;
      view.listed := items;
    }
  }
}
