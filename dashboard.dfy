/** The page-level state of public/main.js (the `cards` and `histories` maps) and one cycle of
    its polling loop, refresh(). The three fetches are parameters: a fetch that fails (network
    error or bad JSON) is `None`, or, for the per-sensor history fetch, an id missing from the map. */
module Dashboard {
  import opened Basics
  import opened JsMath
  import opened Profiles
  import opened HealthClassifier
  import opened Cards
  import Chart

  /** One entry of `/api/sensors`. */
  datatype SensorInfo = SensorInfo(id: string, name: string)

  function Ids(sensors: seq<SensorInfo>): (ids: seq<string>)
    ensures |ids| == |sensors| && forall i :: 0 <= i < |sensors| ==> ids[i] == sensors[i].id
  {
    seq(|sensors|, i requires 0 <= i < |sensors| => sensors[i].id)
  }

  /** The ids of a list of sensors, as a set. */
  function IdSet(sensors: seq<SensorInfo>): (ids: set<string>)
    ensures forall i | 0 <= i < |sensors| :: sensors[i].id in ids
    decreases |sensors|
  {
    if sensors == [] then {} else IdSet(sensors[..|sensors| - 1]) + {sensors[|sensors| - 1].id}
  }

  /** An id is in the set exactly when some listed sensor has it. */
  lemma {:induction false} IdSetListed(sensors: seq<SensorInfo>, id: string)
    ensures id in IdSet(sensors) <==> id in Ids(sensors)
    decreases |sensors|
  {
    if sensors != [] {
      var n := |sensors| - 1;
      IdSetListed(sensors[..n], id);
      assert Ids(sensors) == Ids(sensors[..n]) + [sensors[n].id];
    }
  }

  /** The first i + 1 elements are the first i and then element i. */
  lemma PrefixGrows<T>(s: seq<T>, i: nat)
    requires i < |s|
    ensures s[..i + 1] == s[..i] + [s[i]]
  {
  }

  /** Handling one more sensor adds its id. */
  lemma IdSetGrows(sensors: seq<SensorInfo>, i: nat)
    requires i < |sensors|
    ensures IdSet(sensors[..i + 1]) == IdSet(sensors[..i]) + {sensors[i].id}
  {
    assert sensors[..i + 1][..i] == sensors[..i];
  }

  /** `histories.get(id) || []`. */
  function Get(h: map<string, seq<Reading>>, id: string): (hist: seq<Reading>)
  {
    if id in h then h[id] else []
  }

  /** What setOnline and setValue make of a card's view when `/api/live` answered `live`:
      a sensor with a live reading is online and shows it; one without is offline and keeps
      the value, the time and the banner it showed before. */
  function AfterLive(v: View, c: Config, thr: real, id: string, live: map<string, Reading>): (w: View)
    ensures w.online <==> id in live
    ensures id in live ==> w.shown == Some(Display(c, live[id].v)) && w.updated == Some(live[id].t)
    ensures id in live ==> (w.health == Ok <==> Display(c, live[id].v) >= thr) && (w.banner <==> w.health == NotOk)
    ensures id !in live ==> w.health == Offline && w.banner == v.banner && w.shown == v.shown && w.updated == v.updated
    ensures w.listed == v.listed
  {
    if id in live then
      var show := Display(c, live[id].v);
      v.(online := true, shown := Some(show), updated := Some(live[id].t),
         banner := BannerShown(show, thr), health := Verdict(show, thr))
    else
      v.(online := false, health := Offline)
  }

  /** setOnline and, when the sensor is in the live answer, setValue on one card. */
  method LiveOn(c: Card, id: string, live: map<string, Reading>)
    requires c.Valid()
    modifies c.view
    ensures c.ViewState() == AfterLive(old(c.ViewState()), c.config, c.threshold, id, live)
  {
    c.SetOnline(id in live);
    if id in live {
      c.SetValue(live[id]);
    }
  }

  /** A card's view after its sensor was handled completely in a cycle. */
  function AfterCycle(v: View, c: Config, thr: real, id: string, live: map<string, Reading>, hist: seq<Reading>): (w: View)
    ensures w.listed == HistoryItems(c, hist)
    ensures w.(listed := v.listed) == AfterLive(v, c, thr, id, live)
  {
    AfterLive(v, c, thr, id, live).(listed := HistoryItems(c, hist))
  }

  /** Handling the same sensor twice in one cycle (a repeated id in `/api/sensors`) changes nothing. */
  lemma AfterCycleIdempotent(v: View, c: Config, thr: real, id: string, live: map<string, Reading>, hist: seq<Reading>)
    ensures AfterCycle(AfterCycle(v, c, thr, id, live, hist), c, thr, id, live, hist) == AfterCycle(v, c, thr, id, live, hist)
  {
  }

  /** How many sensors a cycle handles completely: it stops at the first one whose history
      fetch fails, or that has no card (drawChart of a missing card throws). */
  function Stop(ids: seq<string>, fetched: map<string, seq<Reading>>, carded: set<string>): (k: nat)
    ensures k <= |ids|
    ensures forall j :: 0 <= j < k ==> ids[j] in fetched && ids[j] in carded
    ensures k < |ids| ==> ids[k] !in fetched || ids[k] !in carded
  {
    if ids == [] || ids[0] !in fetched || ids[0] !in carded then 0
    else 1 + Stop(ids[1..], fetched, carded)
  }

  /** The cycle stops at the first sensor that is not fetched and carded. */
  lemma StopsAt(ids: seq<string>, i: nat, fetched: map<string, seq<Reading>>, carded: set<string>)
    requires i <= |ids|
    requires forall j :: 0 <= j < i ==> ids[j] in fetched && ids[j] in carded
    requires i < |ids| ==> ids[i] !in fetched || ids[i] !in carded
    ensures Stop(ids, fetched, carded) == i
  {
  }

  /** h with the fetched history of every id in ids put in, in the order of ids. */
  function Overlay(h: map<string, seq<Reading>>, ids: seq<string>, fetched: map<string, seq<Reading>>): (r: map<string, seq<Reading>>)
    ensures h.Keys <= r.Keys <= h.Keys + fetched.Keys
    decreases |ids|
  {
    if ids == [] then h
    else
      var rest := Overlay(h, ids[..|ids| - 1], fetched);
      var x := ids[|ids| - 1];
      if x in fetched then rest[x := fetched[x]] else rest
  }

  /** What Overlay holds for one id: the fetched history when the id is listed and was fetched,
      otherwise what h held. */
  lemma {:induction false} OverlayAt(h: map<string, seq<Reading>>, ids: seq<string>, fetched: map<string, seq<Reading>>, id: string)
    ensures id in Overlay(h, ids, fetched) <==> id in h || (id in ids && id in fetched)
    ensures id in ids && id in fetched ==> Overlay(h, ids, fetched)[id] == fetched[id]
    ensures (id !in ids || id !in fetched) && id in h ==> Overlay(h, ids, fetched)[id] == h[id]
    decreases |ids|
  {
    if ids != [] {
      var init := ids[..|ids| - 1];
      OverlayAt(h, init, fetched, id);
      assert ids == init + [ids[|ids| - 1]];
      assert id in ids <==> id in init || id == ids[|ids| - 1];
    }
  }

  /** `histories` after a cycle: every completely handled sensor, and the one the cycle stopped at
      if its history fetch succeeded, holds the fetched history. A cycle never forgets a
      history, and only adds ones it fetched. */
  function HistoriesAfter(h: map<string, seq<Reading>>, ids: seq<string>, fetched: map<string, seq<Reading>>, carded: set<string>): (r: map<string, seq<Reading>>)
    ensures h.Keys <= r.Keys <= h.Keys + fetched.Keys
  {
    var k := Stop(ids, fetched, carded);
    var done := Overlay(h, ids[..k], fetched);
    if k < |ids| && ids[k] in fetched then done[ids[k] := fetched[ids[k]]] else done
  }

  /** Putting in one more fetched history. */
  lemma OverlayGrows(h: map<string, seq<Reading>>, ids: seq<string>, i: nat, fetched: map<string, seq<Reading>>)
    requires i < |ids| && ids[i] in fetched
    ensures Overlay(h, ids[..i + 1], fetched) == Overlay(h, ids[..i], fetched)[ids[i] := fetched[ids[i]]]
  {
    assert ids[..i + 1][..i] == ids[..i];
  }

  /** The sensor a cycle stopped at had its history stored: it was fetched, but has no card. */
  predicate StoredAtStop(ids: seq<string>, fetched: map<string, seq<Reading>>, carded: set<string>, id: string)
  {
    var k := Stop(ids, fetched, carded);
    k < |ids| && ids[k] == id && id in fetched
  }

  /** A sensor the cycle handled completely, or stopped at after storing its history, holds
      exactly what was fetched; every other sensor (its fetch failed, the cycle never reached
      it, or it is not listed) keeps the history it had. */
  lemma {:induction false} HistoriesAfterAt(h: map<string, seq<Reading>>, ids: seq<string>, fetched: map<string, seq<Reading>>, carded: set<string>, id: string)
    ensures id in ids[..Stop(ids, fetched, carded)] || StoredAtStop(ids, fetched, carded, id) ==>
      id in HistoriesAfter(h, ids, fetched, carded) && HistoriesAfter(h, ids, fetched, carded)[id] == fetched[id]
    ensures id !in ids[..Stop(ids, fetched, carded)] && !StoredAtStop(ids, fetched, carded, id) ==>
      (id in HistoriesAfter(h, ids, fetched, carded) <==> id in h)
    ensures id !in ids[..Stop(ids, fetched, carded)] && !StoredAtStop(ids, fetched, carded, id) && id in h ==>
      HistoriesAfter(h, ids, fetched, carded)[id] == h[id]
  {
    var k := Stop(ids, fetched, carded);
    OverlayAt(h, ids[..k], fetched, id);
  }

  /** In particular, a sensor whose history fetch failed, or that is not listed, keeps its history. */
  lemma UnfetchedKept(h: map<string, seq<Reading>>, ids: seq<string>, fetched: map<string, seq<Reading>>, carded: set<string>, id: string)
    requires id !in fetched || id !in ids
    ensures id in HistoriesAfter(h, ids, fetched, carded) <==> id in h
    ensures id in h ==> HistoriesAfter(h, ids, fetched, carded)[id] == h[id]
  {
    HistoriesAfterAt(h, ids, fetched, carded, id);
    assert id !in ids[..Stop(ids, fetched, carded)];
  }

  /** A card's view after the cycle has handled the sensors in `handled` completely. */
  function Done(v: View, c: Config, thr: real, id: string, handled: seq<string>, live: map<string, Reading>,
                fetched: map<string, seq<Reading>>): (w: View)
  {
    if id in handled && id in fetched then AfterCycle(v, c, thr, id, live, fetched[id]) else v
  }

  /** Handling one more sensor x completely. */
  lemma DoneGrows(v: View, c: Config, thr: real, id: string, handled: seq<string>, x: string, live: map<string, Reading>,
                  fetched: map<string, seq<Reading>>)
    requires x in fetched && forall j :: 0 <= j < |handled| ==> handled[j] in fetched
    ensures Done(v, c, thr, id, handled + [x], live, fetched) ==
      if id == x then AfterLive(Done(v, c, thr, id, handled, live, fetched), c, thr, id, live).(listed := HistoryItems(c, fetched[id]))
      else Done(v, c, thr, id, handled, live, fetched)
  {
    assert id in handled + [x] <==> id in handled || id == x;
    if id == x && id in handled {
      AfterCycleIdempotent(v, c, thr, id, live, fetched[id]);
    }
  }

  /** A card's view after a cycle over ids: the sensors before the stop are handled completely
      and the one the cycle stopped at only got its live reading. */
  function CycleView(v: View, c: Config, thr: real, id: string, ids: seq<string>, live: map<string, Reading>,
                     fetched: map<string, seq<Reading>>, carded: set<string>): (w: View)
    ensures id in ids[..Stop(ids, fetched, carded)] ==>
      w.listed == HistoryItems(c, fetched[id]) && w.(listed := v.listed) == AfterLive(v, c, thr, id, live)
    ensures id !in ids[..Stop(ids, fetched, carded)] && Stop(ids, fetched, carded) < |ids| && ids[Stop(ids, fetched, carded)] == id ==>
      w == AfterLive(v, c, thr, id, live)
    ensures id !in ids[..Stop(ids, fetched, carded)] && (Stop(ids, fetched, carded) == |ids| || ids[Stop(ids, fetched, carded)] != id) ==>
      w == v
  {
    var k := Stop(ids, fetched, carded);
    var w := Done(v, c, thr, id, ids[..k], live, fetched);
    if k < |ids| && ids[k] == id then AfterLive(w, c, thr, id, live) else w
  }

  /** What a cycle reads of a card and never changes: its profile and its threshold. */
  datatype Look = Look(config: Config, threshold: real)

  /** Every card's view after setOnline and setValue for sensor id. */
  function LiveViews(views: map<string, View>, looks: map<string, Look>, id: string, live: map<string, Reading>): (r: map<string, View>)
    ensures r.Keys == views.Keys
    ensures forall k | k in views && k != id :: r[k] == views[k]
  {
    if id in views && id in looks then views[id := AfterLive(views[id], looks[id].config, looks[id].threshold, id, live)]
    else views
  }

  /** Every card's view after renderHistory for sensor id. */
  function Listed(views: map<string, View>, looks: map<string, Look>, id: string, hist: seq<Reading>): (r: map<string, View>)
    ensures r.Keys == views.Keys
    ensures forall k | k in views && k != id :: r[k] == views[k]
  {
    if id in views && id in looks then views[id := views[id].(listed := HistoryItems(looks[id].config, hist))]
    else views
  }

  /** Every card's view after the sensors in `handled` were handled completely. */
  function DoneAll(start: map<string, View>, looks: map<string, Look>, handled: seq<string>,
                   live: map<string, Reading>, fetched: map<string, seq<Reading>>): (r: map<string, View>)
    ensures r.Keys == start.Keys * looks.Keys
  {
    map id | id in start.Keys * looks.Keys :: Done(start[id], looks[id].config, looks[id].threshold, id, handled, live, fetched)
  }

  /** Before the loop nothing is handled. */
  lemma DoneAllNone(start: map<string, View>, looks: map<string, Look>, live: map<string, Reading>,
                    fetched: map<string, seq<Reading>>)
    requires start.Keys == looks.Keys
    ensures DoneAll(start, looks, [], live, fetched) == start
  {
  }

  /** Handling sensor x completely changes x's view only: the live reading, then the history. */
  lemma DoneAllGrows(start: map<string, View>, looks: map<string, Look>, handled: seq<string>, x: string,
                     live: map<string, Reading>, fetched: map<string, seq<Reading>>)
    requires x in fetched && forall j :: 0 <= j < |handled| ==> handled[j] in fetched
    ensures DoneAll(start, looks, handled + [x], live, fetched) ==
      Listed(LiveViews(DoneAll(start, looks, handled, live, fetched), looks, x, live), looks, x, fetched[x])
  {
    var d := DoneAll(start, looks, handled, live, fetched);
    var e := DoneAll(start, looks, handled + [x], live, fetched);
    forall id | id in e
      ensures e[id] == if id == x then AfterLive(d[x], looks[x].config, looks[x].threshold, x, live).(listed := HistoryItems(looks[x].config, fetched[x])) else d[id]
    {
      DoneGrows(start[id], looks[id].config, looks[id].threshold, id, handled, x, live, fetched);
    }
  }

  /** Every card's view after a cycle over ids. */
  function CycleViews(start: map<string, View>, looks: map<string, Look>, ids: seq<string>, live: map<string, Reading>,
                      fetched: map<string, seq<Reading>>, carded: set<string>): (r: map<string, View>)
    ensures r.Keys == start.Keys * looks.Keys
    ensures forall id | id in r && id !in ids :: r[id] == start[id]
  {
    map id | id in start.Keys * looks.Keys :: CycleView(start[id], looks[id].config, looks[id].threshold, id, ids, live, fetched, carded)
  }

  /** A cycle that stopped at index i: the sensors before it were handled completely, and the one
      at i, if any, only got its live reading. */
  lemma CycleViewsAt(start: map<string, View>, looks: map<string, Look>, ids: seq<string>, i: nat, live: map<string, Reading>,
                     fetched: map<string, seq<Reading>>, carded: set<string>)
    requires i <= |ids| && Stop(ids, fetched, carded) == i
    ensures CycleViews(start, looks, ids, live, fetched, carded) ==
      if i < |ids| then LiveViews(DoneAll(start, looks, ids[..i], live, fetched), looks, ids[i], live)
      else DoneAll(start, looks, ids[..i], live, fetched)
  {
  }

  /** How many cards `sensors.forEach(createCard)` creates: it stops at the first sensor whose
      id names a member every object inherits, where createCard throws. */
  function CreateStop(sensors: seq<SensorInfo>): (k: nat)
    ensures k <= |sensors|
    ensures forall j :: 0 <= j < k ==> CfgFor(sensors[j].id).Some?
    ensures k < |sensors| ==> CfgFor(sensors[k].id).None?
  {
    if sensors == [] || CfgFor(sensors[0].id).None? then 0
    else 1 + CreateStop(sensors[1..])
  }

  /** The storage after createCard ran for each of `sensors`, in order. */
  function CreatedStorage(items: map<string, string>, codec: Codec, sensors: seq<SensorInfo>): (r: map<string, string>)
    ensures items.Keys <= r.Keys
    decreases |sensors|
  {
    if sensors == [] then items
    else CreateWrites(CreatedStorage(items, codec, sensors[..|sensors| - 1]), codec, sensors[|sensors| - 1].id)
  }

  /** Creating cards never changes what any sensor loads from storage: each createCard writes
      only its own threshold key, which nothing reads back. */
  lemma {:induction false} CreatedKeepsLoads(items: map<string, string>, codec: Codec, sensors: seq<SensorInfo>, id: string)
    ensures LoadBaseline(CreatedStorage(items, codec, sensors), codec, id) == LoadBaseline(items, codec, id)
    ensures LoadDrop(CreatedStorage(items, codec, sensors), codec, id) == LoadDrop(items, codec, id)
    decreases |sensors|
  {
    if sensors != [] {
      var init := sensors[..|sensors| - 1];
      CreatedKeepsLoads(items, codec, init, id);
      CreateKeepsLoads(CreatedStorage(items, codec, init), codec, sensors[|sensors| - 1].id, id);
    }
  }

  /** Creating one more card adds its writes. */
  lemma CreatedGrows(items: map<string, string>, codec: Codec, sensors: seq<SensorInfo>, i: nat)
    requires i < |sensors|
    ensures CreatedStorage(items, codec, sensors[..i + 1]) == CreateWrites(CreatedStorage(items, codec, sensors[..i]), codec, sensors[i].id)
  {
    assert sensors[..i + 1][..i] == sensors[..i];
  }

  /** The view a new card starts with. */
  const InitialView := View(false, Loading, false, None, None, [])

  /** Every card of a page whose cards were all just created. */
  function InitialViews(ids: set<string>): (views: map<string, View>)
  {
    map id | id in ids :: InitialView
  }

  class Dashboard {
    const storage: LocalStorage
    const codec: Codec
    var cards: map<string, Card>
    var histories: map<string, seq<Reading>>
    ghost var CardRepr: set<Card>              // the cards
    ghost var CanvasRepr: set<Chart.Canvas>    // their canvases
    ghost var ViewRepr: set<CardView>          // their DOM elements

    /** Card c is registered under its own id, shares the page's storage, satisfies the card
        invariant, and its canvas was last drawn with its threshold over hist. */
    ghost predicate CardOk(id: string, c: Card, hist: seq<Reading>)
      reads storage, c, c.canvas
    {
      && c.id == id && c.storage == storage && c.codec == codec
      && c.Valid() && c.canvas.shows == Some(Chart.Picture(c.config, c.threshold, hist))
    }

    /** The page invariant: every card is well-formed and shows the history the page holds for
        it, every canvas shows what it was last asked to draw, and no two cards share a canvas
        or DOM elements. */
    ghost predicate Valid()
      reads this, storage, CardRepr, CanvasRepr
    {
      && RoundTrips(codec)
      && Separate()
      && (forall id | id in cards :: CardOk(id, cards[id], Get(histories, id)))
      && (forall cv | cv in CanvasRepr :: cv.Consistent())
    }

    /** Every card, canvas and set of DOM elements is accounted for, and no two cards share a
        canvas or DOM elements. */
    ghost predicate Separate()
      reads this, CardRepr
    {
      && (forall id | id in cards ::
            cards[id] in CardRepr && cards[id].canvas in CanvasRepr && cards[id].view in ViewRepr)
      && (forall a, b | a in cards && b in cards && a != b ::
            cards[a].canvas != cards[b].canvas && cards[a].view != cards[b].view)
    }

    constructor (store: LocalStorage, numberText: Codec)
      requires RoundTrips(numberText)
      ensures Valid() && storage == store && codec == numberText
      ensures cards == map[] && histories == map[]
    {
      storage := store;
      codec := numberText;
      cards := map[];
      histories := map[];
      CardRepr := {};
      CanvasRepr := {};
      ViewRepr := {};
    }

    /** `sensors.forEach(createCard)`: one card per listed id (a repeated id replaces its card),
        until createCard throws for an id that names an inherited member; `ok` is false then,
        and the cards created before it stay. */
    method CreateCards(sensors: seq<SensorInfo>, cw: nat, ch: nat, dpr: Chart.Ratio) returns (ok: bool)
      requires Valid() && cards == map[]
      modifies this`cards, this`CardRepr, this`CanvasRepr, this`ViewRepr, storage
      ensures Valid()
      ensures ok <==> CreateStop(sensors) == |sensors|
      ensures cards.Keys == IdSet(sensors[..CreateStop(sensors)])
      ensures storage.items == CreatedStorage(old(storage.items), codec, sensors[..CreateStop(sensors)])
      ensures LoadedFrom(old(storage.items))
      ensures AllInitial()
      ensures forall v | v in ViewRepr :: v in old(ViewRepr) || fresh(v)
      ensures forall cv | cv in CanvasRepr :: cv in old(CanvasRepr) || fresh(cv)
    {
      var stop := CreateStop(sensors);
      var i := 0;
      while i < stop
        invariant i <= stop && Created(i, sensors, old(storage.items))
        invariant forall v | v in ViewRepr :: v in old(ViewRepr) || fresh(v)
        invariant forall cv | cv in CanvasRepr :: cv in old(CanvasRepr) || fresh(cv)
      {
        AddListed(sensors, i, cw, ch, dpr, old(storage.items));
        i := i + 1;
      }
      ok := stop == |sensors|;
      CreatedLoaded(sensors, i, old(storage.items));
    }

    /** Every card holds the baseline and drop stored in items0. */
    ghost predicate LoadedFrom(items0: map<string, string>)
      reads this`cards, this`CardRepr, CardRepr
    {
      forall id | id in cards && cards[id] in CardRepr ::
        cards[id].baseline == LoadBaseline(items0, codec, id) && cards[id].dropPct == LoadDrop(items0, codec, id)
    }

    /** The cards created from storage items0 hold what items0 stored. */
    lemma CreatedLoaded(sensors: seq<SensorInfo>, k: nat, items0: map<string, string>)
      requires Created(k, sensors, items0)
      ensures LoadedFrom(items0)
    {
      forall id | id in cards && cards[id] in CardRepr
        ensures cards[id].baseline == LoadBaseline(items0, codec, id)
        ensures cards[id].dropPct == LoadDrop(items0, codec, id)
      {
        assert CardOk(id, cards[id], Get(histories, id));
        CreatedKeepsLoads(items0, codec, sensors[..k], id);
      }
    }

    /** The cards of a valid page hold what storage holds. */
    lemma ValidLoaded()
      requires Valid()
      ensures LoadedFrom(storage.items)
    {
      forall id | id in cards && cards[id] in CardRepr
        ensures cards[id].baseline == LoadBaseline(storage.items, codec, id)
      {
        assert CardOk(id, cards[id], Get(histories, id));
      }
    }

    /** createCard for the next listed sensor. */
    method AddListed(sensors: seq<SensorInfo>, i: nat, cw: nat, ch: nat, dpr: Chart.Ratio, ghost items0: map<string, string>)
      requires i < |sensors| && Created(i, sensors, items0) && CfgFor(sensors[i].id).Some?
      modifies this`cards, this`CardRepr, this`CanvasRepr, this`ViewRepr, storage
      ensures Created(i + 1, sensors, items0)
      ensures forall v | v in ViewRepr :: v in old(ViewRepr) || fresh(v)
      ensures forall cv | cv in CanvasRepr :: cv in old(CanvasRepr) || fresh(cv)
    {
      AddCard(sensors[i], cw, ch, dpr);
      IdSetGrows(sensors, i);
      CreatedGrows(items0, codec, sensors, i);
    }

    /** The page after createCard for sensors[..k], from storage items0. */
    ghost predicate Created(k: nat, sensors: seq<SensorInfo>, items0: map<string, string>)
      reads this, storage, CardRepr, CanvasRepr, ViewRepr
    {
      && k <= |sensors| && Valid() && AllInitial()
      && cards.Keys == IdSet(sensors[..k])
      && storage.items == CreatedStorage(items0, codec, sensors[..k])
    }

    /** createCard for one sensor with a configuration, registered under its id: the card loads
        its baseline and drop from storage, and storage gains its derived threshold. */
    method AddCard(s: SensorInfo, cw: nat, ch: nat, dpr: Chart.Ratio)
      requires Valid() && CfgFor(s.id).Some?
      modifies this`cards, this`CardRepr, this`CanvasRepr, this`ViewRepr, storage
      ensures Valid()
      ensures s.id in cards && fresh(cards[s.id]) && cards[s.id].ViewState() == InitialView
      ensures cards == old(cards)[s.id := cards[s.id]]
      ensures cards[s.id].baseline == LoadBaseline(old(storage.items), codec, s.id)
      ensures cards[s.id].dropPct == LoadDrop(old(storage.items), codec, s.id)
      ensures storage.items == CreateWrites(old(storage.items), codec, s.id)
      ensures old(AllInitial()) ==> AllInitial()
      ensures ViewRepr == old(ViewRepr) + {cards[s.id].view} && fresh(cards[s.id].view)
      ensures CanvasRepr == old(CanvasRepr) + {cards[s.id].canvas} && fresh(cards[s.id].canvas)
    {
      var c := NewCard(s.id, cw, ch, dpr);
      Register(s.id, c);
    }

    /** createCard's card for sensor id, not yet registered: it shows the page's history for id,
        loads its baseline and drop, and writes its derived threshold and nothing else. */
    method NewCard(id: string, cw: nat, ch: nat, dpr: Chart.Ratio) returns (c: Card)
      requires Valid() && CfgFor(id).Some?
      modifies storage
      ensures Valid()
      ensures fresh(c) && fresh(c.canvas) && fresh(c.view)
      ensures CardOk(id, c, Get(histories, id)) && c.canvas.Consistent() && c.ViewState() == InitialView
      ensures c.baseline == LoadBaseline(old(storage.items), codec, id)
      ensures c.dropPct == LoadDrop(old(storage.items), codec, id)
      ensures storage.items == CreateWrites(old(storage.items), codec, id)
      ensures old(AllInitial()) ==> AllInitial()
    {
      c := new Card(id, storage, codec, cw, ch, dpr, Get(histories, id));
      CreateWritesPersisted(old(storage.items), codec, id, c.config, c.threshold);
      forall k | k in cards
        ensures LoadBaseline(storage.items, codec, k) == LoadBaseline(old(storage.items), codec, k)
        ensures LoadDrop(storage.items, codec, k) == LoadDrop(old(storage.items), codec, k)
      {
        CreateKeepsLoads(old(storage.items), codec, id, k);
      }
      KeepsValidStored();
    }

    /** Registering a card that is not yet on the page under id; a card already registered
        under id is replaced. */
    method Register(id: string, c: Card)
      requires Valid()
      requires c !in CardRepr && c.canvas !in CanvasRepr && c.view !in ViewRepr
      requires CardOk(id, c, Get(histories, id)) && c.canvas.Consistent()
      modifies this`cards, this`CardRepr, this`CanvasRepr, this`ViewRepr
      ensures Valid()
      ensures cards == old(cards)[id := c]
      ensures CardRepr == old(CardRepr) + {c} && CanvasRepr == old(CanvasRepr) + {c.canvas} && ViewRepr == old(ViewRepr) + {c.view}
      ensures old(AllInitial()) && c.ViewState() == InitialView ==> AllInitial()
    {
      cards := cards[id := c];
      CardRepr := CardRepr + {c};
      CanvasRepr := CanvasRepr + {c.canvas};
      ViewRepr := ViewRepr + {c.view};
      KeepsValidAdded(id, c);
      if old(AllInitial()) && c.ViewState() == InitialView {
        KeepsInitial(id, c);
      }
    }

    /** Every card's DOM elements are as createCard left them. */
    ghost predicate AllInitial()
      reads this, CardRepr, ViewRepr
    {
      forall id | id in cards :: cards[id] in CardRepr && cards[id].view in ViewRepr && cards[id].ViewState() == InitialView
    }

    /** Registering a fresh card leaves every other card's DOM elements as they were. */
    twostate lemma KeepsInitial(id: string, new c: Card)
      requires old(Valid()) && old(AllInitial())
      requires cards == old(cards)[id := c]
      requires CardRepr == old(CardRepr) + {c} && ViewRepr == old(ViewRepr) + {c.view}
      requires unchanged(old(CardRepr)) && unchanged(old(ViewRepr))
      requires c.ViewState() == InitialView
      ensures AllInitial()
    {
      forall k | k in cards && k != id
        ensures cards[k].ViewState() == InitialView
      {
        assert old(cards[k].ViewState()) == InitialView;
      }
    }

    /** The page invariant survives registering a card that was not on the page under id. */
    twostate lemma KeepsValidAdded(id: string, new c: Card)
      requires old(Valid())
      requires CardOk(id, c, Get(histories, id)) && c.canvas.Consistent()
      requires c !in old(CardRepr) && c.canvas !in old(CanvasRepr) && c.view !in old(ViewRepr)
      requires storage.items == old(storage.items) && histories == old(histories)
      requires cards == old(cards)[id := c]
      requires CardRepr == old(CardRepr) + {c} && CanvasRepr == old(CanvasRepr) + {c.canvas}
      requires ViewRepr == old(ViewRepr) + {c.view}
      requires unchanged(old(CardRepr)) && unchanged(old(CanvasRepr))
      ensures Valid()
    {
      KeepsOthersOk(id, c);
      forall cv | cv in CanvasRepr
        ensures cv.Consistent()
      {
        if cv != c.canvas {
          assert old(cv.Consistent());
        }
      }
    }

    /** The cards registered before c still satisfy the card invariant once c is registered. */
    twostate lemma KeepsOthersOk(id: string, new c: Card)
      requires old(Valid())
      requires c !in old(CardRepr) && c.canvas !in old(CanvasRepr)
      requires storage.items == old(storage.items) && histories == old(histories)
      requires cards == old(cards)[id := c]
      requires unchanged(old(CardRepr)) && unchanged(old(CanvasRepr))
      ensures forall k | k in cards && k != id :: CardOk(k, cards[k], Get(histories, k))
    {
      forall k | k in cards && k != id
        ensures CardOk(k, cards[k], Get(histories, k))
      {
        assert old(CardOk(k, cards[k], Get(histories, k)));
      }
    }

    /** The page invariant survives a storage change that leaves what every card's sensor
        loads as it was. */
    twostate lemma KeepsValidStored()
      requires old(Valid())
      requires unchanged(this) && unchanged(CardRepr) && unchanged(CanvasRepr)
      requires forall k | k in cards ::
        && LoadBaseline(storage.items, codec, k) == LoadBaseline(old(storage.items), codec, k)
        && LoadDrop(storage.items, codec, k) == LoadDrop(old(storage.items), codec, k)
      ensures Valid()
    {
      KeepsCardsStored();
    }

    /** Every card still satisfies the card invariant after such a storage change. */
    twostate lemma KeepsCardsStored()
      requires old(Valid())
      requires unchanged(this) && unchanged(CardRepr) && unchanged(CanvasRepr)
      requires forall k | k in cards ::
        && LoadBaseline(storage.items, codec, k) == LoadBaseline(old(storage.items), codec, k)
        && LoadDrop(storage.items, codec, k) == LoadDrop(old(storage.items), codec, k)
      ensures forall k | k in cards :: CardOk(k, cards[k], Get(histories, k))
    {
      forall k | k in cards
        ensures CardOk(k, cards[k], Get(histories, k))
      {
        assert old(CardOk(k, cards[k], Get(histories, k)));
      }
    }

    /** The page invariant survives storing a history for a sensor that has no card. */
    twostate lemma KeepsValidUncarded(new id: string, new hist: seq<Reading>)
      requires old(Valid()) && id !in cards
      requires unchanged(this`cards, this`CardRepr, this`CanvasRepr, this`ViewRepr, storage)
      requires unchanged(CardRepr) && unchanged(CanvasRepr)
      requires histories == old(histories)[id := hist]
      ensures Valid()
    {
      forall k | k in cards
        ensures CardOk(k, cards[k], Get(histories, k))
      {
        assert old(CardOk(k, cards[k], Get(histories, k)));
      }
    }

    /** The page invariant survives storing a history for sensor id and redrawing its canvas,
        and nothing else. */
    twostate lemma KeepsValidRedrawn(new id: string, new hist: seq<Reading>)
      requires old(Valid()) && id in cards
      requires unchanged(this`cards, this`CardRepr, this`CanvasRepr, this`ViewRepr, storage)
      requires unchanged(CardRepr) && unchanged(CanvasRepr - {cards[id].canvas})
      requires histories == old(histories)[id := hist]
      requires cards[id].Drawn(hist)
      ensures Valid()
    {
      var drawn := cards[id].canvas;
      forall cv | cv in CanvasRepr
        ensures cv.Consistent()
      {
        if cv != drawn {
          assert old(cv.Consistent());
        }
      }
      forall k | k in cards
        ensures CardOk(k, cards[k], Get(histories, k))
      {
        assert old(CardOk(k, cards[k], Get(histories, k)));
        if k != id {
          assert cards[k].canvas != drawn;
          assert unchanged(cards[k].canvas);
        }
      }
    }

    /** The page invariant survives any change that leaves the page, the storage, the cards and
        the canvases as they were (a change to DOM elements only). */
    twostate lemma KeepsValid()
      requires old(Valid())
      requires unchanged(this, storage) && unchanged(CardRepr) && unchanged(CanvasRepr)
      ensures Valid()
    {
    }

    /** Every card's view, by sensor id. */
    ghost function Views(): map<string, View>
      reads this`cards, this`CardRepr, this`ViewRepr, CardRepr, ViewRepr
    {
      map id | id in cards && cards[id] in CardRepr && cards[id].view in ViewRepr :: cards[id].ViewState()
    }

    /** Every card's profile and threshold, by sensor id. */
    ghost function Looks(): map<string, Look>
      reads this`cards, this`CardRepr, CardRepr
    {
      map id | id in cards && cards[id] in CardRepr :: Look(cards[id].config, cards[id].threshold)
    }

    /** A change to the DOM elements of sensor id's card alone changes its entry in Views(). */
    twostate lemma ViewsUpdated(new id: string)
      requires old(Separate()) && id in cards
      requires unchanged(this`cards, this`CardRepr, this`ViewRepr)
      requires unchanged(ViewRepr - {cards[id].view}) && unchanged(CardRepr)
      ensures Views() == old(Views())[id := cards[id].ViewState()]
    {
    }

    /** A change that leaves the cards and their DOM elements alone leaves Views() and Looks(). */
    twostate lemma ViewsKept()
      requires unchanged(this`cards, this`CardRepr, this`ViewRepr)
      requires unchanged(ViewRepr) && unchanged(CardRepr)
      ensures Views() == old(Views()) && Looks() == old(Looks())
    {
    }

    /** setOnline and setValue on sensor id's card, seen in Views(). */
    twostate lemma ShownLive(new id: string, new live: map<string, Reading>)
      requires old(Separate()) && id in cards
      requires unchanged(this`cards, this`CardRepr, this`ViewRepr)
      requires unchanged(ViewRepr - {cards[id].view}) && unchanged(CardRepr)
      requires cards[id].ViewState() == AfterLive(old(cards[id].ViewState()), cards[id].config, cards[id].threshold, id, live)
      ensures Views() == LiveViews(old(Views()), Looks(), id, live)
    {
      ViewsUpdated(id);
      assert Looks()[id] == Look(cards[id].config, cards[id].threshold);
    }

    /** renderHistory on sensor id's card, seen in Views(). */
    twostate lemma ShownListed(new id: string, new hist: seq<Reading>)
      requires old(Separate()) && id in cards
      requires unchanged(this`cards, this`CardRepr, this`ViewRepr)
      requires unchanged(ViewRepr - {cards[id].view}) && unchanged(CardRepr)
      requires cards[id].ViewState() == old(cards[id].ViewState()).(listed := HistoryItems(cards[id].config, hist))
      ensures Views() == Listed(old(Views()), Looks(), id, hist)
    {
      ViewsUpdated(id);
      assert Looks()[id] == Look(cards[id].config, cards[id].threshold);
    }

    /** A change that leaves the cards alone leaves Looks(). */
    twostate lemma LooksKept()
      requires unchanged(this`cards, this`CardRepr) && unchanged(CardRepr)
      ensures Looks() == old(Looks())
    {
    }

    /** setOnline and setValue for one sensor of the live answer. */
    method ShowLive(id: string, live: map<string, Reading>)
      requires Valid()
      modifies ViewRepr
      ensures Valid()
      ensures Views() == LiveViews(old(Views()), Looks(), id, live)
      ensures Looks() == old(Looks())
    {
      if id in cards {
        ShowLiveOn(id, live);
      } else {
        ViewsKept();
        KeepsValid();
      }
    }

    /** setOnline and setValue for a sensor that has a card. */
    method ShowLiveOn(id: string, live: map<string, Reading>)
      requires Valid() && id in cards
      modifies ViewRepr
      ensures Valid()
      ensures Views() == LiveViews(old(Views()), Looks(), id, live)
      ensures Looks() == old(Looks())
    {
      LiveOn(cards[id], id, live);
      KeepsLive(id, live);
    }

    /** ShownLive, with the page kept valid and the cards' looks kept. */
    twostate lemma KeepsLive(new id: string, new live: map<string, Reading>)
      requires old(Valid()) && id in cards
      requires unchanged(this, storage) && unchanged(CardRepr) && unchanged(CanvasRepr)
      requires unchanged(ViewRepr - {cards[id].view})
      requires cards[id].ViewState() == AfterLive(old(cards[id].ViewState()), cards[id].config, cards[id].threshold, id, live)
      ensures Valid()
      ensures Views() == LiveViews(old(Views()), Looks(), id, live)
      ensures Looks() == old(Looks())
    {
      ShownLive(id, live);
      KeepsValid();
      LooksKept();
    }

    /** histories.set, renderHistory and drawChart for one sensor whose history was fetched;
        `ok` is false when the sensor has no card, where drawChart throws. renderHistory runs
        first here: it reads neither `histories` nor the canvas, so the order does not matter. */
    method ShowHistory(id: string, hist: seq<Reading>) returns (ok: bool)
      requires Valid()
      modifies this`histories, ViewRepr, CanvasRepr
      ensures Valid()
      ensures ok <==> id in cards
      ensures histories == old(histories)[id := hist]
      ensures Views() == Listed(old(Views()), Looks(), id, hist)
      ensures Looks() == old(Looks())
    {
      ListHistory(id, hist);
      ok := DrawHistory(id, hist);
    }

    /** renderHistory: a sensor without a card is ignored. */
    method ListHistory(id: string, hist: seq<Reading>)
      requires Valid()
      modifies ViewRepr
      ensures Valid()
      ensures Views() == Listed(old(Views()), Looks(), id, hist)
      ensures Looks() == old(Looks())
    {
      if id in cards {
        var c := cards[id];
        ghost var v := c.ViewState();
        c.RenderHistory(hist);
        assert c.ViewState() == v.(listed := HistoryItems(c.config, hist));
        ShownListed(id, hist);
      } else {
        ViewsKept();
      }
      KeepsValid();
      LooksKept();
    }

    /** histories.set and drawChart; `ok` is false when the sensor has no card. */
    method DrawHistory(id: string, hist: seq<Reading>) returns (ok: bool)
      requires Valid()
      modifies this`histories, CanvasRepr
      ensures Valid()
      ensures ok <==> id in cards
      ensures histories == old(histories)[id := hist]
      ensures Views() == old(Views()) && Looks() == old(Looks())
    {
      histories := histories[id := hist];
      if id in cards {
        var c := cards[id];
        c.DrawChart(hist);
        KeepsValidRedrawn(id, hist);
        ok := true;
      } else {
        KeepsValidUncarded(id, hist);
        ok := false;
      }
      ViewsKept();
    }

    /** One pass of the loop body of refresh for sensor id: setOnline and setValue, then, when
        the history fetch succeeded, histories.set, renderHistory and drawChart. `go` is false
        where refresh stops: the history fetch failed, or drawChart threw for a missing card. */
    method Step(id: string, live: map<string, Reading>, fetched: map<string, seq<Reading>>,
                ghost start: map<string, View>, ghost handled: seq<string>) returns (go: bool)
      requires Valid() && forall j :: 0 <= j < |handled| ==> handled[j] in fetched
      requires Views() == DoneAll(start, Looks(), handled, live, fetched)
      modifies this`histories, ViewRepr, CanvasRepr
      ensures Valid()
      ensures go <==> id in fetched && id in cards
      ensures histories == if id in fetched then old(histories)[id := fetched[id]] else old(histories)
      ensures go ==> Views() == DoneAll(start, Looks(), handled + [id], live, fetched)
      ensures !go ==> Views() == LiveViews(DoneAll(start, Looks(), handled, live, fetched), Looks(), id, live)
      ensures Looks() == old(Looks())
    {
      ShowLive(id, live);
      if id !in fetched {
        return false;
      }
      go := ShowHistory(id, fetched[id]);
      if go {
        DoneAllGrows(start, Looks(), handled, id, live, fetched);
      }
    }

    /** The `for (const s of sensors)` loop of refresh, stopped by the first failed history fetch
        or missing card, as the thrown error ends refresh. */
    method Cycle(ids: seq<string>, live: map<string, Reading>, fetched: map<string, seq<Reading>>)
      requires Valid()
      modifies this`histories, ViewRepr, CanvasRepr
      ensures Valid()
      ensures histories == HistoriesAfter(old(histories), ids, fetched, cards.Keys)
      ensures Views() == CycleViews(old(Views()), Looks(), ids, live, fetched, cards.Keys)
      ensures Looks() == old(Looks())
    {
      ghost var start := Views();
      ghost var looks := Looks();
      assert start.Keys == looks.Keys;
      DoneAllNone(start, looks, live, fetched);
      assert ids[..0] == [];
      var i := Loop(ids, live, fetched, start, looks);
      StopsAt(ids, i, fetched, cards.Keys);
      CycleViewsAt(start, looks, ids, i, live, fetched, cards.Keys);
    }

    /** The page after the loop has handled ids[..k] completely, from histories h0 and views start. */
    ghost predicate Reached(k: nat, ids: seq<string>, live: map<string, Reading>, fetched: map<string, seq<Reading>>,
                            start: map<string, View>, looks: map<string, Look>, h0: map<string, seq<Reading>>)
      reads this, storage, CardRepr, CanvasRepr, ViewRepr
    {
      && k <= |ids| && Valid() && Looks() == looks
      && (forall j :: 0 <= j < k ==> ids[j] in fetched && ids[j] in cards)
      && histories == Overlay(h0, ids[..k], fetched)
      && Views() == DoneAll(start, looks, ids[..k], live, fetched)
    }

    /** The page after the loop stopped at sensor ids[k]: its live reading is shown and, when
        its history was fetched, that history is stored. */
    ghost predicate StoppedAt(k: nat, ids: seq<string>, live: map<string, Reading>, fetched: map<string, seq<Reading>>,
                              start: map<string, View>, looks: map<string, Look>, h0: map<string, seq<Reading>>)
      reads this, storage, CardRepr, CanvasRepr, ViewRepr
    {
      && k < |ids| && Valid() && Looks() == looks
      && (forall j :: 0 <= j < k ==> ids[j] in fetched && ids[j] in cards)
      && (ids[k] !in fetched || ids[k] !in cards)
      && histories == (if ids[k] in fetched then Overlay(h0, ids[..k], fetched)[ids[k] := fetched[ids[k]]] else Overlay(h0, ids[..k], fetched))
      && Views() == LiveViews(DoneAll(start, looks, ids[..k], live, fetched), looks, ids[k], live)
    }

    /** The loop itself; `i` is the index it stopped at. */
    method Loop(ids: seq<string>, live: map<string, Reading>, fetched: map<string, seq<Reading>>,
                ghost start: map<string, View>, ghost looks: map<string, Look>) returns (i: nat)
      requires Reached(0, ids, live, fetched, start, looks, histories)
      modifies this`histories, ViewRepr, CanvasRepr
      ensures (i == |ids| && Reached(i, ids, live, fetched, start, looks, old(histories)))
           || StoppedAt(i, ids, live, fetched, start, looks, old(histories))
    {
      i := 0;
      while i < |ids|
        invariant Reached(i, ids, live, fetched, start, looks, old(histories))
      {
        var go := Advance(ids, i, live, fetched, start, looks, old(histories));
        if !go {
          return;
        }
        i := i + 1;
      }
    }

    /** One pass of the loop: the sensors before i were handled completely, and sensor i is
        handled now; `go` says whether the loop goes on. */
    method Advance(ids: seq<string>, i: nat, live: map<string, Reading>, fetched: map<string, seq<Reading>>,
                   ghost start: map<string, View>, ghost looks: map<string, Look>,
                   ghost h0: map<string, seq<Reading>>) returns (go: bool)
      requires i < |ids| && Reached(i, ids, live, fetched, start, looks, h0)
      modifies this`histories, ViewRepr, CanvasRepr
      ensures go ==> Reached(i + 1, ids, live, fetched, start, looks, h0)
      ensures !go ==> StoppedAt(i, ids, live, fetched, start, looks, h0)
    {
      ghost var handled := ids[..i];
      go := Step(ids[i], live, fetched, start, handled);
      if go {
        OverlayGrows(h0, ids, i, fetched);
        PrefixGrows(ids, i);
        assert handled + [ids[i]] == ids[..i + 1];
      }
    }

    /** A page whose cards were all just created shows every card as created. */
    lemma InitialShown()
      requires Valid() && AllInitial()
      ensures Views() == InitialViews(cards.Keys)
    {
    }

    /** The card-creation part of refresh: cards are created only while the page has none;
        `go` is false when createCard threw, which skips the rest of refresh. */
    method Setup(sensors: seq<SensorInfo>, cw: nat, ch: nat, dpr: Chart.Ratio) returns (go: bool)
      requires Valid()
      modifies this`cards, this`CardRepr, this`CanvasRepr, this`ViewRepr, storage
      ensures Valid()
      ensures go <==> !Aborts(sensors, old(cards))
      ensures histories == old(histories)
      ensures old(cards) != map[] ==> cards == old(cards) && storage.items == old(storage.items) && Views() == old(Views())
      ensures old(cards) == map[] ==>
        && cards.Keys == IdSet(sensors[..CreateStop(sensors)])
        && storage.items == CreatedStorage(old(storage.items), codec, sensors[..CreateStop(sensors)])
        && Views() == InitialViews(cards.Keys)
      ensures LoadedFrom(old(storage.items))
      ensures forall v | v in ViewRepr :: v in old(ViewRepr) || fresh(v)
      ensures forall cv | cv in CanvasRepr :: cv in old(CanvasRepr) || fresh(cv)
    {
      if cards == map[] {
        go := CreateCards(sensors, cw, ch, dpr);
        InitialShown();
      } else {
        ValidLoaded();
        go := true;
      }
    }

    /** refresh(): `sensors` is the `/api/sensors` answer and `live` the `/api/live` answer, None
        when that fetch failed; `fetched` holds the `/api/history/<id>` answers that succeeded.
        Cards are created only while the page has none; when creation throws, the rest of
        refresh is skipped. */
    method Refresh(sensors: Option<seq<SensorInfo>>, live: Option<map<string, Reading>>,
                   fetched: map<string, seq<Reading>>, cw: nat, ch: nat, dpr: Chart.Ratio)
      requires Valid()
      modifies this`cards, this`CardRepr, this`CanvasRepr, this`ViewRepr, this`histories, storage, ViewRepr, CanvasRepr
      ensures Valid()
      ensures sensors.None? || old(cards) != map[] ==> cards == old(cards) && storage.items == old(storage.items)
      ensures sensors.Some? && old(cards) == map[] ==>
        && cards.Keys == IdSet(sensors.value[..CreateStop(sensors.value)])
        && storage.items == CreatedStorage(old(storage.items), codec, sensors.value[..CreateStop(sensors.value)])
      ensures LoadedFrom(old(storage.items))
      ensures sensors.None? || live.None? || Aborts(sensors.value, old(cards)) ==> histories == old(histories)
      ensures sensors.Some? && live.Some? && !Aborts(sensors.value, old(cards)) ==>
        histories == HistoriesAfter(old(histories), Ids(sensors.value), fetched, cards.Keys)
      ensures Views() ==
        var start := if sensors.Some? && old(cards) == map[] then InitialViews(cards.Keys) else old(Views());
        if sensors.Some? && live.Some? && !Aborts(sensors.value, old(cards))
        then CycleViews(start, Looks(), Ids(sensors.value), live.value, fetched, cards.Keys)
        else start
    {
      if sensors.None? {
        ValidLoaded();
        return;
      }
      var go := Setup(sensors.value, cw, ch, dpr);
      if !go || live.None? {
        return;
      }
      Cycle(Ids(sensors.value), live.value, fetched);
    }
  }

  /** Card creation throws in this refresh: the page had no cards, and a listed id names an
      inherited member. */
  predicate Aborts(sensors: seq<SensorInfo>, cards: map<string, Card>)
  {
    cards == map[] && CreateStop(sensors) < |sensors|
  }

  /** When the first listed sensor already makes createCard throw, the refresh leaves the page
      without cards, so the next refresh tries creation again and aborts at the same sensor. */
  lemma FirstAbortKeepsPageEmpty(sensors: seq<SensorInfo>, cards: map<string, Card>)
    requires |sensors| > 0 && CreateStop(sensors) == 0
    requires cards.Keys == IdSet(sensors[..CreateStop(sensors)])
    ensures cards == map[] && Aborts(sensors, cards)
  {
    assert sensors[..0] == [];
  }
}
