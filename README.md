# ESP sensor hub and dashboard, modelled in Dafny

The repository is a small monitoring system for ESP sensors. The backend (`app.py`, Flask with
an MQTT subscriber) listens on `sensor/+`. It keeps the latest reading of every sensor and a
rolling history of the last 50 readings, and serves them as `/api/sensors`, `/api/live` and
`/api/history/<sid>`. The dashboard (`public/main.js`) polls those endpoints. For every sensor
it draws a card with:

- a live value and a health verdict;
- a chart over a fixed axis range;
- a "Last 10" list;
- a derived alarm threshold, computed from a user-set baseline and an allowed drop in percent
  and kept in `localStorage`.

This project models the core of both sides and proves properties about it.

- `basics.dfy`, `js_math.dfy`: an `Option` type, the last n elements of a sequence, and JS
  numbers (`Number` = finite, NaN or an infinity). Also `Math.round` (floor of x + ½) and
  clamping.
- `profiles.dfy`: the per-sensor display configuration (`photo`, `current`, fallback). Covers
  `cfgFor` and the three raw-to-display transforms.
- `threshold_rule.dfy`: the threshold rule of `recomputeThreshold` and the drop-% clamp.
- `health.dfy`: the health classifier (OK at or above the threshold, NOT OK below it) and the
  banner.
- `cards.dfy`: one card as a class, covering:
  - its `localStorage` load;
  - its input and button handlers;
  - `recomputeThreshold`;
  - `setOnline`, `setValue` and `updateHealth`;
  - `renderHistory`, as a reverse loop.

  The card invariant is that the threshold is never stale with respect to the baseline and drop
  the card holds, and that storage reproduces both.
- `chart.dfy`: the geometry of `drawChart`. The canvas is a class whose frame is the list of
  draw commands since the last clear. The tick loop and the series loops are methods proved
  against the frame function. The lemmas cover:
  - the exact set of gridlines;
  - every point staying inside the plot band;
  - the threshold line appearing exactly when the threshold is in range;
  - the placement of the time labels.
- `dashboard.dfy`: the page state (`cards`, `histories`) and one `refresh()` cycle:
  - card creation while the page has no cards;
  - the per-sensor loop;
  - the abort that the first failed fetch, or a sensor without a card, causes.

  Its result is stated as functions of the fetched answers.
- `topics.dfy`: `str.split` and `id_from_topic`.
- `hub.dfy`: the hub state, meaning `SENSORS`, `latest` and one `deque(maxlen=50)` per id. It
  covers `on_message` (topic filter, value selection, discovery, append), `api_sensors` and
  `api_history`. The hub invariant:
  - no deque holds more than 50 entries;
  - every latest entry is the newest entry of its deque;
  - `SENSORS` lists exactly the ids that have a deque.

The code and the design description of the system disagree in four places, and the model
follows the code in all of them:

- **Absent storage keys.** The design says an absent key means "baseline unset, drop 10 %", so
  a fresh sensor would use its profile's default threshold. In the code,
  `Number(localStorage.getItem(k))` turns an absent key (null) into 0, which is finite. A fresh
  sensor therefore loads baseline 0 and drop 0, which gives threshold 0 (`FreshCardLoadsZero`).
  The default threshold is used only when a stored baseline text does not parse
  (`LoadedBaselineUnsetIff`).
- **A failed cycle.** The design says a failed cycle keeps the last rendered state. In the code,
  a cycle stops at the first sensor whose history fetch fails. It also stops at the first
  sensor that has no card, because `drawChart(undefined, …)` throws. The sensors before that
  point are already updated, and so is the live reading of the sensor where it stopped
  (`Dashboard.CycleView`, `Dashboard.HistoriesAfterAt`). Cards are created only while the page
  has none. So a sensor the hub discovers after the page loaded stops every later cycle at its
  position in `/api/sensors`.
- **Going offline.** The design says an offline sensor has its banner hidden. In the code,
  `setOnline(id, false)` sets the health text to OFFLINE and leaves the banner as the last
  `setValue` left it, so a sensor that was NOT OK and then drops out of `/api/live` goes on
  showing its banner (`Cards.Card.SetOnline`, `Dashboard.AfterLive`).
- **The "Last 10" list.** The design calls it a list of the last ten readings. In the code,
  `renderHistory` writes one line per element of the fetched history, newest first, and the hub
  keeps up to 50 readings per sensor, so the list holds up to 50 lines
  (`Cards.HistoryItemsAt`, `Cards.Card.RenderHistory`, `Hub.Hub.HistoryIsRecent`). Only
  "Use avg(10)" takes the last ten.

Two more behaviours of the code are modelled as written:

- **Ids named like `Object.prototype` members.** `cfgFor` is `SENSOR_CONFIG[id] || DEFAULT_CFG`.
  For an id such as `toString`, `constructor` or `__proto__`, the lookup finds the inherited
  member, which is truthy, so that member becomes the card's configuration. `createCard` then
  throws on `cfg.unit.trim()` (public/main.js:61). The exception ends `sensors.forEach(createCard)`
  and the rest of that `refresh` (the catch at public/main.js:348), so the cards created before that
  sensor stay and no live or history update happens. Cards are created only on an empty page.
  So when at least one card was created, the next cycle skips creation and runs the per-sensor
  loop, which stops at the first listed sensor without a card. When the first listed sensor is
  the one that throws, no card is created, the page stays empty, and every later cycle tries
  creation again and aborts at the same sensor, so the dashboard never shows a card
  (`Dashboard.FirstAbortKeepsPageEmpty`). `Profiles.CfgFor` returns no configuration for exactly
  these ids, and `Dashboard.CreateStop` and `Dashboard.Dashboard.Refresh` carry the abort.
- **Non-object payloads.** `on_message` tests `"current" in j` and `"adc" in j` on whatever
  `json.loads` returned. On a string that is a substring test, and on a list a membership test.
  A string or list payload that passes the test then fails the subscript inside the `try`, and
  the reading is stored as 0.0 or 0 (`Hub.SelectValue`, `Hub.NonObjectPayloadsStoreZero`). On a
  number, a boolean or null, the `in` test itself raises, outside any `try`, and nothing is
  stored.

## Model

| member | source | states |
|---|---|---|
| Basics.LastN | public/main.js:155 | `slice(-n)`: the last min(n, length of s) elements of s, as a suffix |
| JsMath.Round | public/main.js:147 | `Math.round`: the integer within ½ of x, ties rounded up |
| JsMath.RoundMonotone | public/main.js:178 | rounding preserves order |
| JsMath.Clamp | public/main.js:274 | `clamp(v, min, max)` lies in [min, max], equals v inside, and equals the nearer bound outside |
| JsMath.ClampIdempotent | public/main.js:274 | clamping a clamped value changes nothing |
| Profiles.CfgFor | public/main.js:6-40 | no configuration exactly for the ids that name an inherited `Object.prototype` member (where createCard throws); otherwise `photo` and `current` get their own profiles and every other id the fallback; every profile has yMin < yMax and a default threshold inside its axis range |
| Profiles.Display | public/main.js:8-31 | the transforms: photo rounds counts, current rounds amps × 1000 to whole mA, the fallback is the identity |
| ThresholdRule.ThresholdFor | public/main.js:175-186 | with a finite baseline, the threshold is baseline × (1 − drop/100) rounded to an integer; otherwise it is the profile's default |
| ThresholdRule.ClampPercent | public/main.js:131 | the drop is clamped into [0, 100], not rejected; values inside are unchanged |
| ThresholdRule.ClampPercentExamples | public/main.js:129-131 | 150 becomes 100, −5 becomes 0, 15 stays 15 |
| ThresholdRule.ThresholdWithinBaseline | public/main.js:178 | with a non-negative baseline and a drop in [0, 100], 0 ≤ threshold ≤ round(baseline) |
| ThresholdRule.ThresholdAntitoneInDrop | public/main.js:178 | a larger allowed drop never raises the threshold |
| ThresholdRule.DropExtremes | public/main.js:178 | drop 0 keeps the rounded baseline; drop 100 gives 0 |
| ThresholdRule.CurrentScenarioThreshold | public/main.js:175-181 | current profile, baseline 420 mA, drop 10 % gives threshold 378 |
| HealthClassifier.Verdict | public/main.js:215-226 | OK exactly when the display value is at or above the threshold, NOT OK otherwise |
| HealthClassifier.BannerShown | public/main.js:210 | the banner shows exactly when the verdict is NOT OK |
| HealthClassifier.BoundaryIsOk | public/main.js:210-217 | a value equal to the threshold is OK with no banner; one unit below is NOT OK with the banner |
| HealthClassifier.HealthTextInjective | public/main.js:215-225 | the four health texts are pairwise distinct |
| Cards.KeysDistinct | public/main.js:43-45 | the baseline, drop and threshold keys never collide with each other, and each of the three is one-to-one in the id |
| Cards.StoredNumber | public/main.js:90-91 | `Number(localStorage.getItem(k))`: 0 for an absent key, the parsed text otherwise |
| Cards.LoadDrop | public/main.js:92-93 | an absent drop key loads 0; a stored text that parses as finite loads that number; any other text loads 10 |
| Cards.PersistThreshold | public/main.js:176-182 | with a finite baseline, storage gains the formatted threshold under the threshold key; otherwise storage is unchanged; no other key changes |
| Cards.CreateWrites | public/main.js:168-182 | createCard's storage write: the threshold key is added exactly when the loaded baseline is finite, and no other key changes |
| Cards.CreateKeepsLoads | public/main.js:43-45 | createCard for one id leaves every other id's loaded baseline and drop unchanged |
| Cards.NothingStoredLoadsZero | public/main.js:90-93 | with no stored baseline or drop, any configuration loads baseline 0 and drop 0 and derives threshold 0 |
| Cards.LoadBaseline | public/main.js:90-91 | a loaded baseline is finite or NaN |
| Cards.FreshCardLoadsZero | public/main.js:88-93 | for a sensor with configuration c and no stored keys: baseline 0, drop 0, threshold 0, which is not c's default threshold |
| Cards.LoadedBaselineUnsetIff | public/main.js:90-93 | the baseline is unset exactly when a stored baseline text does not parse as finite, and then the threshold is the default |
| Cards.OtherSensorsUnaffected | public/main.js:43-45 | writing one sensor's keys leaves every other sensor's loaded baseline and drop unchanged |
| Cards.ReloadRestores | public/main.js:120-135 | a stored baseline or drop is what a reload gives back; storing the threshold changes neither |
| Cards.AverageBaseline | public/main.js:153-163 | "Use avg(10)" has a value exactly when the history is non-empty |
| Cards.MeanWithin | public/main.js:157 | a mean lies within any bounds of its elements |
| Cards.AverageWithinReadings | public/main.js:155-157 | the averaged baseline lies between the rounded lower and upper bounds of the readings' display values |
| Cards.AverageIgnoresOlderReadings | public/main.js:155 | readings older than the last ten do not change the average |
| Cards.CurrentBaseline | public/main.js:136-147 | "Use current" has a value exactly when a live value is shown or the history is non-empty |
| Cards.HistoryItemsAt | public/main.js:229-238 | the list has one line per reading, and the k-th line is the k-th newest reading in display units |
| Cards.CardView.constructor | public/main.js:53-82 | a new card is offline, "Loading…", with no banner, no value and an empty list |
| Cards.Card.constructor | public/main.js:48-172 | createCard loads baseline and drop from storage, computes the threshold, persists it when derived, and draws the chart; the card invariant holds |
| Cards.Card.RecomputeThreshold | public/main.js:175-188 | the threshold is made consistent with baseline and drop, stored only when derived, and the chart is redrawn |
| Cards.Card.OnBaselineInput | public/main.js:120-127 | a non-finite input changes nothing; a finite one becomes the baseline, is persisted, and the threshold follows |
| Cards.Card.OnDropInput | public/main.js:128-135 | a non-finite input changes nothing; a finite one is clamped to [0, 100], persisted, and the threshold follows |
| Cards.Card.OnUseCurrent | public/main.js:136-152 | the rounded live value, else the rounded last history value, becomes the baseline and is persisted; with neither, nothing changes |
| Cards.Card.OnUseAverage | public/main.js:153-163 | the rounded mean of the last ten display values becomes the baseline and is persisted; with no history, nothing changes |
| Cards.Card.DrawChart | public/main.js:187 | the canvas shows this card's threshold over the given history, and the CSS box is unchanged |
| Cards.Card.OnResize | public/main.js:171 | after a resize, the canvas shows the frame for its new CSS box and pixel ratio |
| Cards.Card.SetOnline | public/main.js:191-197 | the badge follows the flag; going offline sets the health to OFFLINE and leaves the banner as it was |
| Cards.Card.SetValue | public/main.js:200-212 | shows the display value and time; the banner shows exactly when the value is below the threshold; the health is the verdict |
| Cards.Card.UpdateHealth | public/main.js:215-226 | the health is OK exactly when the value is at or above the threshold |
| Cards.Card.RenderHistory | public/main.js:229-238 | the list holds every reading, newest first, in display units |
| Chart.EffectiveTick | public/main.js:284 | the tick, or 1000 when it is zero, is positive |
| Chart.EffectiveDpr | public/main.js:243 | the pixel ratio, or 1 when it is zero, is positive |
| Chart.ToY | public/main.js:276-277 | yMin maps to the bottom of the plot band and yMax to its top |
| Chart.TickCount | public/main.js:284-289 | the grid has at least one gridline, the one at yMin |
| Chart.TickContinues | public/main.js:285-288 | while the loop test passes, the iteration is below the tick count and `yTick += tick` reaches the next gridline value |
| Chart.TickIndex | public/main.js:285 | gridline k is drawn exactly when yMin + k·tick ≤ yMax + 0.001 |
| Chart.GridAt | public/main.js:285-289 | the k-th iteration draws the gridline at toY(yMin + k·tick) and its rounded label |
| Chart.GridlinesExactly | public/main.js:284-289 | the grid has one gridline and one label for each k with yMin + k·tick ≤ yMax + 0.001, in increasing k, and nothing else |
| Chart.ProfileTickCounts | public/main.js:284-289 | photo and the fallback get five gridlines; current gets nine |
| Chart.GridKinds | public/main.js:285-289 | the tick loop draws only gridlines and labels |
| Chart.AxisFraction | public/main.js:276-277 | a value in [yMin, yMax] is a fraction in [0, 1] of the axis range |
| Chart.PlottedYInBand | public/main.js:306-311 | every plotted y lies inside the plot band, whatever the reading |
| Chart.OutliersPlotOnEdges | public/main.js:308-309 | values at or above yMax plot on the top edge; values at or below yMin plot on the bottom edge |
| Chart.SeriesAt | public/main.js:306-321 | the polyline and the markers have one point per reading, at the reading's x and clamped y |
| Chart.SeriesInBand | public/main.js:306-321 | every polyline corner and marker lies in the plot band |
| Chart.XPositions | public/main.js:273 | points are evenly spaced by index from the left edge; with two or more, the last sits on the right edge |
| Chart.EmptyHistoryOnlyBox | public/main.js:261-269 | the frame is the axes box alone exactly when the history is empty |
| Chart.FrameParts | public/main.js:241-327 | each threshold line, time label and plotted point comes from its own part of the frame |
| Chart.ThresholdLineIff | public/main.js:292-300 | the threshold line is drawn exactly when there is history and yMin ≤ threshold ≤ yMax |
| Chart.PointsInBand | public/main.js:302-321 | every plotted point of a frame lies inside the plot band |
| Chart.TimeLabelsDrawn | public/main.js:323-327 | the first reading's time is drawn at the left edge, the last one's at the right edge only with two or more readings, and no other time label |
| Chart.Canvas.constructor | public/main.js:79 | a fresh canvas has the 300 × 150 default buffer and nothing drawn |
| Chart.ChartFrame | public/main.js:255-327 | the frame starts with the axes box; with no history that is all; otherwise its length is 1 + two per gridline + the threshold line when in range + two per reading + one or two time labels |
| Chart.BackingSize | public/main.js:243-248 | with pixel ratio 1 (or the fallback for 0), the backing size is the CSS size |
| Chart.Frame | public/main.js:241-253 | at pixel ratio 1 (or 0), the frame is the one for the CSS box itself |
| Chart.DrawChart | public/main.js:241-253 | the backing buffer is floor(CSS size × ratio) with the 300 × 160 fallbacks, and the frame is the one for that box |
| Chart.DrawFrame | public/main.js:255-327 | clear, then the axes box, and with history the grid, threshold line, series, markers and time labels |
| Chart.DrawGrid | public/main.js:284-289 | the tick loop appends exactly the grid |
| Chart.DrawSeries | public/main.js:302-321 | the series loop and the points loop append one corner or marker per reading |
| Topics.Split | app.py:46 | `str.split`: count + 1 pieces, none holding the separator, joined back to the input |
| Topics.SplitJoin | app.py:46 | splitting a join of separator-free pieces gives the pieces back |
| Topics.IdFromTopic | app.py:44-47 | the id holds no '/', and is "unknown" for a topic without one |
| Topics.IdOfBaseTopic | app.py:44-47 | `prefix/id` names id |
| Topics.IdOfDeeperTopic | app.py:45-47 | `prefix/id/rest` names id as well |
| Topics.BaseTopicParts | app.py:59-63 | a topic with exactly one '/' is `prefix/id` for the id it names |
| Hub.Trunc | app.py:81 | `int(float)` truncates towards zero |
| Hub.PyFloat | app.py:76 | `float(x)`: a number is itself, a boolean 1.0 or 0.0, a string its parse, and null, a list or an object raise |
| Hub.Converted | app.py:75-84 | the subscript and conversion inside the `try`: only an object holding the key converts its value; everything else raises |
| Hub.SelectValue | app.py:73-85 | a value exactly when `"current" in j` or `"adc" in j` holds (key of an object, substring of a string, element of a list); "current" wins and is `float(j["current"])`, else `int(float(j["adc"]))`, with 0.0 or 0 where the subscript or conversion raises; nothing when `in` raises (number, boolean, null) |
| Hub.CurrentWins | app.py:74-79 | with "current" present, "adc" plays no part and the value is a float |
| Hub.NonObjectPayloadsStoreZero | app.py:74-84 | the string payload "current", a string ending in "current", and a list holding "adc" but not "current" are stored as 0.0, 0.0 and 0 |
| Hub.BoundedAppend | app.py:96 | appending to a full deque drops the oldest entry; the new entry is last |
| Hub.BoundedAppendWindow | app.py:96 | a deque holding the last 50 of s holds the last 50 of s + [e] after appending e |
| Hub.AppendAllWindow | app.py:96 | the same for a run of appends |
| Hub.DequeKeepsMostRecent | app.py:88-96 | a deque(maxlen=50) that started empty holds the 50 most recent entries, in arrival order |
| Hub.KnownIff | app.py:90 | the `all(...)` test fails exactly when the id is among SENSORS' ids |
| Hub.SensorIdsAppend | app.py:91 | appending to SENSORS adds that id and nothing else |
| Hub.OpenKeeps | app.py:88-91 | discovery keeps the hub invariant, and a new id is not yet listed |
| Hub.AppendKeeps | app.py:94-96 | recording keeps the hub invariant |
| Hub.Hub.constructor | app.py:27-39 | SENSORS as loaded, an empty deque per listed id, nothing latest; the invariant holds |
| Hub.Hub.OnMessage | app.py:58-96 | a message that is not on a base topic, not JSON, or has no value by SelectValue changes nothing; otherwise the entry becomes latest and is appended to the sensor's bounded deque, and an id without a deque gets one and, if not listed, a SENSORS entry named after it |
| Hub.Hub.Ingest | app.py:88-96 | discovery then recording |
| Hub.Hub.Track | app.py:88-91 | a new id gets an empty deque and a SENSORS entry named after it |
| Hub.Hub.Record | app.py:94-96 | the entry becomes latest and is appended to the bounded deque |
| Hub.Hub.ApiSensors | app.py:119-121 | every SENSORS element in order, named by its name or else its id |
| Hub.Hub.ApiHistory | app.py:129-130 | the deque of sid, or empty for an unseen id |
| Hub.Hub.HistoryIsRecent | app.py:128-130 | a history holds at most 50 entries, the newest being the sensor's latest |
| Hub.Hub.ListedIffTracked | app.py:118-130 | `/api/sensors` lists exactly the ids `/api/history` knows |
| Dashboard.IdSetListed | public/main.js:334 | the set of card ids is the set of listed ids |
| Dashboard.AfterLive | public/main.js:339-341 | a sensor with a live reading is online and shows it with its verdict; one without is OFFLINE and keeps what it showed |
| Dashboard.AfterCycle | public/main.js:338-346 | a completely handled sensor shows its live state and its fetched history |
| Dashboard.AfterCycleIdempotent | public/main.js:338-346 | handling a repeated id again changes nothing |
| Dashboard.Stop | public/main.js:338-348 | the cycle handles sensors up to the first one that was not fetched or has no card |
| Dashboard.OverlayAt | public/main.js:343-344 | per id, the stored history is the fetched one for a listed fetched id, else the old one |
| Dashboard.Overlay | public/main.js:343-344 | the stored histories keep every old id and gain only fetched ones |
| Dashboard.HistoriesAfter | public/main.js:338-348 | the histories after a cycle keep every old id and gain only fetched ones |
| Dashboard.UnfetchedKept | public/main.js:343-344 | a sensor that was not fetched, or is not listed, keeps its presence and its history |
| Dashboard.HistoriesAfterAt | public/main.js:338-348 | after a cycle, a sensor handled before the stop, or the stopping sensor when its history was fetched, holds the fetched history; every other id keeps its presence and its history |
| Dashboard.CycleView | public/main.js:338-347 | a card's view after a cycle: a sensor handled before the stop shows its live state and its fetched list; the stopping sensor gets only the live update; any other view is unchanged |
| Dashboard.LiveViews | public/main.js:339-341 | setOnline and setValue change only that sensor's view |
| Dashboard.Listed | public/main.js:345 | renderHistory changes only that sensor's view |
| Dashboard.DoneAllGrows | public/main.js:338-346 | handling one more sensor is its live update followed by its history list |
| Dashboard.CycleViewsAt | public/main.js:338-348 | a cycle that stops at i is the complete handling of ids[..i] plus the live update of ids[i] |
| Dashboard.CycleViews | public/main.js:338-348 | the views after a cycle cover exactly the cards that have a view, and a card whose id is not listed keeps its view |
| Dashboard.IdSet | public/main.js:334 | every listed sensor's id is among the created ids |
| Dashboard.CreateStop | public/main.js:334 | createCard succeeds for every sensor before the stop, and the sensor at the stop, if any, has no configuration and makes it throw |
| Dashboard.FirstAbortKeepsPageEmpty | public/main.js:334 | when the first listed sensor makes createCard throw, the page is left with no cards and the next refresh aborts creation at the same sensor again |
| Dashboard.CreatedStorage | public/main.js:334 | createCard for a run of sensors only adds storage keys, one CreateWrites per sensor in order |
| Dashboard.CreatedKeepsLoads | public/main.js:43-45 | a run of createCard calls leaves every loaded baseline and drop as it was |
| Dashboard.Dashboard.constructor | public/main.js:35-37 | the page starts with no cards and no histories |
| Dashboard.Dashboard.CreateCards | public/main.js:334 | createCard for the sensors up to the first one without a configuration: one fresh card per such id, each holding the baseline and drop stored before, storage extended by their derived thresholds (CreatedStorage), every view initial; success exactly when no sensor aborted creation |
| Dashboard.Dashboard.AddCard | public/main.js:48-172 | registers a fresh card in its initial view under its id, loaded from the storage before, leaves every other card unchanged, and writes only the derived threshold (CreateWrites) |
| Dashboard.Dashboard.NewCard | public/main.js:48-172 | a fresh card in its initial view for id, loaded from the storage before, with only its derived threshold written to storage; every registered card stays valid |
| Dashboard.Dashboard.Register | public/main.js:165 | `cards.set(id, …)`: the map gains or replaces id, the page stays valid, and initial views stay initial |
| Dashboard.Dashboard.ShowLive | public/main.js:339-341 | the live update of one sensor |
| Dashboard.Dashboard.ShowLiveOn | public/main.js:339-341 | the live update of a sensor that has a card |
| Dashboard.LiveOn | public/main.js:191-212 | setOnline and, when live, setValue give the card the view AfterLive describes |
| Dashboard.Dashboard.ShowHistory | public/main.js:343-346 | stores, lists and draws one fetched history; fails exactly for a sensor without a card |
| Dashboard.Dashboard.ListHistory | public/main.js:345 | renderHistory for one sensor |
| Dashboard.Dashboard.DrawHistory | public/main.js:344-346 | histories.set and drawChart; fails exactly for a sensor without a card |
| Dashboard.Dashboard.Step | public/main.js:339-346 | one loop pass; it goes on exactly when the history was fetched and the card exists |
| Dashboard.Dashboard.Loop | public/main.js:338-347 | the loop stops at the first failure, or after all sensors |
| Dashboard.Dashboard.Advance | public/main.js:338-347 | one pass preserves the loop state, or records where the loop stopped |
| Dashboard.Dashboard.Cycle | public/main.js:338-348 | histories and views after the loop are HistoriesAfter and CycleViews of the fetched answers |
| Dashboard.Dashboard.InitialShown | public/main.js:334 | freshly created cards all show their initial view |
| Dashboard.Dashboard.Setup | public/main.js:332-334 | on an empty page, creates the cards (aborting as CreateCards does); on a page with cards, changes nothing; histories are untouched |
| Dashboard.Dashboard.Refresh | public/main.js:331-352 | no sensor list changes nothing; cards, with their storage writes, are created only on an empty page; a creation abort or a failed live fetch ends the cycle there; otherwise histories and views are those of the cycle (HistoriesAfter, CycleViews) |

## Left out

- I/O and timing: `fetch`, `async`/`await`, `setInterval(refresh, 2000)` and the MQTT connection are left out. The answers of the three endpoints are parameters of `Refresh`. A failed fetch or bad JSON is `None`, or an id missing from the map of fetched histories.
- `/api/live` (`jsonify(latest)`) is not a separate member. `Refresh` takes the live answer as a map, and the hub's `latest` field is the map it serves.
- Flask routing, the static routes, `sw.js` (the offline cache worker), `threading` and `print` logging are left out because they are framework plumbing. The read of `sensors.json` becomes the hub constructor's parameter.
- Hub.Hub.OnMessage: UTF-8 decoding and `json.loads` are a parameter, a decoded `Json` value or `None`. Python's `float()` of a string is the `parse` function. The clock `now_ms()` is the parameter `now`.
- The DOM is left out: innerHTML markup, CSS classes, colours, fonts, line dashes and arcs. A card's visible state is the `CardView` fields, and a chart is a list of abstract draw commands.
- `toLocaleTimeString` is left out, because it depends on the locale. Times stay epoch milliseconds.
- Profiles.Display: JS numbers are IEEE doubles, but the model uses exact reals. So `v * 1000` and the threshold product are exact, with no binary rounding.
- Chart.DrawGrid: the tick loop accumulates `yTick += tick` in floating point. The model accumulates exactly, so the gridline count is the exact one, with the 0.001 slack kept.
- Chart.DrawChart: the `setTransform(DPR, …)` scaling is modelled only through the backing-buffer sizes and the CSS-pixel frame size.
- Storage number conversions: `String(x)` and `Number(s)` for storage are an abstract pair, assumed to round-trip on finite numbers as ECMAScript guarantees. `Number(null)` is modelled concretely as 0.
- Cards.Card.OnUseCurrent: `parseFloat` of the value text is modelled as the number that text shows, which is what `parseFloat("<number><unit>")` returns.
- Cards.Card.RecomputeThreshold: the finiteness tests on `dropPct` (main.js:177) and on `threshold` (main.js:208 and 292) are not modelled as branches. Both values are always finite in this code, so the tests always pass.
- Hub.SelectValue: on a number, boolean or null payload, `"current" in j` raises TypeError outside the `try` and the exception leaves `on_message`; the model returns no value and leaves the hub unchanged, and does not model what the MQTT client does with the exception.
- Profiles.CfgFor: the inherited member that `SENSOR_CONFIG[id]` finds for an id such as `toString` is not modelled as a configuration; the model returns no configuration, which is where createCard throws. The ids covered are the names of `Object.prototype`'s properties.
- Cards.Card.OnBaselineInput, OnDropInput, OnUseCurrent, OnUseAverage and OnResize are modelled per card: the history they draw (`histories.get(id) || []` in the source) is a parameter, and no page-level method calls them with the page's history for that id or re-proves the page invariant after them.
- Dashboard.Dashboard.CreateCards: a repeated id in `/api/sensors` replaces the card in the map. The orphaned DOM section of the first card is not modelled.
