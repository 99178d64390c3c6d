/** The hub of app.py: what on_message makes of an MQTT message, and the state that
    `/api/sensors` and `/api/history/<sid>` read. The MQTT client, Flask, the disk read of
    sensors.json and the clock stay outside: the topic, the decoded payload, the time and the
    initial sensor list are parameters. */
module Hub {
  import opened Basics
  import opened Topics

  /** `deque(maxlen=50)`: how many entries a sensor's history keeps. */
  const HistoryLength: nat := 50

  /** A decoded JSON document. */
  datatype Json =
    | JNull
    | JBool(b: bool)
    | JNumber(n: real)
    | JString(s: string)
    | JArray(items: seq<Json>)
    | JObject(fields: map<string, Json>)

  /** A stored reading: a float for a "current" payload, an int for an "adc" payload. */
  datatype Value = Float(r: real) | Int(i: int)

  /** `{"t": now_ms, "v": val}`. */
  datatype Entry = Entry(t: int, v: Value)

  /** An element of SENSORS: the "name" key is optional. */
  datatype SensorEntry = SensorEntry(id: string, name: Option<string>)

  /** An element of the `/api/sensors` answer. */
  datatype Listing = Listing(id: string, name: string)

  /** Python's `float(x)` on a decoded JSON value, None where it raises; the parsing of a string
      is `parse`. */
  function PyFloat(j: Json, parse: string -> Option<real>): (r: Option<real>)
    ensures j.JNumber? ==> r == Some(j.n)
    ensures j.JBool? ==> r == Some(if j.b then 1.0 else 0.0)
    ensures j.JString? ==> r == parse(j.s)
    ensures j.JNull? || j.JArray? || j.JObject? ==> r.None?
  {
    match j
    case JNumber(n) => Some(n)
    case JBool(b) => Some(if b then 1.0 else 0.0)
    case JString(s) => parse(s)
    case _ => None
  }

  /** Python's `int(x)` on a float: truncation towards zero. */
  function Trunc(r: real): (i: int)
    ensures 0.0 <= r ==> 0 <= i && i as real <= r < i as real + 1.0
    ensures r < 0.0 ==> i <= 0 && i as real - 1.0 < r <= i as real
  {
    if r >= 0.0 then r.Floor else -((-r).Floor)
  }

  /** Python's `sub in s` on strings: s has sub as a substring. */
  predicate Contains(s: string, sub: string)
    decreases |s|
  {
    sub <= s || (s != [] && Contains(s[1..], sub))
  }

  /** Python's `key in j` where it does not raise: a key of an object, a substring of a string,
      an element of a list. On a number, a boolean or null the test raises TypeError. */
  predicate Has(j: Json, key: string)
  {
    match j
    case JObject(fields) => key in fields
    case JString(s) => Contains(s, key)
    case JArray(items) => JString(key) in items
    case _ => false
  }

  /** `in` raises on these payloads, outside any `try`. */
  predicate InRaises(j: Json)
  {
    j.JNull? || j.JBool? || j.JNumber?
  }

  /** `float(j[key])` inside on_message's `try`: None where the subscript or the conversion
      raises. Only an object can be subscripted by a string key. */
  function Converted(j: Json, key: string, parse: string -> Option<real>): (r: Option<real>)
    ensures !j.JObject? ==> r.None?
    ensures j.JObject? && key in j.fields ==> r == PyFloat(j.fields[key], parse)
  {
    if j.JObject? && key in j.fields then PyFloat(j.fields[key], parse) else None
  }

  /** The value on_message stores for a decoded payload, None where it drops the message:
      when `"current" in j`, `float(j["current"])`, else when `"adc" in j`,
      `int(float(j["adc"]))`, and a subscript or conversion that raises stores zero. So a string
      or list payload that passes the `in` test is stored as zero. A payload on which `in`
      raises yields nothing. */
  function SelectValue(j: Json, parse: string -> Option<real>): (val: Option<Value>)
    ensures val.Some? <==> Has(j, "current") || Has(j, "adc")
    ensures Has(j, "current") ==>
      val == Some(Float(if Converted(j, "current", parse).Some? then Converted(j, "current", parse).value else 0.0))
    ensures !Has(j, "current") && Has(j, "adc") ==>
      val == Some(Int(if Converted(j, "adc", parse).Some? then Trunc(Converted(j, "adc", parse).value) else 0))
    ensures InRaises(j) ==> val.None?
  {
    if Has(j, "current") then
      match Converted(j, "current", parse)
      case Some(r) => Some(Float(r))
      case None => Some(Float(0.0))
    else if Has(j, "adc") then
      match Converted(j, "adc", parse)
      case Some(r) => Some(Int(Trunc(r)))
      case None => Some(Int(0))
    else None
  }

  /** When a payload carries "current", its "adc" key plays no part. */
  lemma CurrentWins(fields: map<string, Json>, parse: string -> Option<real>)
    requires "current" in fields
    ensures SelectValue(JObject(fields), parse) == SelectValue(JObject(fields - {"adc"}), parse)
    ensures SelectValue(JObject(fields), parse).value.Float?
  {
    assert (fields - {"adc"})["current"] == fields["current"];
  }

  /** A string payload that mentions "current", or a list payload holding "adc", passes the
      `in` test, fails the subscript inside the `try`, and is stored as zero. */
  lemma NonObjectPayloadsStoreZero(s: string, items: seq<Json>, parse: string -> Option<real>)
    requires !Has(JArray(items), "current")
    ensures SelectValue(JString("current"), parse) == Some(Float(0.0))
    ensures SelectValue(JString("x" + s + "current"), parse) == Some(Float(0.0))
    ensures SelectValue(JArray(items + [JString("adc")]), parse) == Some(Int(0))
  {
    assert Contains("current", "current");
    ContainsSuffix("x" + s, "current");
    assert JString("adc") in items + [JString("adc")];
    assert JString("current") !in items;
  }

  /** A string ending in sub contains it. */
  lemma {:induction false} ContainsSuffix(p: string, sub: string)
    ensures Contains(p + sub, sub)
    decreases |p|
  {
    if p == [] {
      assert p + sub == sub;
    } else {
      assert (p + sub)[1..] == p[1..] + sub;
      ContainsSuffix(p[1..], sub);
    }
  }

  /** `deque(maxlen=n).append(e)` on a deque that holds q: when it is full the oldest entry
      falls out. */
  function BoundedAppend<T>(q: seq<T>, e: T, n: nat): (r: seq<T>)
    requires 0 < n && |q| <= n
    ensures |r| == if |q| < n then |q| + 1 else n
    ensures r[|r| - 1] == e
  {
    if |q| < n then q + [e] else q[1..] + [e]
  }

  /** A bounded deque that held the last n of s holds the last n of s + [e] after appending e. */
  lemma {:induction false} BoundedAppendWindow<T>(s: seq<T>, e: T, n: nat)
    requires 0 < n
    ensures BoundedAppend(LastN(s, n), e, n) == LastN(s + [e], n)
  {
    var w := LastN(s, n);
    var s' := s + [e];
    if |s| < n {
      assert w == s;
    } else {
      assert w[1..] + [e] == s'[|s'| - n..];
    }
  }

  /** The deque after appending the entries of es, oldest first. */
  function AppendAll<T>(q: seq<T>, es: seq<T>, n: nat): (r: seq<T>)
    requires 0 < n && |q| <= n
    ensures |r| <= n
    decreases |es|
  {
    if es == [] then q else AppendAll(BoundedAppend(q, es[0], n), es[1..], n)
  }

  /** A deque that held the last n of s holds the last n of s + es after es were appended. */
  lemma {:induction false} AppendAllWindow<T>(s: seq<T>, es: seq<T>, n: nat)
    requires 0 < n
    ensures AppendAll(LastN(s, n), es, n) == LastN(s + es, n)
    decreases |es|
  {
    if es != [] {
      AppendFirst(s, es, n);
      AppendAllWindow(s + [es[0]], es[1..], n);
      ShiftFirst(s, es);
    }
  }

  /** Appending the first of es to the last n of s gives the last n of s + [es[0]]. */
  lemma AppendFirst<T>(s: seq<T>, es: seq<T>, n: nat)
    requires 0 < n && es != []
    ensures AppendAll(LastN(s, n), es, n) == AppendAll(LastN(s + [es[0]], n), es[1..], n)
  {
    BoundedAppendWindow(s, es[0], n);
  }

  lemma ShiftFirst<T>(s: seq<T>, es: seq<T>)
    requires es != []
    ensures s + [es[0]] + es[1..] == s + es
  {
  }

  /** A `deque(maxlen=50)` that started empty holds the 50 most recent entries appended to it, in
      the order they arrived. */
  lemma DequeKeepsMostRecent(es: seq<Entry>)
    ensures AppendAll([], es, HistoryLength) == LastN(es, HistoryLength)
  {
    AppendAllWindow([], es, HistoryLength);
    assert [] + es == es;
  }

  /** `all(s["id"] != sid for s in SENSORS)` fails: some entry has that id. */
  predicate Known(sensors: seq<SensorEntry>, sid: string)
  {
    exists i :: 0 <= i < |sensors| && sensors[i].id == sid
  }

  /** The ids SENSORS lists. */
  function SensorIds(sensors: seq<SensorEntry>): (ids: set<string>)
  {
    set i | 0 <= i < |sensors| :: sensors[i].id
  }

  /** An id is listed exactly when it is among the ids of SENSORS. */
  lemma KnownIff(sensors: seq<SensorEntry>, sid: string)
    ensures Known(sensors, sid) <==> sid in SensorIds(sensors)
  {
    if sid in SensorIds(sensors) {
      var i :| 0 <= i < |sensors| && sensors[i].id == sid;
    }
  }

  /** Appending an entry to SENSORS adds its id and nothing else. */
  lemma SensorIdsAppend(sensors: seq<SensorEntry>, e: SensorEntry)
    ensures SensorIds(sensors + [e]) == SensorIds(sensors) + {e.id}
  {
    var s := sensors + [e];
    assert s[|sensors|] == e;
    forall sid | sid in SensorIds(sensors)
      ensures sid in SensorIds(s)
    {
      var i :| 0 <= i < |sensors| && sensors[i].id == sid;
      assert s[i] == sensors[i];
    }
  }

  /** No deque holds more than 50 entries. */
  ghost predicate BoundedOf(history: map<string, seq<Entry>>)
  {
    forall sid | sid in history :: |history[sid]| <= HistoryLength
  }

  /** Each latest entry is the newest entry of its id's deque. */
  ghost predicate LatestOf(latest: map<string, Entry>, history: map<string, seq<Entry>>)
  {
    forall sid | sid in latest :: sid in history && history[sid] != [] && latest[sid] == history[sid][|history[sid]| - 1]
  }

  lemma UpdateTwice<V>(m: map<string, V>, k: string, a: V, b: V)
    ensures m[k := a][k := b] == m[k := b]
  {
  }

  lemma UpdateSame<V>(m: map<string, V>, k: string)
    requires k in m
    ensures m[k := m[k]] == m
  {
  }

  /** The hub invariant on the values of its fields: no deque holds more than 50 entries, each
      latest entry is the newest of its deque, and SENSORS lists exactly the ids that have a deque. */
  ghost predicate Consistent(sensors: seq<SensorEntry>, latest: map<string, Entry>, history: map<string, seq<Entry>>)
  {
    BoundedOf(history) && LatestOf(latest, history) && SensorIds(sensors) == history.Keys
  }

  /** Opening an empty deque for a new id, and listing the id in SENSORS, keeps the invariant;
      the id was not listed before. */
  lemma OpenKeeps(sensors: seq<SensorEntry>, latest: map<string, Entry>, history: map<string, seq<Entry>>, sid: string)
    requires Consistent(sensors, latest, history) && sid !in history
    ensures !Known(sensors, sid)
    ensures Consistent(sensors + [SensorEntry(sid, Some(sid))], latest, history[sid := []])
  {
    var h := history[sid := []];
    forall k | k in latest
      ensures k in h && h[k] != [] && latest[k] == h[k][|h[k]| - 1]
    {
      assert k != sid && h[k] == history[k];
    }
    SensorIdsAppend(sensors, SensorEntry(sid, Some(sid)));
    KnownIff(sensors, sid);
  }

  /** Appending an entry to the deque of a known id keeps the invariant and makes the entry that
      id's latest. */
  lemma AppendKeeps(sensors: seq<SensorEntry>, latest: map<string, Entry>, history: map<string, seq<Entry>>,
                    sid: string, e: Entry)
    requires Consistent(sensors, latest, history) && sid in history
    ensures |history[sid]| <= HistoryLength
    ensures Consistent(sensors, latest[sid := e], history[sid := BoundedAppend(history[sid], e, HistoryLength)])
  {
    var h := history[sid := BoundedAppend(history[sid], e, HistoryLength)];
    assert h.Keys == history.Keys;
  }

  /** `dict.get(k, [])`. */
  function Get<T>(m: map<string, seq<T>>, k: string): (r: seq<T>)
  {
    if k in m then m[k] else []
  }

  /** on_message accepts a message: its topic is a base topic `sensor/<id>`, its payload
      decoded, and the payload carries a reading. */
  predicate Accepted(topic: string, payload: Option<Json>, parse: string -> Option<real>)
  {
    Count(topic, '/') == 1 && payload.Some? && SelectValue(payload.value, parse).Some?
  }

  class Hub {
    var sensors: seq<SensorEntry>              // SENSORS
    var latest: map<string, Entry>             // latest
    var history: map<string, seq<Entry>>       // history, one deque per id
    const parse: string -> Option<real>        // float() of a string

    /** No deque holds more than 50 entries, the latest entry of a sensor is the newest in its
        deque, and SENSORS lists exactly the ids that have a deque. */
    ghost predicate Valid()
      reads this
    {
      Consistent(sensors, latest, history)
    }

    /** Start-up: SENSORS from sensors.json (empty when the file is missing), an empty deque for
        each of its ids, nothing latest. */
    constructor (initial: seq<SensorEntry>, parseFloat: string -> Option<real>)
      ensures Valid() && parse == parseFloat
      ensures sensors == initial && latest == map[]
      ensures history == map i | 0 <= i < |initial| :: initial[i].id := []
    {
      sensors := initial;
      latest := map[];
      history := map i | 0 <= i < |initial| :: initial[i].id := [];
      parse := parseFloat;
    }

    /** The state after entry e was recorded for sid on top of the given earlier state: e is the
        latest entry of sid and was appended to its deque (an empty one for an id that had none),
        and an id that had no deque is appended to SENSORS with its id as its name. */
    ghost predicate Appended(sid: string, e: Entry, latest0: map<string, Entry>,
                             history0: map<string, seq<Entry>>, sensors0: seq<SensorEntry>)
      reads this
    {
      && latest == latest0[sid := e]
      && |Get(history0, sid)| <= HistoryLength
      && history == history0[sid := BoundedAppend(Get(history0, sid), e, HistoryLength)]
      && sensors == if sid in history0 then sensors0 else sensors0 + [SensorEntry(sid, Some(sid))]
    }

    /** on_message for a message on `topic` whose payload decoded to `payload` (None when it is not
        UTF-8 JSON), received at time `now` in milliseconds. A message that is not accepted
        changes nothing; an accepted one becomes the sensor's latest entry and is appended to its
        deque, and an id never seen before gets a deque and an entry in SENSORS named after it. */
    method OnMessage(topic: string, payload: Option<Json>, now: int)
      requires Valid()
      modifies this
      ensures Valid()
      ensures !Accepted(topic, payload, parse) ==> unchanged(this)
      ensures Accepted(topic, payload, parse) ==>
        Appended(IdFromTopic(topic), Entry(now, SelectValue(payload.value, parse).value),
                 old(latest), old(history), old(sensors))
    {
      var sid := IdFromTopic(topic);
      if Count(topic, '/') != 1 {
        return;
      }
      if payload.None? {
        return;
      }
      var val := SelectValue(payload.value, parse);
      if val.None? {
        return;
      }
      Ingest(sid, Entry(now, val.value));
    }

    /** The state update of an accepted message: discovery, then recording. */
    method Ingest(sid: string, e: Entry)
      requires Valid()
      modifies this
      ensures Valid()
      ensures Appended(sid, e, old(latest), old(history), old(sensors))
    {
      Track(sid);
      assert history[sid] == Get(old(history), sid);
      Record(sid, e);
      UpdateTwice(old(history), sid, Get(old(history), sid), history[sid]);
    }

    /** The discovery step of on_message: an id without a deque gets an empty one, and an entry
        in SENSORS named after it unless one is there already. */
    method Track(sid: string)
      requires Valid()
      modifies this
      ensures Valid() && sid in history
      ensures latest == old(latest)
      ensures history == old(history)[sid := Get(old(history), sid)]
      ensures sensors == if sid in old(history) then old(sensors) else old(sensors) + [SensorEntry(sid, Some(sid))]
    {
      if sid !in history {
        OpenKeeps(sensors, latest, history, sid);
        history := history[sid := []];
        if !Known(sensors, sid) {
          sensors := sensors + [SensorEntry(sid, Some(sid))];
        }
      } else {
        UpdateSame(history, sid);
      }
    }

    /** The recording step of on_message: the entry becomes the sensor's latest and is appended
        to its deque. */
    method Record(sid: string, entry: Entry)
      requires Valid() && sid in history
      modifies this
      ensures Valid()
      ensures sensors == old(sensors)
      ensures latest == old(latest)[sid := entry]
      ensures |old(history)[sid]| <= HistoryLength
      ensures history == old(history)[sid := BoundedAppend(old(history)[sid], entry, HistoryLength)]
    {
      AppendKeeps(sensors, latest, history, sid, entry);
      latest := latest[sid := entry];
      history := history[sid := BoundedAppend(history[sid], entry, HistoryLength)];
    }

    /** `/api/sensors`: every element of SENSORS, in order, named by its "name" or else its id. */
    function ApiSensors(): (r: seq<Listing>)
      reads this
      ensures |r| == |sensors|
      ensures forall i :: 0 <= i < |r| ==>
        r[i].id == sensors[i].id && (sensors[i].name.Some? ==> r[i].name == sensors[i].name.value)
      ensures forall i :: 0 <= i < |r| && sensors[i].name.None? ==> r[i].name == r[i].id
    {
      var all := sensors;
      seq(|all|, i requires 0 <= i < |all| =>
        Listing(all[i].id, if all[i].name.Some? then all[i].name.value else all[i].id))
    }

    /** `/api/history/<sid>`: the deque of sid as a list, empty for an id the hub has not seen. */
    function ApiHistory(sid: string): (r: seq<Entry>)
      reads this
      ensures sid !in history ==> r == []
      ensures sid in history ==> r == history[sid]
    {
      Get(history, sid)
    }

    /** The history of a sensor holds at most 50 entries, the newest being its latest entry. */
    lemma HistoryIsRecent(sid: string)
      requires Valid()
      ensures |ApiHistory(sid)| <= HistoryLength
      ensures sid in latest ==> ApiHistory(sid) != [] && ApiHistory(sid)[|ApiHistory(sid)| - 1] == latest[sid]
    {
    }

    /** `/api/sensors` lists exactly the ids `/api/history` knows. */
    lemma ListedIffTracked(sid: string)
      requires Valid()
      ensures (exists i :: 0 <= i < |ApiSensors()| && ApiSensors()[i].id == sid) <==> sid in history
    {
      var r := ApiSensors();
      if sid in history {
        KnownIff(sensors, sid);
        var i :| 0 <= i < |sensors| && sensors[i].id == sid;
        assert r[i].id == sid;
      }
    }
  }
}
