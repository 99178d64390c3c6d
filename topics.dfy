/** MQTT topic names as app.py reads them: Python's `str.split` on '/', and id_from_topic. */
module Topics {

  /** How often c occurs in s: Python's `s.count(c)` for a one-character c. */
  function Count(s: string, c: char): nat
  {
    if s == [] then 0 else (if s[0] == c then 1 else 0) + Count(s[1..], c)
  }

  /** The parts joined with sep between them: Python's `sep.join(parts)`. */
  function Join(parts: seq<string>, sep: char): string
  {
    if |parts| == 0 then []
    else if |parts| == 1 then parts[0]
    else parts[0] + [sep] + Join(parts[1..], sep)
  }

  /** Python's `s.split(sep)`: the pieces between the separators, empty ones included; there is
      always one more piece than separators, no piece holds a separator, and joining the pieces
      gives s back. */
  function Split(s: string, sep: char): (parts: seq<string>)
    ensures |parts| == Count(s, sep) + 1
    ensures forall i :: 0 <= i < |parts| ==> sep !in parts[i]
    ensures Join(parts, sep) == s
    decreases |s|
  {
    if s == [] then [[]]
    else
      var rest := Split(s[1..], sep);
      if s[0] == sep then
        JoinAfterEmpty(rest, sep);
        [[]] + rest
      else
        JoinGrowsFirst(s[0], rest, sep);
        [[s[0]] + rest[0]] + rest[1..]
  }

  lemma JoinAfterEmpty(rest: seq<string>, sep: char)
    requires |rest| >= 1
    ensures Join([[]] + rest, sep) == [sep] + Join(rest, sep)
  {
    assert ([[]] + rest)[1..] == rest;
  }

  lemma JoinGrowsFirst(c: char, rest: seq<string>, sep: char)
    requires |rest| >= 1
    ensures Join([[c] + rest[0]] + rest[1..], sep) == [c] + Join(rest, sep)
  {
    var p := [[c] + rest[0]] + rest[1..];
    if |rest| > 1 {
      assert p[1..] == rest[1..];
    }
  }

  /** A string without the separator is a single piece. */
  lemma {:induction false} SplitWhole(s: string, sep: char)
    requires sep !in s
    ensures Split(s, sep) == [s]
  {
    if s != [] {
      assert sep !in s[1..];
      SplitWhole(s[1..], sep);
    }
  }

  /** Splitting `a + sep + rest`, where a has no separator, gives a and then the pieces of rest. */
  lemma {:induction false} SplitAfter(a: string, sep: char, rest: string)
    requires sep !in a
    ensures Split(a + [sep] + rest, sep) == [a] + Split(rest, sep)
    decreases |a|
  {
    var s := a + [sep] + rest;
    if a == [] {
      assert s[0] == sep && s[1..] == rest;
    } else {
      assert s[0] == a[0] != sep;
      assert s[1..] == a[1..] + [sep] + rest;
      assert sep !in a[1..];
      SplitAfter(a[1..], sep, rest);
      assert [a[0]] + a[1..] == a;
    }
  }

  /** Splitting undoes joining pieces that hold no separator. */
  lemma {:induction false} SplitJoin(parts: seq<string>, sep: char)
    requires |parts| >= 1 && forall i :: 0 <= i < |parts| ==> sep !in parts[i]
    ensures Split(Join(parts, sep), sep) == parts
  {
    if |parts| == 1 {
      SplitWhole(parts[0], sep);
    } else {
      SplitJoin(parts[1..], sep);
      SplitAfter(parts[0], sep, Join(parts[1..], sep));
    }
  }

  /** The id a topic names: the second '/'-separated piece, or "unknown" when there is none. */
  function IdFromTopic(topic: string): (sid: string)
    ensures '/' !in sid
    ensures Count(topic, '/') == 0 ==> sid == "unknown"
  {
    var parts := Split(topic, '/');
    if |parts| >= 2 then parts[1] else "unknown"
  }

  /** The base topic `<prefix>/<id>` names id. */
  lemma IdOfBaseTopic(prefix: string, id: string)
    requires '/' !in prefix && '/' !in id
    ensures IdFromTopic(prefix + "/" + id) == id
  {
    SplitAfter(prefix, '/', id);
    SplitWhole(id, '/');
  }

  /** A deeper topic `<prefix>/<id>/<rest>` names id as well. */
  lemma IdOfDeeperTopic(prefix: string, id: string, rest: string)
    requires '/' !in prefix && '/' !in id
    ensures IdFromTopic(prefix + "/" + id + "/" + rest) == id
  {
    var tail := id + "/" + rest;
    assert prefix + "/" + id + "/" + rest == prefix + "/" + tail;
    SplitAfter(prefix, '/', tail);
    SplitAfter(id, '/', rest);
  }

  /** A topic with exactly one '/' is a base topic `<prefix>/<id>` of the id it names. */
  lemma BaseTopicParts(topic: string)
    requires Count(topic, '/') == 1
    ensures var parts := Split(topic, '/');
      '/' !in parts[0] && topic == parts[0] + "/" + IdFromTopic(topic)
  {
    var parts := Split(topic, '/');
    assert |parts| == 2;
    assert Join(parts[1..], '/') == parts[1];
  }
}
