/**
 * The MQTT message handler of mqtt_handler.py: a reading published on
 * "pico/<prop>/<name>" is saved at most once per five seconds per
 * (name, prop), throttled through the module-level `last_save_time` dict.
 *
 * The clock (`time.time()`) is the parameter `now`; `float(payload.decode())`
 * is the parameter `parseFloat`, None where decoding or parsing raises; the
 * database write is reported in the outcome, with its success a parameter.
 */
module MqttHandler {
  import opened Wrappers

  // ---------------------------------------------------------------------------
  // str.split and its inverse str.join
  // ---------------------------------------------------------------------------

  /** `s.split(sep)`: the pieces between separators, empty ones included. */
  function Split(s: string, sep: char): (parts: seq<string>)
    ensures |parts| >= 1
    decreases |s|
  {
    if s == [] then [[]]
    else
      var rest := Split(s[1..], sep);
      if s[0] == sep then [[]] + rest else [[s[0]] + rest[0]] + rest[1..]
  }

  /** `sep.join(parts)`. */
  function Join(parts: seq<string>, sep: char): string
    requires |parts| >= 1
  {
    if |parts| == 1 then parts[0] else parts[0] + [sep] + Join(parts[1..], sep)
  }

  lemma {:induction false} JoinSplit(s: string, sep: char)
    ensures Join(Split(s, sep), sep) == s
    decreases |s|
  {
    if s != [] {
      var rest := Split(s[1..], sep);
      JoinSplit(s[1..], sep);
      if s[0] == sep {
        assert Split(s, sep)[1..] == rest;
      } else if |rest| == 1 {
        assert Join(Split(s, sep), sep) == [s[0]] + rest[0];
      } else {
        assert Split(s, sep)[1..] == rest[1..];
        assert Join(rest, sep) == rest[0] + [sep] + Join(rest[1..], sep);
      }
    }
  }

  /** A piece without separators followed by a separator splits off as one part. */
  lemma {:induction false} SplitAfterPiece(a: string, b: string, sep: char)
    requires sep !in a
    ensures Split(a + [sep] + b, sep) == [a] + Split(b, sep)
    decreases |a|
  {
    if a == [] {
      assert [sep] + b == a + [sep] + b;
      assert ([sep] + b)[1..] == b;
    } else {
      SplitAfterPiece(a[1..], b, sep);
      assert (a + [sep] + b)[1..] == a[1..] + [sep] + b;
      assert [a[0]] + a[1..] == a;
    }
  }

  lemma {:induction false} SplitPiece(a: string, sep: char)
    requires sep !in a
    ensures Split(a, sep) == [a]
    decreases |a|
  {
    if a != [] {
      SplitPiece(a[1..], sep);
      assert [a[0]] + a[1..] == a;
    }
  }

  /** Joining pieces that hold no separator and splitting again gives the pieces back. */
  lemma {:induction false} SplitJoin(parts: seq<string>, sep: char)
    requires |parts| >= 1
    requires forall i :: 0 <= i < |parts| ==> sep !in parts[i]
    ensures Split(Join(parts, sep), sep) == parts
  {
    if |parts| == 1 {
      SplitPiece(parts[0], sep);
    } else {
      SplitJoin(parts[1..], sep);
      SplitAfterPiece(parts[0], Join(parts[1..], sep), sep);
      assert [parts[0]] + parts[1..] == parts;
    }
  }

  /** There are at least two parts exactly when the separator occurs. */
  lemma {:induction false} SplitHasTwoParts(s: string, sep: char)
    ensures |Split(s, sep)| >= 2 <==> sep in s
    decreases |s|
  {
    if s != [] {
      SplitHasTwoParts(s[1..], sep);
      assert s == [s[0]] + s[1..];
    }
  }

  // ---------------------------------------------------------------------------
  // The throttle, as a function of the state
  // ---------------------------------------------------------------------------

  /** The throttle window, in seconds. */
  const SaveInterval: real := 5.0

  /** A throttle key: (name, prop). */
  type Key = (string, string)

  /** `prop, name = parts[-2], parts[-1]`, as the key (name, prop); None where the indexing raises. */
  function TopicKey(topic: string): Option<Key> {
    var parts := Split(topic, '/');
    if |parts| < 2 then None else Some((parts[|parts| - 1], parts[|parts| - 2]))
  }

  /** A topic has a key exactly when it contains a '/'. */
  lemma TopicKeyNone(topic: string)
    ensures TopicKey(topic).None? <==> '/' !in topic
  {
    SplitHasTwoParts(topic, '/');
  }

  /** A topic made of '/'-free segments has its last segment as name and the one before it as prop. */
  lemma TopicKeyOfSegments(segments: seq<string>)
    requires |segments| >= 2 && forall i :: 0 <= i < |segments| ==> '/' !in segments[i]
    ensures TopicKey(Join(segments, '/')) == Some((segments[|segments| - 1], segments[|segments| - 2]))
  {
    SplitJoin(segments, '/');
  }

  /** What one message leads to; the save itself may then fail. */
  datatype Outcome =
    | Malformed
    | Throttled
    | Saved(name: string, prop: string, value: real)
    | SaveFailed(name: string, prop: string, value: real)

  /** `last_save_time.get(key, 0)`. */
  function LastSave(last: map<Key, real>, key: Key): real {
    if key in last then last[key] else 0.0
  }

  /** The new `last_save_time` and the decision for one message. */
  function Step(last: map<Key, real>, topic: string, payload: seq<bv8>, now: real,
                parseFloat: seq<bv8> -> Option<real>): (map<Key, real>, Outcome)
  {
    match TopicKey(topic)
    case None => (last, Malformed)
    case Some(key) =>
      match parseFloat(payload)
      case None => (last, Malformed)
      case Some(val) =>
        if now - LastSave(last, key) < SaveInterval then (last, Throttled)
        else (last[key := now], Saved(key.0, key.1, val))
  }

  /**
   * A malformed or throttled message changes nothing; a message is saved
   * exactly when its key is well formed, the payload parses and five seconds
   * have passed since the key's last save (time 0 if none), and then only that
   * key's time changes, to `now`.
   */
  lemma StepSpec(last: map<Key, real>, topic: string, payload: seq<bv8>, now: real, parseFloat: seq<bv8> -> Option<real>)
    ensures var (next, o) := Step(last, topic, payload, now, parseFloat);
      && (o.Malformed? <==> TopicKey(topic).None? || parseFloat(payload).None?)
      && (!o.Saved? ==> next == last)
      && (o.Saved? <==>
            TopicKey(topic).Some? && parseFloat(payload).Some? &&
            now - LastSave(last, TopicKey(topic).value) >= SaveInterval)
      && (o.Saved? ==>
            && (o.name, o.prop) == TopicKey(topic).value && o.value == parseFloat(payload).value
            && next == last[(o.name, o.prop) := now]
            && forall k :: k != (o.name, o.prop) ==> (k in next <==> k in last) && (k in last ==> next[k] == last[k]))
  {
  }

  /** Keys are throttled independently: only the message's own key's time matters. */
  lemma KeysIndependent(last1: map<Key, real>, last2: map<Key, real>, topic: string, payload: seq<bv8>, now: real,
                        parseFloat: seq<bv8> -> Option<real>)
    requires TopicKey(topic).Some? ==> LastSave(last1, TopicKey(topic).value) == LastSave(last2, TopicKey(topic).value)
    ensures Step(last1, topic, payload, now, parseFloat).1 == Step(last2, topic, payload, now, parseFloat).1
  {
  }

  // ---------------------------------------------------------------------------
  // A run of messages
  // ---------------------------------------------------------------------------

  datatype Message = Message(topic: string, payload: seq<bv8>, now: real)

  /** `last_save_time` after the messages, in order. */
  function Run(last: map<Key, real>, msgs: seq<Message>, parseFloat: seq<bv8> -> Option<real>): map<Key, real> {
    if msgs == [] then last
    else
      var m := msgs[|msgs| - 1];
      Step(Run(last, msgs[..|msgs| - 1], parseFloat), m.topic, m.payload, m.now, parseFloat).0
  }

  /** The decision for message `k` of a run. */
  function OutcomeAt(last: map<Key, real>, msgs: seq<Message>, k: nat, parseFloat: seq<bv8> -> Option<real>): Outcome
    requires k < |msgs|
  {
    Step(Run(last, msgs[..k], parseFloat), msgs[k].topic, msgs[k].payload, msgs[k].now, parseFloat).1
  }

  predicate SavedKey(o: Outcome, key: Key) {
    o.Saved? && (o.name, o.prop) == key
  }

  lemma RunPrefix(last: map<Key, real>, msgs: seq<Message>, k: nat, parseFloat: seq<bv8> -> Option<real>)
    requires k < |msgs|
    ensures Run(last, msgs[..k + 1], parseFloat) ==
            Step(Run(last, msgs[..k], parseFloat), msgs[k].topic, msgs[k].payload, msgs[k].now, parseFloat).0
  {
    assert msgs[..k + 1][..k] == msgs[..k];
  }

  /** Between two saves of a key, its recorded time stays that of the first. */
  lemma {:induction false} TimeHeldUntilNextSave(last: map<Key, real>, msgs: seq<Message>, parseFloat: seq<bv8> -> Option<real>,
                                                 key: Key, i: nat, j: nat)
    requires i < j <= |msgs|
    requires SavedKey(OutcomeAt(last, msgs, i, parseFloat), key)
    requires forall k :: i < k < j ==> !SavedKey(OutcomeAt(last, msgs, k, parseFloat), key)
    ensures LastSave(Run(last, msgs[..j], parseFloat), key) == msgs[i].now
    decreases j - i
  {
    if j == i + 1 {
      RunPrefix(last, msgs, i, parseFloat);
    } else {
      TimeHeldUntilNextSave(last, msgs, parseFloat, key, i, j - 1);
      RunPrefix(last, msgs, j - 1, parseFloat);
      var m := msgs[j - 1];
      var before := Run(last, msgs[..j - 1], parseFloat);
      assert !SavedKey(OutcomeAt(last, msgs, j - 1, parseFloat), key);
      StepSpec(before, m.topic, m.payload, m.now, parseFloat);
      assert LastSave(Step(before, m.topic, m.payload, m.now, parseFloat).0, key) == LastSave(before, key);
    }
  }

  /** Consecutive saves of the same (name, prop) are at least five seconds apart. */
  lemma ConsecutiveSavesSpaced(last: map<Key, real>, msgs: seq<Message>, parseFloat: seq<bv8> -> Option<real>,
                               key: Key, i: nat, j: nat)
    requires i < j < |msgs|
    requires SavedKey(OutcomeAt(last, msgs, i, parseFloat), key)
    requires SavedKey(OutcomeAt(last, msgs, j, parseFloat), key)
    requires forall k :: i < k < j ==> !SavedKey(OutcomeAt(last, msgs, k, parseFloat), key)
    ensures msgs[j].now - msgs[i].now >= SaveInterval
  {
    TimeHeldUntilNextSave(last, msgs, parseFloat, key, i, j);
    var m := msgs[j];
    StepSpec(Run(last, msgs[..j], parseFloat), m.topic, m.payload, m.now, parseFloat);
  }

  // ---------------------------------------------------------------------------
  // The handler
  // ---------------------------------------------------------------------------

  class Handler {
    /** `last_save_time`. */
    var lastSaveTime: map<Key, real>

    constructor()
      ensures lastSaveTime == map[]
    {
      lastSaveTime := map[];
    }

    /**
     * `on_message`. The time is recorded before the save is attempted, so a
     * failing save leaves the same state as a successful one.
     */
    method OnMessage(topic: string, payload: seq<bv8>, now: real, parseFloat: seq<bv8> -> Option<real>, saveSucceeds: bool)
      returns (o: Outcome)
      modifies this
      ensures lastSaveTime == Step(old(lastSaveTime), topic, payload, now, parseFloat).0
      ensures var decided := Step(old(lastSaveTime), topic, payload, now, parseFloat).1;
        o == if decided.Saved? && !saveSucceeds then SaveFailed(decided.name, decided.prop, decided.value) else decided
    {
      var parts := Split(topic, '/');
      if |parts| < 2 {
        return Malformed;
      }
      var prop, name := parts[|parts| - 2], parts[|parts| - 1];
      var parsed := parseFloat(payload);
      if parsed.None? {
        return Malformed;
      }
      var val := parsed.value;
      var previous := if (name, prop) in lastSaveTime then lastSaveTime[(name, prop)] else 0.0;
      if now - previous < SaveInterval {
        return Throttled;
      }
      lastSaveTime := lastSaveTime[(name, prop) := now];
      if saveSucceeds {
        o := Saved(name, prop, val);
      } else {
        o := SaveFailed(name, prop, val);
      }
    }
  }
}
