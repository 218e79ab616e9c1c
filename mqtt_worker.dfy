/**
 * BeiFen/MQTTWorker.cpp: the worker that turns a "key:value,key:value"
 * message into a JSON object of integer fields and hands it to the MQTT
 * client, while its running flag is set. The JSON object is modelled as a
 * map from key to value; its serialisation and the MQTT client are not.
 */
module MqttWorker {
  import opened Wrappers
  import opened Text

  /** The only keys publishMessage copies into the object. */
  const KEYS: set<string> := {"channel", "ir", "red"}

  /**
   * One part of the message: it must split on ':' into exactly two pieces;
   * key and value are trimmed; a known key carries the value as a 32-bit
   * integer, or 0 when the value is not one; any other key is dropped.
   */
  function Entry(part: string): (e: Option<(string, int)>)
    ensures e.Some? ==> e.value.0 in KEYS && INT32_MIN <= e.value.1 <= INT32_MAX
  {
    var kv := Split(part, ':');
    if |kv| != 2 then None
    else
      var key := Trim(kv[0]);
      if key == "channel" || key == "ir" || key == "red" then
        Some((key, match ParseInt(Trim(kv[1])) case Some(v) => v case None => 0))
      else None
  }

  /** The parts of a message: the pieces between commas, empty pieces skipped. */
  function Pairs(message: string): seq<string>
  {
    NonEmpty(Split(message, ','))
  }

  /** The object built from parts ps, inserting in order, so a later part overwrites an earlier one with the same key. */
  function Payload(ps: seq<string>): (m: map<string, int>)
    ensures m.Keys <= KEYS
  {
    if |ps| == 0 then map[]
    else
      var m := Payload(ps[..|ps| - 1]);
      match Entry(ps[|ps| - 1])
        case None => m
        case Some(e) => m[e.0 := e.1]
  }

  /** Part p yields an entry with key k. */
  predicate Carries(p: string, k: string) { Entry(p).Some? && Entry(p).value.0 == k }

  /** A key is in the object iff some part carries it. */
  lemma {:induction false} PayloadHasKey(ps: seq<string>, k: string)
    ensures k in Payload(ps) <==> exists i :: 0 <= i < |ps| && Carries(ps[i], k)
  {
    if |ps| > 0 {
      var init := ps[..|ps| - 1];
      PayloadHasKey(init, k);
      PayloadLastStep(ps, k);
      if k in Payload(ps) {
        if k in Payload(init) {
          var i :| 0 <= i < |init| && Carries(init[i], k);
          assert init[i] == ps[i];
        } else {
          assert Carries(ps[|ps| - 1], k);
        }
      } else {
        forall i | 0 <= i < |ps|
          ensures !Carries(ps[i], k)
        {
          if i < |init| {
            assert init[i] == ps[i];
          }
        }
      }
    }
  }

  /** The last part adds key k iff it carries it. */
  lemma PayloadLastStep(ps: seq<string>, k: string)
    requires |ps| > 0
    ensures k in Payload(ps) <==> k in Payload(ps[..|ps| - 1]) || Carries(ps[|ps| - 1], k)
  {
  }

  /** The value of a key is the one carried by the last part with that key. */
  lemma {:induction false} PayloadLastWins(ps: seq<string>, j: nat, k: string, v: int)
    requires j < |ps| && Entry(ps[j]) == Some((k, v))
    requires forall i :: j < i < |ps| ==> Entry(ps[i]).None? || Entry(ps[i]).value.0 != k
    ensures k in Payload(ps) && Payload(ps)[k] == v
  {
    var init := ps[..|ps| - 1];
    if j < |ps| - 1 {
      assert forall i :: j < i < |init| ==> init[i] == ps[i];
      PayloadLastWins(init, j, k, v);
    }
  }

  /** A part written as key:value with a known key and a 32-bit value reads back as that entry. */
  lemma EntryRoundTrip(key: string, v: int)
    requires key in KEYS && INT32_MIN <= v <= INT32_MAX
    ensures Entry(key + ":" + FormatInt(v)) == Some((key, v))
  {
    var num := FormatInt(v);
    FormatIntClean(v);
    assert key + ":" + num == Join([key, num], ':');
    SplitJoin([key, num], ':');
    TrimOfTrimmed(key);
    TrimOfTrimmed(num);
    ParseFormatInt(v);
  }

  /** A numeral has no colon and no whitespace at its ends. */
  lemma FormatIntClean(v: int)
    ensures |FormatInt(v)| >= 1 && ':' !in FormatInt(v)
    ensures !IsWhiteSpace(FormatInt(v)[0]) && !IsWhiteSpace(FormatInt(v)[|FormatInt(v)| - 1])
  {
    var d := FormatNat(if v < 0 then -v else v);
    assert forall i :: 0 <= i < |d| ==> IsDigit(d[i]);
    if v < 0 {
      assert FormatInt(v) == "-" + d;
      assert forall i :: 1 <= i < |FormatInt(v)| ==> FormatInt(v)[i] == d[i - 1];
    }
  }

  /** A part whose key is known but whose value is not a 32-bit integer yields 0. */
  lemma EntryNotANumber(key: string)
    requires key in KEYS
    ensures Entry(key + ":x") == Some((key, 0))
  {
    assert key + ":x" == Join([key, "x"], ':');
    SplitJoin([key, "x"], ':');
    TrimOfTrimmed(key);
    TrimOfTrimmed("x");
    assert ParseInt("x") == None by { assert !IsDigit('x'); }
  }

  /** One more part: its entry, if any, is inserted into the object of the parts before it. */
  lemma PayloadStep(ps: seq<string>, i: nat)
    requires i < |ps|
    ensures Payload(ps[..i + 1]) ==
      if Entry(ps[i]).Some? then Payload(ps[..i])[Entry(ps[i]).value.0 := Entry(ps[i]).value.1] else Payload(ps[..i])
  {
    assert ps[..i + 1][..i] == ps[..i];
  }

  /** The worker: its running flag and the objects handed to the MQTT client so far. */
  class Worker {
    var running: bool
    var published: seq<map<string, int>>

    /** running starts true and is cleared when connecting to the broker fails. */
    constructor (connected: bool)
      ensures running == connected && published == []
    {
      running := connected;
      published := [];
    }

    /**
     * publishMessage: nothing at all while not running; otherwise one object
     * built from the message's parts, handed to the client whether or not the
     * publish then succeeds.
     */
    method PublishMessage(message: string)
      modifies this`published
      ensures !running ==> published == old(published)
      ensures running ==> published == old(published) + [Payload(Pairs(message))]
    {
      if !running {
        return;
      }
      var pairs := Pairs(message);
      var obj := map[];
      var i := 0;
      while i < |pairs|
        invariant 0 <= i <= |pairs|
        invariant obj == Payload(pairs[..i]) && published == old(published)
      {
        PayloadStep(pairs, i);
        var e := Entry(pairs[i]);
        if e.Some? {
          obj := obj[e.value.0 := e.value.1];
        }
        i := i + 1;
      }
      assert pairs[..|pairs|] == pairs;
      published := published + [obj];
    }

    /** stop: clears running; the disconnect's result changes nothing. */
    method Stop()
      modifies this`running
      ensures !running && published == old(published)
    {
      running := false;
    }
  }
}
