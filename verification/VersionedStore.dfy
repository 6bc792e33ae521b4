/** The versioned in-memory store of hw10: the `Set` rule, what any series of
    `Set` calls does to one key, and the history of the writes to a key. */
module VersionedStore {
  import opened Common

  datatype Entry = Entry(value: string, version: nat)

  type Data = map<string, Entry>

  /** The statuses with which the nodes' handlers answer. */
  datatype Status = Created | Found | BadRequest | MethodNotAllowed | NotFound | Aborted

  /** A write as it travels between nodes. */
  datatype Msg = Msg(key: string, value: string, version: nat)

  function Lookup(data: Data, key: string): Option<Entry> {
    if key in data then Some(data[key]) else None
  }

  /** The version of a key; an absent key counts as version 0. */
  function VersionOf(data: Data, key: string): nat {
    if key in data then data[key].version else 0
  }

  /** Like a Lamport clock, except that the receiver takes max(local + 1, incoming). */
  function NextVersion(local: nat, incoming: int): nat {
    Max(local + 1, incoming)
  }

  function SetEntry(data: Data, key: string, value: string, incoming: int): Data {
    data[key := Entry(value, NextVersion(VersionOf(data, key), incoming))]
  }

  class Store {
    var data: Data

    constructor ()
      ensures data == map[]
    {
      data := map[];
    }

    method Set(key: string, value: string, incomingVersion: int) returns (newVersion: nat)
      modifies this
      ensures data == SetEntry(old(data), key, value, incomingVersion)
      ensures newVersion == VersionOf(data, key) > VersionOf(old(data), key)
    {
      if key !in data {
        if incomingVersion > 0 {
          newVersion := incomingVersion;
        } else {
          newVersion := 1;
        }
      } else {
        var local := data[key].version + 1;
        if incomingVersion > local {
          newVersion := incomingVersion;
        } else {
          newVersion := local;
        }
      }
      data := data[key := Entry(value, newVersion)];
    }

    method Get(key: string) returns (entry: Option<Entry>)
      ensures entry.Some? <==> key in data
      ensures entry.Some? ==> entry.value == data[key]
    {
      if key !in data {
        return None;
      }
      return Some(data[key]);
    }
  }

  // ----- the version after any series of Set calls on one key -----

  /** The version of a key that starts at `start` after `Set` calls with these incoming versions. */
  function VersionAfter(start: nat, incoming: seq<int>): nat {
    if incoming == [] then start
    else NextVersion(VersionAfter(start, incoming[..|incoming| - 1]), incoming[|incoming| - 1])
  }

  /** The version is the maximum of start + k and every v_i + (number of calls after i). */
  lemma {:induction false} ClosedForm(start: nat, incoming: seq<int>)
    ensures VersionAfter(start, incoming) >= start + |incoming|
    ensures forall i :: 0 <= i < |incoming| ==>
              VersionAfter(start, incoming) >= incoming[i] + |incoming| - 1 - i
    ensures VersionAfter(start, incoming) == start + |incoming|
            || exists i :: 0 <= i < |incoming| && VersionAfter(start, incoming) == incoming[i] + |incoming| - 1 - i
  {
    if incoming != [] {
      var front, k := incoming[..|incoming| - 1], |incoming|;
      ClosedForm(start, front);
      assert forall i :: 0 <= i < k - 1 ==> front[i] == incoming[i];
      if VersionAfter(start, incoming) == incoming[k - 1] {
      } else if VersionAfter(start, front) != start + |front| {
        var i :| 0 <= i < |front| && VersionAfter(start, front) == front[i] + |front| - 1 - i;
        assert VersionAfter(start, incoming) == incoming[i] + k - 1 - i;
      }
    }
  }

  /** Every `Set` raises the version, whatever the incoming versions are. */
  lemma {:induction false} VersionsStrictlyIncrease(start: nat, incoming: seq<int>, i: nat, j: nat)
    requires i < j <= |incoming|
    ensures VersionAfter(start, incoming[..i]) < VersionAfter(start, incoming[..j])
    decreases j
  {
    assert incoming[..j][..j - 1] == incoming[..j - 1];
    if i < j - 1 {
      VersionsStrictlyIncrease(start, incoming, i, j - 1);
    }
  }

  // ----- one follower that receives versions 1..n once each, in any order -----

  /** The versions 1..|arrivals|, once each. */
  ghost predicate EachVersionOnce(arrivals: seq<int>) {
    && (forall i :: 0 <= i < |arrivals| ==> 1 <= arrivals[i] <= |arrivals|)
    && (forall i, j :: 0 <= i < j < |arrivals| ==> arrivals[i] != arrivals[j])
  }

  ghost predicate InVersionOrder(arrivals: seq<int>) {
    forall i :: 0 <= i < |arrivals| ==> arrivals[i] == i + 1
  }

  /** Versions that never run ahead of their position are in order. */
  lemma {:induction false} NeverAheadMeansOrdered(arrivals: seq<int>, n: nat)
    requires EachVersionOnce(arrivals) && n <= |arrivals|
    requires forall i :: 0 <= i < |arrivals| ==> arrivals[i] <= i + 1
    ensures forall i :: 0 <= i < n ==> arrivals[i] == i + 1
  {
    if n > 0 {
      var v := arrivals[n - 1];
      assert v < n ==> arrivals[v - 1] != v;
      NeverAheadMeansOrdered(arrivals, n - 1);
    }
  }

  /** The follower ends between n and 2n - 1: at n exactly when the versions came in
      order, at 2n - 1 exactly when the newest came first. */
  lemma FollowerFinalVersion(arrivals: seq<int>)
    requires EachVersionOnce(arrivals) && arrivals != []
    ensures |arrivals| <= VersionAfter(0, arrivals) <= 2 * |arrivals| - 1
    ensures VersionAfter(0, arrivals) == |arrivals| <==> InVersionOrder(arrivals)
    ensures VersionAfter(0, arrivals) == 2 * |arrivals| - 1 <==> arrivals[0] == |arrivals|
  {
    ClosedForm(0, arrivals);
    var n := |arrivals|;
    assert VersionAfter(0, arrivals) >= arrivals[0] + n - 1 - 0;
    if VersionAfter(0, arrivals) == n {
      NeverAheadMeansOrdered(arrivals, n);
    }
  }

  // ----- a node that applies messages in the order of their arrival -----

  /** The store of a node that has applied these messages, first to last. */
  function Replay(arrived: seq<Msg>): Data {
    if arrived == [] then map[]
    else
      var last := arrived[|arrived| - 1];
      SetEntry(Replay(arrived[..|arrived| - 1]), last.key, last.value, last.version)
  }

  /** The versions that arrived for one key, in order. */
  function VersionsFor(arrived: seq<Msg>, key: string): seq<int> {
    if arrived == [] then []
    else
      var last := arrived[|arrived| - 1];
      VersionsFor(arrived[..|arrived| - 1], key) + if last.key == key then [last.version] else []
  }

  /** A node's version for a key is the version loop run on what arrived for that key. */
  lemma {:induction false} ReplayVersion(arrived: seq<Msg>, key: string)
    ensures VersionOf(Replay(arrived), key) == VersionAfter(0, VersionsFor(arrived, key))
  {
    if arrived != [] {
      var front, last := arrived[..|arrived| - 1], arrived[|arrived| - 1];
      ReplayVersion(front, key);
      var versions := VersionsFor(arrived, key);
      if last.key == key {
        assert versions[..|versions| - 1] == VersionsFor(front, key);
      } else {
        assert versions == VersionsFor(front, key);
      }
    }
  }

  /** The messages that arrived for one key, in order. */
  function MessagesFor(arrived: seq<Msg>, key: string): seq<Msg> {
    if arrived == [] then []
    else
      var last := arrived[|arrived| - 1];
      MessagesFor(arrived[..|arrived| - 1], key) + if last.key == key then [last] else []
  }

  lemma {:induction false} VersionsOfMessages(arrived: seq<Msg>, key: string)
    ensures |VersionsFor(arrived, key)| == |MessagesFor(arrived, key)|
    ensures forall i :: 0 <= i < |MessagesFor(arrived, key)| ==>
              MessagesFor(arrived, key)[i].version == VersionsFor(arrived, key)[i] && MessagesFor(arrived, key)[i] in arrived
  {
    if arrived != [] {
      VersionsOfMessages(arrived[..|arrived| - 1], key);
    }
  }

  /** What a node holds for a key: the value that came last, under the version of the loop. */
  function Held(messages: seq<Msg>, version: nat): Option<Entry> {
    if messages == [] then None else Some(Entry(messages[|messages| - 1].value, version))
  }

  lemma {:induction false} ReplayHolds(arrived: seq<Msg>, key: string)
    ensures Lookup(Replay(arrived), key) == Held(MessagesFor(arrived, key), VersionAfter(0, VersionsFor(arrived, key)))
  {
    ReplayVersion(arrived, key);
    if arrived != [] {
      ReplayHolds(arrived[..|arrived| - 1], key);
      hide VersionAfter, VersionsFor;
    }
  }

  /** The messages for the key are the leader's writes 1..n to it, once each. */
  ghost predicate AllWritesOnce(arrived: seq<Msg>, values: seq<string>, key: string) {
    var messages := MessagesFor(arrived, key);
    && |messages| == |values|
    && EachVersionOnce(VersionsFor(arrived, key))
    && (forall i :: 0 <= i < |messages| ==>
          && 1 <= messages[i].version <= |values|
          && messages[i].value == values[messages[i].version - 1])
  }

  /** A follower that received the n writes to a key in some order, with messages of other
      keys in between, ends at a version in n..2n-1, at n exactly if they came in order. It
      holds the value of the write that came last, which is the latest one exactly if that
      write came last, unless an earlier write had the same value. */
  lemma FollowerFidelity(arrived: seq<Msg>, values: seq<string>, key: string)
    requires AllWritesOnce(arrived, values, key) && values != []
    ensures key in Replay(arrived)
    ensures |values| <= Replay(arrived)[key].version <= 2 * |values| - 1
    ensures Replay(arrived)[key].version == |values| <==> InVersionOrder(VersionsFor(arrived, key))
    ensures var messages := MessagesFor(arrived, key);
            Replay(arrived)[key].value == values[messages[|messages| - 1].version - 1]
    ensures (forall i :: 0 <= i < |values| - 1 ==> values[i] != values[|values| - 1]) ==>
              var messages := MessagesFor(arrived, key);
              (Replay(arrived)[key].value == values[|values| - 1] <==> messages[|messages| - 1].version == |values|)
  {
    hide *;
    WritesOnce(arrived, values, key);
    var messages := MessagesFor(arrived, key);
    FollowerFinalVersion(VersionsFor(arrived, key));
    LatestIffLast(messages[|messages| - 1], values);
    HeldOf(arrived, key);
  }

  lemma HeldOf(arrived: seq<Msg>, key: string)
    requires MessagesFor(arrived, key) != []
    ensures var messages := MessagesFor(arrived, key);
            && key in Replay(arrived)
            && Replay(arrived)[key] == Entry(messages[|messages| - 1].value, VersionAfter(0, VersionsFor(arrived, key)))
  {
    ReplayHolds(arrived, key);
    hide VersionAfter, Replay, VersionsFor, MessagesFor;
  }

  lemma WritesOnce(arrived: seq<Msg>, values: seq<string>, key: string)
    requires AllWritesOnce(arrived, values, key)
    ensures EachVersionOnce(VersionsFor(arrived, key))
    ensures |VersionsFor(arrived, key)| == |MessagesFor(arrived, key)| == |values|
    ensures forall m :: m in MessagesFor(arrived, key) ==> 1 <= m.version <= |values| && m.value == values[m.version - 1]
  {
    VersionsOfMessages(arrived, key);
    hide EachVersionOnce, VersionsFor, MessagesFor;
  }

  lemma LatestIffLast(m: Msg, values: seq<string>)
    requires 1 <= m.version <= |values| && m.value == values[m.version - 1]
    ensures (forall i :: 0 <= i < |values| - 1 ==> values[i] != values[|values| - 1]) ==>
              (m.value == values[|values| - 1] <==> m.version == |values|)
  {
    assert m.version != |values| ==> m.version - 1 < |values| - 1;
  }

  /** The messages for the key came in increasing version order. */
  ghost predicate InOrderFor(arrived: seq<Msg>, key: string) {
    forall i, j :: 0 <= i < j < |arrived| && arrived[i].key == key == arrived[j].key
                   ==> arrived[i].version < arrived[j].version
  }

  /** Of each key, no earlier message carries a version as high as a later one. */
  ghost predicate InOrder(arrived: seq<Msg>) {
    forall key :: InOrderFor(arrived, key)
  }

  /** Every message was stored under the version it carried. */
  ghost predicate KeepsIncomingVersions(arrived: seq<Msg>) {
    forall i :: 0 <= i < |arrived| ==>
                  VersionOf(Replay(arrived[..i + 1]), arrived[i].key) == arrived[i].version
  }

  ghost predicate NoVersionTwice(arrived: seq<Msg>) {
    && (forall i :: 0 <= i < |arrived| ==> arrived[i].version >= 1)
    && (forall i, j :: 0 <= i < j < |arrived| && arrived[i].key == arrived[j].key
                       ==> arrived[i].version != arrived[j].version)
  }

  /** The version held is at least every version that arrived for the key. */
  lemma {:induction false} ReplayAtLeast(arrived: seq<Msg>, i: nat)
    requires i < |arrived|
    ensures VersionOf(Replay(arrived), arrived[i].key) >= arrived[i].version
  {
    var front := arrived[..|arrived| - 1];
    if i < |front| {
      ReplayAtLeast(front, i);
    }
  }

  /** In order, a key's version is that of one of the messages that arrived for it. */
  lemma {:induction false} ReplayInOrder(arrived: seq<Msg>, key: string)
    requires InOrderFor(arrived, key)
    requires forall i :: 0 <= i < |arrived| ==> arrived[i].version >= 1
    ensures key in Replay(arrived) ==>
              exists i :: 0 <= i < |arrived| && arrived[i] == Msg(key, Replay(arrived)[key].value, Replay(arrived)[key].version)
  {
    if arrived != [] {
      var front, last := arrived[..|arrived| - 1], arrived[|arrived| - 1];
      ReplayInOrder(front, key);
      if last.key == key {
        if key in Replay(front) {
          var i :| 0 <= i < |front| && front[i] == Msg(key, Replay(front)[key].value, Replay(front)[key].version);
          assert arrived[i].version < last.version;
        }
        assert Replay(arrived)[key] == Entry(last.value, last.version);
        assert arrived[|arrived| - 1] == Msg(key, last.value, last.version);
      } else if key in Replay(front) {
        var i :| 0 <= i < |front| && front[i] == Msg(key, Replay(front)[key].value, Replay(front)[key].version);
        assert arrived[i] == front[i];
      }
    }
  }

  /** The versions listed for a key are those of its messages. */
  lemma {:induction false} VersionIsListed(arrived: seq<Msg>, key: string, v: int)
    ensures v in VersionsFor(arrived, key) <==> exists i :: 0 <= i < |arrived| && arrived[i].key == key && arrived[i].version == v
  {
    if arrived != [] {
      var front, last := arrived[..|arrived| - 1], arrived[|arrived| - 1];
      VersionIsListed(front, key, v);
      if i :| 0 <= i < |front| && front[i].key == key && front[i].version == v {
        assert arrived[i] == front[i];
      }
    }
  }

  ghost predicate Increasing(versions: seq<int>) {
    forall i, j :: 0 <= i < j < |versions| ==> versions[i] < versions[j]
  }

  lemma {:induction false} VersionsIncreaseIffInOrder(arrived: seq<Msg>, key: string)
    ensures Increasing(VersionsFor(arrived, key)) <==> InOrderFor(arrived, key)
  {
    if arrived != [] {
      var front, last := arrived[..|arrived| - 1], arrived[|arrived| - 1];
      VersionsIncreaseIffInOrder(front, key);
      assert arrived == front + [last];
      InOrderSnoc(front, last, key);
      hide InOrderFor;
    }
  }

  lemma IncreasingSnoc(versions: seq<int>, last: int)
    ensures Increasing(versions + [last]) <==> Increasing(versions) && forall v :: v in versions ==> v < last
  {
    var all := versions + [last];
    assert forall i :: 0 <= i < |versions| ==> all[i] == versions[i];
    assert all[|versions|] == last;
    if Increasing(all) {
      forall i, j | 0 <= i < j < |versions| ensures versions[i] < versions[j] {
        assert all[i] < all[j];
      }
      forall v | v in versions ensures v < last {
        var i :| 0 <= i < |versions| && versions[i] == v;
        assert all[i] < all[|versions|];
      }
    }
    if Increasing(versions) && forall v :: v in versions ==> v < last {
      forall i, j | 0 <= i < j < |all| ensures all[i] < all[j] {
        assert all[i] == versions[i] && versions[i] in versions;
      }
    }
  }

  lemma InOrderFront(front: seq<Msg>, last: Msg, key: string)
    requires InOrderFor(front + [last], key)
    ensures InOrderFor(front, key)
    ensures last.key == key ==> forall i :: 0 <= i < |front| && front[i].key == key ==> front[i].version < last.version
  {
    var arrived := front + [last];
    assert forall i :: 0 <= i < |front| ==> front[i] == arrived[i];
    assert arrived[|front|] == last;
  }

  lemma InOrderBack(front: seq<Msg>, last: Msg, key: string)
    requires InOrderFor(front, key)
    requires last.key == key ==> forall i :: 0 <= i < |front| && front[i].key == key ==> front[i].version < last.version
    ensures InOrderFor(front + [last], key)
  {
  }

  /** One more message keeps the order exactly if all messages for its key carry less. */
  lemma InOrderSnoc(front: seq<Msg>, last: Msg, key: string)
    ensures InOrderFor(front + [last], key) <==>
            InOrderFor(front, key) && (last.key == key ==> forall v :: v in VersionsFor(front, key) ==> v < last.version)
    ensures Increasing(VersionsFor(front + [last], key)) <==>
            && Increasing(VersionsFor(front, key))
            && (last.key == key ==> forall v :: v in VersionsFor(front, key) ==> v < last.version)
  {
    assert (front + [last])[..|front|] == front;
    IncreasingSnoc(VersionsFor(front, key), last.version);
    assert VersionsFor(front, key) + [] == VersionsFor(front, key);
    forall i | 0 <= i < |front| && front[i].key == key ensures front[i].version in VersionsFor(front, key) {
      VersionIsListed(front, key, front[i].version);
    }
    forall v | v in VersionsFor(front, key) ensures exists i :: 0 <= i < |front| && front[i].key == key && front[i].version == v {
      VersionIsListed(front, key, v);
    }
    hide InOrderFor, Increasing;
    if InOrderFor(front + [last], key) {
      InOrderFront(front, last, key);
    }
    if InOrderFor(front, key) && (last.key == key ==> forall v :: v in VersionsFor(front, key) ==> v < last.version) {
      InOrderBack(front, last, key);
    }
  }

  /** A follower accepts the incoming versions, as the design says it does, exactly
      when each key's messages reach it in increasing version order. */
  lemma KeepsIncomingVersionsIffInOrder(arrived: seq<Msg>)
    requires NoVersionTwice(arrived)
    ensures KeepsIncomingVersions(arrived) <==> InOrder(arrived)
  {
    if KeepsIncomingVersions(arrived) {
      forall key ensures InOrderFor(arrived, key) {
        forall i, j | 0 <= i < j < |arrived| && arrived[i].key == key == arrived[j].key
          ensures arrived[i].version < arrived[j].version
        {
          ReplayAtLeast(arrived[..j + 1], i);
        }
      }
    }
    if InOrder(arrived) {
      forall i | 0 <= i < |arrived|
        ensures VersionOf(Replay(arrived[..i + 1]), arrived[i].key) == arrived[i].version
      {
        var upTo, key := arrived[..i + 1], arrived[i].key;
        assert InOrderFor(arrived, key);
        ReplayAtLeast(upTo, i);
        ReplayInOrder(upTo, key);
      }
    }
  }

  // ----- the history of a log of writes -----

  /** The values written to a key, oldest first. */
  function Values(log: seq<Msg>, key: string): seq<string> {
    if log == [] then []
    else
      var last := log[|log| - 1];
      Values(log[..|log| - 1], key) + if last.key == key then [last.value] else []
  }

  /** What an atomic register per key holds after these writes. */
  function Register(log: seq<Msg>, key: string): Option<Entry> {
    var values := Values(log, key);
    if values == [] then None else Some(Entry(values[|values| - 1], |values|))
  }

  /** The entry is the version-th write to the key. */
  ghost predicate InHistory(log: seq<Msg>, key: string, entry: Entry) {
    && 1 <= entry.version <= |Values(log, key)|
    && Values(log, key)[entry.version - 1] == entry.value
  }

  /** Each write carries its rank among the writes to its key. */
  ghost predicate Ranked(log: seq<Msg>) {
    forall i :: 0 <= i < |log| ==> log[i].version == |Values(log[..i], log[i].key)| + 1
  }

  /** What one more write does to the history. */
  lemma ValuesSnoc(log: seq<Msg>, m: Msg, key: string)
    ensures Values(log + [m], key) == Values(log, key) + if m.key == key then [m.value] else []
    ensures Values(log, key) <= Values(log + [m], key)
  {
    assert (log + [m])[..|log|] == log;
  }

  lemma RegisterSnoc(log: seq<Msg>, m: Msg, key: string)
    requires m.version == |Values(log, m.key)| + 1
    ensures Register(log + [m], key) == if m.key == key then Some(Entry(m.value, m.version)) else Register(log, key)
  {
    ValuesSnoc(log, m, key);
  }

  lemma RankedSnoc(log: seq<Msg>, m: Msg)
    requires Ranked(log) && m.version == |Values(log, m.key)| + 1
    ensures Ranked(log + [m])
  {
    forall i | 0 <= i < |log| + 1
      ensures (log + [m])[i].version == |Values((log + [m])[..i], (log + [m])[i].key)| + 1
    {
      assert (log + [m])[..i] == log[..i];
    }
  }

  lemma {:induction false} ValuesGrow(log: seq<Msg>, n: nat, key: string)
    requires n <= |log|
    ensures Values(log[..n], key) <= Values(log, key)
  {
    if n == |log| {
      assert log[..n] == log;
    } else {
      ValuesGrow(log[..|log| - 1], n, key);
      assert log[..|log| - 1][..n] == log[..n];
    }
  }

  lemma RankedInHistory(log: seq<Msg>, i: nat)
    requires Ranked(log) && i < |log|
    ensures InHistory(log, log[i].key, Entry(log[i].value, log[i].version))
  {
    ValuesGrow(log, i + 1, log[i].key);
    assert log[..i + 1][..i] == log[..i];
  }

  lemma RankedDistinct(log: seq<Msg>, i: nat, j: nat)
    requires Ranked(log) && i < j < |log| && log[i].key == log[j].key
    ensures log[i].version < log[j].version
  {
    ValuesGrow(log[..j], i + 1, log[i].key);
    assert log[..j][..i + 1] == log[..i + 1];
    assert log[..i + 1][..i] == log[..i];
  }
}
