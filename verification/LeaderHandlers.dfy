/** The handlers of hw10's leader and followers as they touch a store, and the choice of the
    newest reply to a read. */
module LeaderHandlers {
  import opened Common
  import opened VersionedStore
  import opened PeerQuery
  import opened LeaderFollower

  /** The leader's local part of a write: the request that is then sent to the followers. */
  method HandleSet(store: Store, isPost: bool, key: string, value: string)
    returns (status: Status, request: Option<Msg>)
    modifies store
    ensures status == if !isPost then MethodNotAllowed else if key == "" then BadRequest else Created
    ensures status != Created ==> store.data == old(store.data) && request == None
    ensures status == Created ==>
              && store.data == SetEntry(old(store.data), key, value, 0)
              && request == Some(Msg(key, value, VersionOf(old(store.data), key) + 1))
  {
    if !isPost {
      return MethodNotAllowed, None;
    }
    if key == "" {
      return BadRequest, None;
    }
    var version := store.Set(key, value, 0);
    return Created, Some(Msg(key, value, version));
  }

  /** A follower applies a replication message. */
  method HandleReplicate(store: Store, request: Msg) returns (status: Status)
    modifies store
    ensures status == Created
    ensures store.data == SetEntry(old(store.data), request.key, request.value, request.version)
  {
    var _ := store.Set(request.key, request.value, request.version);
    return Created;
  }

  /** The entries among the leader's own and the followers' replies. */
  function Samples(replies: seq<Option<Entry>>): seq<Entry> {
    if replies == [] then []
    else
      var last := replies[|replies| - 1];
      Samples(replies[..|replies| - 1]) + if last.Some? then [last.value] else []
  }

  /** The answer that `EndRead` gives for some order that `sort.Slice` may produce. */
  ghost predicate AnswersRead(samples: seq<Entry>, answer: Option<Entry>) {
    exists sorted: seq<Entry> :: IsSortOf(sorted, samples) && answer == if sorted == [] then None else Some(sorted[0])
  }

  /** Put an entry behind those of the same or a higher version. */
  method InsertByVersion(sorted: seq<Entry>, entry: Entry) returns (longer: seq<Entry>)
    requires IsDescending(sorted)
    ensures IsDescending(longer) && multiset(longer) == multiset(sorted) + multiset{entry}
  {
    var n := 0;
    while n < |sorted| && sorted[n].version >= entry.version
      invariant n <= |sorted|
      invariant forall i :: 0 <= i < n ==> sorted[i].version >= entry.version
    {
      n := n + 1;
    }
    longer := sorted[..n] + [entry] + sorted[n..];
    Inserted(sorted, n, entry);
  }

  lemma Inserted(sorted: seq<Entry>, n: nat, entry: Entry)
    requires IsDescending(sorted) && n <= |sorted|
    requires forall i :: 0 <= i < n ==> sorted[i].version >= entry.version
    requires n < |sorted| ==> sorted[n].version <= entry.version
    ensures var longer := sorted[..n] + [entry] + sorted[n..];
            IsDescending(longer) && multiset(longer) == multiset(sorted) + multiset{entry}
  {
    var a, b := sorted[..n], sorted[n..];
    assert sorted == a + b;
    forall i | 0 <= i < |a| ensures a[i].version >= entry.version {
      assert a[i] == sorted[i];
    }
    forall i | 0 <= i < |b| ensures b[i].version <= entry.version {
      assert b[i] == sorted[n + i];
    }
    DescendingParts(a, b);
    hide IsDescending;
    DescendingWithin(a, entry, b);
  }

  lemma DescendingParts(a: seq<Entry>, b: seq<Entry>)
    requires IsDescending(a + b)
    ensures IsDescending(a) && IsDescending(b)
  {
    forall i, j | 0 <= i < j < |a| ensures a[i].version >= a[j].version {
      assert a[i] == (a + b)[i] && a[j] == (a + b)[j];
    }
    forall i, j | 0 <= i < j < |b| ensures b[i].version >= b[j].version {
      assert b[i] == (a + b)[|a| + i] && b[j] == (a + b)[|a| + j];
    }
  }

  lemma DescendingWithin(a: seq<Entry>, entry: Entry, b: seq<Entry>)
    requires IsDescending(a) && IsDescending(b)
    requires forall i :: 0 <= i < |a| ==> a[i].version >= entry.version
    requires forall i :: 0 <= i < |b| ==> b[i].version <= entry.version
    ensures IsDescending(a + [entry] + b) && multiset(a + [entry] + b) == multiset(a + b) + multiset{entry}
  {
    var c := a + [entry];
    forall i, j | 0 <= i < j < |c + b| ensures (c + b)[i].version >= (c + b)[j].version {
      if j < |c| {
        assert (c + b)[i] == a[i];
      } else if i < |a| {
        assert (c + b)[i] == a[i] && (c + b)[j] == b[j - |c|];
      } else {
        assert (c + b)[j] == b[j - |c|];
      }
    }
  }

  /** One way to do `sort.Slice` with the newest first. */
  method SortByVersion(samples: seq<Entry>) returns (sorted: seq<Entry>)
    ensures IsSortOf(sorted, samples)
  {
    sorted := [];
    for i := 0 to |samples|
      invariant IsSortOf(sorted, samples[..i])
    {
      sorted := InsertByVersion(sorted, samples[i]);
      assert samples[..i + 1] == samples[..i] + [samples[i]];
    }
    assert samples[..|samples|] == samples;
  }

  /** The reply with the highest version, `replies` being in the order in which they came. */
  method CollectQuorum(replies: seq<Option<Entry>>) returns (newest: Option<Entry>)
    ensures AnswersRead(Samples(replies), newest)
  {
    var results := [];
    for i := 0 to |replies|
      invariant results == Samples(replies[..i])
    {
      if replies[i].Some? {
        results := results + [replies[i].value];
      }
      assert replies[..i + 1][..i] == replies[..i];
    }
    assert replies[..|replies|] == replies;
    var sorted := SortByVersion(results);
    newest := if sorted == [] then None else Some(sorted[0]);
    assert IsSortOf(sorted, Samples(replies));
  }

  /** Ask a follower; it answers for the key that it hears, if the request reaches it. */
  method FetchFromPeer(peer: Store, key: string, reached: bool) returns (reply: Option<Entry>)
    ensures reply == if reached then Reply(peer.data, key) else None
  {
    if !reached || Heard(key).None? {
      return None;
    }
    reply := peer.Get(Heard(key).value);
  }

  /** The replies of the first n followers. */
  ghost function PeerReplies(peers: seq<Store>, key: string, reached: seq<bool>, n: nat): seq<Option<Entry>>
    requires n <= |peers| == |reached|
    reads peers
  {
    seq(n, i requires 0 <= i < n reads peers => if reached[i] then Reply(peers[i].data, key) else None)
  }

  method AskPeers(peers: seq<Store>, key: string, reached: seq<bool>, n: nat) returns (replies: seq<Option<Entry>>)
    requires n <= |peers| == |reached|
    ensures replies == PeerReplies(peers, key, reached, n)
  {
    hide Reply;
    replies := [];
    for i := 0 to n
      invariant replies == PeerReplies(peers, key, reached, i)
    {
      var reply := FetchFromPeer(peers[i], key, reached[i]);
      replies := replies + [reply];
    }
  }

  /** A client read at the leader. In quorum mode with fewer than two followers the handler
      panics and the connection is closed. */
  method HandleGet(store: Store, mode: Mode, key: string, peers: seq<Store>, reached: seq<bool>)
    returns (status: Status, entry: Option<Entry>)
    requires |reached| == |peers|
    ensures status == if key == "" then BadRequest
                      else if mode.Quorum? && |peers| < 2 then Aborted
                      else if entry == None then NotFound else Found
    ensures status == BadRequest || status == Aborted ==> entry == None
    ensures status == Found || status == NotFound ==>
              if mode.W5R1? then entry == Lookup(store.data, key)
              else AnswersRead(Samples([Lookup(store.data, key)]
                                       + PeerReplies(peers, key, reached, if mode.Quorum? then 2 else |peers|)), entry)
  {
    if key == "" {
      return BadRequest, None;
    }
    if mode.Quorum? && |peers| < 2 {
      return Aborted, None;
    }
    entry := store.Get(key);
    if !mode.W5R1? {
      var replies := AskPeers(peers, key, reached, if mode.Quorum? then 2 else |peers|);
      hide AnswersRead, Samples, PeerReplies;
      entry := CollectQuorum([entry] + replies);
    }
    status := if entry == None then NotFound else Found;
  }

  /** Any entry of highest version may be the answer, and no other. */
  lemma AnswersAreNewest(samples: seq<Entry>, answer: Option<Entry>)
    ensures AnswersRead(samples, answer) <==>
            if answer == None then samples == []
            else answer.value in samples && forall i :: 0 <= i < |samples| ==> answer.value.version >= samples[i].version
  {
    if sorted :| IsSortOf(sorted, samples) && answer == if sorted == [] then None else Some(sorted[0]) {
      NewestFirst(samples, sorted);
    }
    if answer == None && samples == [] {
      assert IsSortOf([], samples);
    }
    if answer != None && answer.value in samples
       && forall i :: 0 <= i < |samples| ==> answer.value.version >= samples[i].version {
      var sorted := SortedWithFirst(samples, answer.value);
    }
  }

  lemma SortedWithFirst(samples: seq<Entry>, first: Entry) returns (sorted: seq<Entry>)
    requires first in samples && forall i :: 0 <= i < |samples| ==> first.version >= samples[i].version
    ensures IsSortOf(sorted, samples) && sorted != [] && sorted[0] == first
  {
    var k :| 0 <= k < |samples| && samples[k] == first;
    var others := samples[..k] + samples[k + 1..];
    assert samples == samples[..k] + [first] + samples[k + 1..];
    var rest := SortExists(others);
    sorted := [first] + rest;
    forall i | 0 <= i < |rest| ensures first.version >= rest[i].version {
      assert rest[i] in multiset(others);
      assert rest[i] in samples;
    }
  }

  lemma {:induction false} SortExists(samples: seq<Entry>) returns (sorted: seq<Entry>)
    ensures IsSortOf(sorted, samples)
  {
    if samples == [] {
      sorted := [];
    } else {
      var before, last := samples[..|samples| - 1], samples[|samples| - 1];
      assert samples == before + [last];
      var front := SortExists(before);
      var n := PlaceFor(front, last.version);
      sorted := front[..n] + [last] + front[n..];
      Inserted(front, n, last);
    }
  }

  lemma {:induction false} PlaceFor(sorted: seq<Entry>, version: int) returns (n: nat)
    requires IsDescending(sorted)
    ensures n <= |sorted|
    ensures forall i :: 0 <= i < n ==> sorted[i].version >= version
    ensures n < |sorted| ==> sorted[n].version <= version
  {
    if sorted == [] || sorted[|sorted| - 1].version >= version {
      n := |sorted|;
    } else {
      n := PlaceFor(sorted[..|sorted| - 1], version);
    }
  }
}
