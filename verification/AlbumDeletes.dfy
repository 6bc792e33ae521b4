/** Exactly when the object of a deleted photo can come back in album-store, and runs in
    which numbers repeat. */
module AlbumDeletes {
  import opened Common
  import opened AlbumTables
  import opened AlbumRuns

  /** A worker may still store the object for the record. */
  predicate PendingJob(s: State, key: Key) {
    Unsubmitted(key) in s.stages || key in s.queue || Job(key, Taken) in s.running
  }

  /** An upload of the photo has not stored its object yet: its job is unsubmitted, queued
      or just taken by a worker. */
  ghost predicate UploadPending(s: State, photo: string) {
    exists key: Key :: key.photo == photo && PendingJob(s, key)
  }

  // ----- with no upload pending the object is gone for good -----

  lemma NotPendingStep(c: Config, s: State, e: Event, key: Key)
    requires key.photo in s.usedIDs && !PendingJob(s, key)
    ensures !PendingJob(Next(c, s, e), key)
  {
    StagesMove(c, s, e);
    RunningMoves(c, s, e);
    QueueMoves(c, s, e);
    assert e.WriteRecord? && Enabled(c, s, e) ==> e.photoID !in s.usedIDs;
    hide Next, Enabled;
  }

  lemma QueueMoves(c: Config, s: State, e: Event)
    ensures var queue := Next(c, s, e).queue;
            || queue == s.queue || (s.queue != [] && queue == s.queue[1..])
            || (e.Submit? && e.upload < |s.stages| && s.stages[e.upload].Unsubmitted? && queue == s.queue + [s.stages[e.upload].key])
  {
    hide CountOf, WithAlbum, Incremented, Marked;
  }

  lemma ObjectOnlyFromJob(c: Config, s: State, e: Event, photo: string)
    requires photo !in s.objects && !UploadPending(s, photo)
    ensures photo !in Next(c, s, e).objects
  {
    hide CountOf, WithAlbum, Incremented, Marked;
    if e.StoreObject? && Enabled(c, s, e) {
      assert PendingJob(s, e.job);
    }
  }

  /** No upload of the photo is pending, and none will be. */
  ghost predicate Over(s: State, photo: string) {
    photo in s.usedIDs && !UploadPending(s, photo)
  }

  lemma OverStep(c: Config, s: State, e: Event, photo: string)
    requires Over(s, photo)
    ensures Over(Next(c, s, e), photo)
    ensures photo !in s.objects ==> photo !in Next(c, s, e).objects
  {
    if photo !in s.objects {
      ObjectOnlyFromJob(c, s, e, photo);
    }
    assert photo in Next(c, s, e).usedIDs by {
      hide CountOf, WithAlbum, Incremented, Marked;
    }
    hide Next;
    forall key: Key | key.photo == photo ensures !PendingJob(Next(c, s, e), key) {
      NotPendingStep(c, s, e, key);
    }
  }

  lemma {:induction false} OverStays(c: Config, events: seq<Event>, more: seq<Event>, photo: string)
    requires Over(Run(c, events), photo)
    ensures Over(Run(c, events + more), photo)
    ensures photo !in Run(c, events).objects ==> photo !in Run(c, events + more).objects
  {
    hide Run, Next, Over;
    if more == [] {
      assert events + more == events;
    } else {
      var front, e := more[..|more| - 1], more[|more| - 1];
      OverStays(c, events, front, photo);
      assert events + more == (events + front) + [e];
      RunSnoc(c, events + front, e);
      OverStep(c, Run(c, events + front), e, photo);
    }
  }

  // ----- with an upload pending it can come back -----

  lemma StoreNow(c: Config, s: State, key: Key)
    requires Job(key, Taken) in s.running
    ensures key.photo in Next(c, s, StoreObject(key, Works)).objects
  {
  }

  /** The events with which a worker finishes a job. */
  function Finish(job: Job): seq<Event> {
    match job.work
    case Taken => [StoreObject(job.key, Fails), MarkRecord(job.key, false, Fails)]
    case Stored => [MarkRecord(job.key, true, Fails)]
    case Broken => [MarkRecord(job.key, false, Fails)]
  }

  lemma Marks(c: Config, s: State, key: Key, stored: bool)
    requires Job(key, if stored then Stored else Broken) in s.running
    ensures var t := Next(c, s, MarkRecord(key, stored, Fails));
            && t.running == s.running - multiset{Job(key, if stored then Stored else Broken)}
            && t.stages == s.stages && t.queue == s.queue
  {
  }

  lemma StoreFails(c: Config, s: State, key: Key)
    requires Job(key, Taken) in s.running
    ensures var t := Next(c, s, StoreObject(key, Fails));
            && t.running == s.running - multiset{Job(key, Taken)} + multiset{Job(key, Broken)}
            && t.stages == s.stages && t.queue == s.queue
  {
  }

  lemma Finishes(c: Config, events: seq<Event>, job: Job)
    requires job in Run(c, events).running
    ensures var s, t := Run(c, events), Run(c, events + Finish(job));
            t.running == s.running - multiset{job} && t.stages == s.stages && t.queue == s.queue
  {
    var s := Run(c, events);
    hide Run, Next;
    if job.work == Taken {
      StoreFails(c, s, job.key);
      var t := Next(c, s, StoreObject(job.key, Fails));
      Marks(c, t, job.key, false);
      assert events + Finish(job) == (events + [StoreObject(job.key, Fails)]) + [MarkRecord(job.key, false, Fails)];
      RunSnoc(c, events, StoreObject(job.key, Fails));
      RunSnoc(c, events + [StoreObject(job.key, Fails)], MarkRecord(job.key, false, Fails));
    } else {
      Marks(c, s, job.key, job.work == Stored);
      RunSnoc(c, events, MarkRecord(job.key, job.work == Stored, Fails));
    }
  }

  lemma Takes(c: Config, s: State)
    requires s.queue != [] && |s.running| < c.workers
    ensures var t := Next(c, s, TakeJob);
            t.queue == s.queue[1..] && t.running == s.running + multiset{Job(s.queue[0], Taken)} && t.stages == s.stages
  {
  }

  lemma Submits(c: Config, s: State, u: nat)
    requires u < |s.stages| && s.stages[u].Unsubmitted? && |s.queue| < c.queueDepth
    ensures var t := Next(c, s, Submit(u));
            t.queue == s.queue + [s.stages[u].key] && t.running == s.running && t.stages == s.stages[u := Accepted(s.stages[u].key)]
  {
  }

  /** Workers make room until the job's turn comes. */
  lemma {:induction false} StoreEventually(c: Config, events: seq<Event>, key: Key, u: Option<nat>) returns (more: seq<Event>)
    requires c.workers >= 1 && c.queueDepth >= 1
    requires var s := Run(c, events);
             if u.Some? then u.value < |s.stages| && s.stages[u.value] == Unsubmitted(key)
             else key in s.queue || Job(key, Taken) in s.running
    ensures key.photo in Run(c, events + more).objects
    decreases if u.Some? then 1 else 0, |Run(c, events).queue|, |Run(c, events).running|
  {
    var s := Run(c, events);
    hide Run, Next;
    if u.None? && Job(key, Taken) in s.running {
      StoreNow(c, s, key);
      more := [StoreObject(key, Works)];
      RunSnoc(c, events, more[0]);
    } else if u.Some? && |s.queue| < c.queueDepth {
      Submits(c, s, u.value);
      RunSnoc(c, events, Submit(u.value));
      var t := Run(c, events + [Submit(u.value)]);
      assert t.queue[|s.queue|] == key;
      more := StoreEventually(c, events + [Submit(u.value)], key, None);
      assert events + ([Submit(u.value)] + more) == events + [Submit(u.value)] + more;
      more := [Submit(u.value)] + more;
    } else if |s.running| < c.workers {
      Takes(c, s);
      RunSnoc(c, events, TakeJob);
      assert s.queue == [s.queue[0]] + s.queue[1..];
      more := StoreEventually(c, events + [TakeJob], key, u);
      assert events + ([TakeJob] + more) == events + [TakeJob] + more;
      more := [TakeJob] + more;
    } else {
      var job :| job in s.running;
      Finishes(c, events, job);
      more := StoreEventually(c, events + Finish(job), key, u);
      assert events + (Finish(job) + more) == events + Finish(job) + more;
      more := Finish(job) + more;
    }
  }

  /** When an object can come back. In every run, for every photo whose id was drawn and
      whose object is absent (because a DELETE removed it, for one): the object can be
      stored by some continuation if and only if an upload of the photo is still pending. */
  lemma ObjectReturnsIffPending(c: Config, events: seq<Event>, photo: string)
    requires c.workers >= 1 && c.queueDepth >= 1
    requires photo in Run(c, events).usedIDs && photo !in Run(c, events).objects
    ensures (exists more :: photo in Run(c, events + more).objects) <==> UploadPending(Run(c, events), photo)
  {
    var s := Run(c, events);
    hide Run;
    if key: Key :| key.photo == photo && PendingJob(s, key) {
      var u := None;
      if Unsubmitted(key) in s.stages {
        var i :| 0 <= i < |s.stages| && s.stages[i] == Unsubmitted(key);
        u := Some(i);
      }
      var more := StoreEventually(c, events, key, u);
    }
    if !UploadPending(s, photo) {
      forall more ensures photo !in Run(c, events + more).objects {
        OverStays(c, events, more, photo);
      }
    }
  }

  // ----- the check a caller can make: the photo has left processing -----

  ghost predicate KnownKey(s: State, key: Key) {
    key in s.photos || Jobs(s, key) > 0
  }

  /** A photo id belongs to one record, and a record that left processing awaits no upload. */
  ghost predicate EndedInv(s: State) {
    && (forall k, l :: KnownKey(s, k) && KnownKey(s, l) && k.photo == l.photo ==> k == l)
    && (forall k :: k in s.photos && s.photos[k].status != Processing ==> !PendingJob(s, k))
  }

  lemma PendingIsKnown(s: State, key: Key)
    ensures PendingJob(s, key) ==> KnownKey(s, key)
  {
    assert Unsubmitted(key) in s.stages <==> Unsubmitted(key) in multiset(s.stages);
    assert key in s.queue <==> key in multiset(s.queue);
  }

  lemma KnownIsUsed(s: State, key: Key)
    requires IDsUsed(s) && JobInv(s) && KnownKey(s, key)
    ensures key.photo in s.usedIDs
  {
    assert Jobs(s, key) <= if key.photo in s.usedIDs then 1 else 0;
  }

  lemma KnownStep(c: Config, s: State, e: Event, key: Key)
    requires KnownKey(Next(c, s, e), key)
    ensures KnownKey(s, key) ||
            (Enabled(c, s, e) && e.WriteRecord? && key == Key(s.stages[e.upload].album, e.photoID) && key.photo !in s.usedIDs)
  {
    if Enabled(c, s, e) {
      JobsStep(c, s, e, key);
      hide Jobs;
    }
  }

  /** A record is marked by its only job, which has been through the upload. */
  lemma EndedStep(c: Config, s: State, e: Event, key: Key)
    requires JobInv(s) && IDsUsed(s) && key in Next(c, s, e).photos && Next(c, s, e).photos[key].status != Processing
    requires key in s.photos && s.photos[key].status != Processing ==> !PendingJob(s, key)
    ensures !PendingJob(Next(c, s, e), key)
  {
    EndedByMark(c, s, e, key);
    assert key.photo in s.usedIDs;
    hide Next;
    if !(key in s.photos && s.photos[key].status != Processing) {
      MarkedJobIsAlone(c, s, e, key);
    }
    NotPendingStep(c, s, e, key);
  }

  lemma EndedByMark(c: Config, s: State, e: Event, key: Key)
    requires key in Next(c, s, e).photos && Next(c, s, e).photos[key].status != Processing
    ensures key in s.photos
    ensures s.photos[key].status != Processing || (Enabled(c, s, e) && e.MarkRecord? && e.job == key)
  {
    PhotosMove(c, s, e);
    hide Next, Enabled;
  }

  lemma MarkedJobIsAlone(c: Config, s: State, e: Event, key: Key)
    requires JobInv(s) && Enabled(c, s, e) && e.MarkRecord? && e.job == key
    ensures !PendingJob(s, key)
  {
    assert Jobs(s, key) <= if key.photo in s.usedIDs then 1 else 0;
    assert Unsubmitted(key) in s.stages <==> Unsubmitted(key) in multiset(s.stages);
    assert key in s.queue <==> key in multiset(s.queue);
  }

  lemma EndedInvStep(c: Config, s: State, e: Event)
    requires JobInv(s) && IDsUsed(s) && EndedInv(s)
    ensures EndedInv(Next(c, s, e))
  {
    var t := Next(c, s, e);
    hide Next, KnownKey, JobInv, IDsUsed, PendingJob;
    forall k, l | KnownKey(t, k) && KnownKey(t, l) && k.photo == l.photo ensures k == l {
      KnownStep(c, s, e, k);
      KnownStep(c, s, e, l);
      if KnownKey(s, k) {
        KnownIsUsed(s, k);
      }
      if KnownKey(s, l) {
        KnownIsUsed(s, l);
      }
    }
    forall k | k in t.photos && t.photos[k].status != Processing ensures !PendingJob(t, k) {
      EndedStep(c, s, e, k);
    }
  }

  lemma {:induction false} EndedHolds(c: Config, events: seq<Event>)
    ensures EndedInv(Run(c, events))
  {
    if events != [] {
      EndedHolds(c, events[..|events| - 1]);
      JobsHold(c, events[..|events| - 1]);
      IDsHold(c, events[..|events| - 1]);
      hide EndedInv, JobInv, IDsUsed, Next;
      EndedInvStep(c, Run(c, events[..|events| - 1]), events[|events| - 1]);
    }
  }

  lemma EndedIsOver(c: Config, events: seq<Event>, key: Key)
    requires key in Run(c, events).photos && Run(c, events).photos[key].status != Processing
    ensures Over(Run(c, events), key.photo)
  {
    EndedHolds(c, events);
    IDsHold(c, events);
    hide Run, Jobs, PendingJob;
    var s := Run(c, events);
    assert KnownKey(s, key);
    forall k: Key | k.photo == key.photo ensures !PendingJob(s, k) {
      PendingIsKnown(s, k);
    }
  }

  /** A caller who deletes a photo only once it has left processing deletes its object for
      good: if the object is absent at any later time, it never comes back. */
  lemma {:induction false} DeleteAfterEndIsFinal(c: Config, events: seq<Event>, later: seq<Event>, more: seq<Event>, key: Key)
    requires key in Run(c, events).photos && Run(c, events).photos[key].status != Processing
    requires key.photo !in Run(c, events + later).objects
    ensures key.photo !in Run(c, events + later + more).objects
  {
    EndedIsOver(c, events, key);
    OverStays(c, events, later, key.photo);
    OverStays(c, events + later, more, key.photo);
  }

  // ----- a PUT between two uploads repeats a number -----

  /** The events of an upload that nothing interrupts. */
  function WholeUpload(u: nat, album: string, photoID: string): seq<Event> {
    [BeginUpload(album)] + [TakeSeq(u, Works)] + [WriteRecord(u, photoID, Works)] + [Submit(u)]
  }

  lemma UploadBegins(c: Config, s: State, album: string)
    requires |s.stages| == |s.seqNos| == |s.tickets|
    ensures var u, n := |s.stages|, CountOf(s.albums, album) + 1;
            var t := Next(c, Next(c, s, BeginUpload(album)), TakeSeq(u, Works));
            && t.stages == s.stages + [Numbered(album)] && t.seqNos == s.seqNos + [n] && |t.tickets| == u + 1
            && t.queue == s.queue && t.usedIDs == s.usedIDs && CountOf(t.albums, album) == n
  {
    var t := Next(c, s, BeginUpload(album));
    assert t.stages == s.stages + [Started(album)] && t.seqNos == s.seqNos + [0];
  }

  lemma UploadEnds(c: Config, s: State, u: nat, photoID: string)
    requires |s.stages| == |s.seqNos| == |s.tickets| && u < |s.stages| && s.stages[u].Numbered?
    requires photoID !in s.usedIDs && |s.queue| < c.queueDepth
    ensures var key := Key(s.stages[u].album, photoID);
            var t := Next(c, Next(c, s, WriteRecord(u, photoID, Works)), Submit(u));
            && t.stages == s.stages[u := Accepted(key)] && t.seqNos == s.seqNos && |t.tickets| == |s.tickets|
            && t.queue == s.queue + [key] && t.usedIDs == s.usedIDs + {photoID} && t.albums == s.albums
  {
    var key := Key(s.stages[u].album, photoID);
    var t := Next(c, s, WriteRecord(u, photoID, Works));
    assert t.stages == s.stages[u := Unsubmitted(key)];
    assert t.stages[u := Accepted(key)] == s.stages[u := Accepted(key)];
    hide CountOf, WithAlbum, Incremented, Marked;
  }

  lemma UploadRun(c: Config, events: seq<Event>, album: string, photoID: string) returns (longer: seq<Event>)
    requires var s := Run(c, events);
             |s.stages| == |s.seqNos| == |s.tickets| && photoID !in s.usedIDs && |s.queue| < c.queueDepth
    ensures longer == events + WholeUpload(|Run(c, events).stages|, album, photoID)
    ensures var s, t, key := Run(c, events), Run(c, longer), Key(album, photoID);
            && t.stages == s.stages + [Accepted(key)] && t.seqNos == s.seqNos + [CountOf(s.albums, album) + 1]
            && |t.tickets| == |t.stages| && t.queue == s.queue + [key] && t.usedIDs == s.usedIDs + {photoID}
            && CountOf(t.albums, album) == CountOf(s.albums, album) + 1
  {
    var s, u := Run(c, events), |Run(c, events).stages|;
    var e1, e2, e3 := events + [BeginUpload(album)], events + [BeginUpload(album)] + [TakeSeq(u, Works)],
                      events + [BeginUpload(album)] + [TakeSeq(u, Works)] + [WriteRecord(u, photoID, Works)];
    longer := e3 + [Submit(u)];
    assert longer == events + WholeUpload(u, album, photoID);
    hide Run, Next, CountOf, WholeUpload;
    RunSnoc(c, events, BeginUpload(album));
    RunSnoc(c, e1, TakeSeq(u, Works));
    RunSnoc(c, e2, WriteRecord(u, photoID, Works));
    RunSnoc(c, e3, Submit(u));
    UploadBegins(c, s, album);
    UploadEnds(c, Run(c, e2), u, photoID);
    assert (s.stages + [Numbered(album)])[u := Accepted(Key(album, photoID))] == s.stages + [Accepted(Key(album, photoID))];
  }

  lemma PutResets(c: Config, events: seq<Event>, id: string, album: Album)
    ensures var s, t := Run(c, events), Run(c, events + [PutAlbum(id, album)]);
            && t.stages == s.stages && t.seqNos == s.seqNos && t.tickets == s.tickets
            && t.queue == s.queue && t.usedIDs == s.usedIDs && CountOf(t.albums, id) == 0
  {
    RunSnoc(c, events, PutAlbum(id, album));
    hide Run;
  }

  /** A run in which two accepted uploads to one album both carry the number 1, because the
      album was PUT again between them. */
  lemma PutRepeatsANumber(c: Config, id: string, album: Album) returns (events: seq<Event>)
    requires c.queueDepth >= 2
    ensures var s := Run(c, events);
            && s.stages == [Accepted(Key(id, "first")), Accepted(Key(id, "second"))]
            && s.seqNos == [1, 1]
  {
    assert Run(c, []) == Init();
    hide Run, CountOf;
    assert CountOf(map[], id) == 0 by {
      NoCount(id);
    }
    events := UploadRun(c, [], id, "first");
    PutResets(c, events, id, album);
    events := UploadRun(c, events + [PutAlbum(id, album)], id, "second");
  }

  lemma NoCount(id: string)
    ensures CountOf(map[], id) == 0
  {
  }
}
