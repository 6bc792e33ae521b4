/** What the albums and the photo records of album-store hold in every run, and the steps of a
    run put together to whole requests. */
module AlbumContents {
  import opened Common
  import opened AlbumTables
  import opened AlbumRuns

  // ----- an album is as it was last PUT -----

  /** The event PUTs the album, and no later one does. */
  predicate IsLastPut(events: seq<Event>, id: string, album: Album, i: nat) {
    && i < |events| && events[i] == PutAlbum(id, album)
    && forall j :: i < j < |events| && events[j].PutAlbum? ==> events[j].id != id
  }

  lemma AlbumStep(c: Config, s: State, e: Event, id: string)
    ensures AlbumData(Next(c, s, e).albums, id) == if e.PutAlbum? && e.id == id then Some(e.album) else AlbumData(s.albums, id)
  {
    hide CountOf, Marked, PhotoURL;
  }

  lemma LastPutStep(events: seq<Event>, e: Event, id: string, album: Album)
    ensures (exists i :: IsLastPut(events + [e], id, album, i)) <==>
            if e.PutAlbum? && e.id == id then e.album == album else exists i :: IsLastPut(events, id, album, i)
  {
    var longer := events + [e];
    assert longer[|events|] == e;
    if e == PutAlbum(id, album) {
      assert IsLastPut(longer, id, album, |events|);
    } else if !(e.PutAlbum? && e.id == id) {
      if i: nat :| IsLastPut(longer, id, album, i) {
        assert forall j :: 0 <= j < |events| ==> events[j] == longer[j];
        assert IsLastPut(events, id, album, i);
      }
      if i: nat :| IsLastPut(events, id, album, i) {
        assert IsLastPut(longer, id, album, i);
      }
    }
  }

  /** In every run the table holds an album's data if and only if they are those of its last
      PUT, whatever uploads counted in between. */
  lemma {:induction false} AlbumIsItsLastPut(c: Config, events: seq<Event>, id: string, album: Album)
    ensures var albums := Run(c, events).albums;
            (id in albums && albums[id].album == Some(album)) <==> exists i :: IsLastPut(events, id, album, i)
  {
    if events != [] {
      var front, e := events[..|events| - 1], events[|events| - 1];
      AlbumIsItsLastPut(c, front, id, album);
      AlbumStep(c, Run(c, front), e, id);
      assert events == front + [e];
      LastPutStep(front, e, id, album);
      hide Next, IsLastPut;
    }
  }

  // ----- a completed record points to its own object -----

  lemma URLWrittenOut(c: Config, photo: string)
    ensures PhotoURL(c, photo) == "https://" + c.bucket + ".s3." + c.region + ".amazonaws.com/photos/" + photo
  {
    assert ".amazonaws.com/" + "photos/" == ".amazonaws.com/photos/";
    var host := "https://" + c.bucket + ".s3." + c.region;
    assert host + ".amazonaws.com/" + ("photos/" + photo) == host + (".amazonaws.com/" + "photos/") + photo;
  }

  ghost predicate URLInv(c: Config, s: State) {
    forall k :: k in s.photos ==>
      s.photos[k].url == if s.photos[k].status == Completed then PhotoURL(c, k.photo) else ""
  }

  lemma URLStep(c: Config, s: State, e: Event)
    requires URLInv(c, s)
    ensures URLInv(c, Next(c, s, e))
  {
    PhotosMove(c, s, e);
    hide Next, Enabled, PhotoURL;
  }

  lemma {:induction false} URLsHold(c: Config, events: seq<Event>)
    ensures URLInv(c, Run(c, events))
  {
    if events != [] {
      URLsHold(c, events[..|events| - 1]);
      URLStep(c, Run(c, events[..|events| - 1]), events[|events| - 1]);
    }
  }

  /** In every run a completed record carries the address of its own object, and any other
      record carries none. */
  lemma {:induction false} CompletedCarriesItsURL(c: Config, events: seq<Event>, key: Key)
    requires key in Run(c, events).photos
    ensures var photo := Run(c, events).photos[key];
            photo.url == if photo.status == Completed
                         then "https://" + c.bucket + ".s3." + c.region + ".amazonaws.com/photos/" + key.photo else ""
  {
    URLsHold(c, events);
    URLWrittenOut(c, key.photo);
    hide Run, PhotoURL;
  }

  // ----- a record carries the number of its upload -----

  predicate Writes(stage: Stage, key: Key) {
    stage == Unsubmitted(key) || stage == Accepted(key)
  }

  /** An upload that wrote a record drew its id, and the record has the upload's number. */
  ghost predicate NumberInv(s: State) {
    && |s.stages| == |s.seqNos| == |s.tickets|
    && forall u: nat, key :: u < |s.stages| && Writes(s.stages[u], key) ==>
         key.photo in s.usedIDs && (key in s.photos ==> s.photos[key].seqNo == s.seqNos[u])
  }

  /** An upload has written its record before the step, or writes it now. */
  lemma WriterStep(c: Config, s: State, e: Event, u: nat, key: Key)
    requires |s.stages| == |s.seqNos| == |s.tickets|
    requires u < |Next(c, s, e).stages| && Writes(Next(c, s, e).stages[u], key)
    ensures u < |s.stages|
    ensures || (Writes(s.stages[u], key) && !(e.TakeSeq? && e.upload == u && Enabled(c, s, e)))
            || (e.WriteRecord? && e.upload == u && Enabled(c, s, e) && key == Key(s.stages[u].album, e.photoID))
  {
    StagesMove(c, s, e);
    assert e.TakeSeq? && Enabled(c, s, e) ==> s.stages[e.upload].Started?;
    assert e.Submit? && Enabled(c, s, e) ==> s.stages[e.upload].Unsubmitted?;
    hide Next;
  }

  lemma NumberKept(c: Config, s: State, e: Event, u: nat)
    requires |s.stages| == |s.seqNos| == |s.tickets| && u < |s.stages|
    requires !(e.TakeSeq? && e.upload == u && Enabled(c, s, e))
    ensures |Next(c, s, e).seqNos| >= |s.seqNos| && Next(c, s, e).seqNos[u] == s.seqNos[u]
  {
    hide CountOf, WithAlbum, Incremented, Marked, PhotoURL;
  }

  lemma NumberStep(c: Config, s: State, e: Event, u: nat, key: Key)
    requires NumberInv(s) && IDsUsed(s)
    requires u < |Next(c, s, e).stages| && Writes(Next(c, s, e).stages[u], key)
    ensures var t := Next(c, s, e);
            && |t.stages| == |t.seqNos| && key.photo in t.usedIDs
            && (key in t.photos ==> t.photos[key].seqNo == t.seqNos[u])
  {
    LengthsStep(c, s, e);
    WriterStep(c, s, e, u, key);
    NumberKept(c, s, e, u);
    UsedStep(c, s, e);
    PhotosMove(c, s, e);
    assert e.WriteRecord? && Enabled(c, s, e) ==> e.photoID !in s.usedIDs;
    hide Next, Enabled, PhotoURL;
  }

  lemma NumbersStep(c: Config, s: State, e: Event)
    requires NumberInv(s) && IDsUsed(s)
    ensures NumberInv(Next(c, s, e))
  {
    LengthsStep(c, s, e);
    hide Next, IDsUsed, Writes;
    var t := Next(c, s, e);
    forall u: nat, key | u < |t.stages| && Writes(t.stages[u], key)
      ensures key.photo in t.usedIDs && (key in t.photos ==> t.photos[key].seqNo == t.seqNos[u]) {
      NumberStep(c, s, e, u, key);
    }
  }

  lemma {:induction false} NumbersHold(c: Config, events: seq<Event>)
    ensures NumberInv(Run(c, events))
  {
    if events != [] {
      NumbersHold(c, events[..|events| - 1]);
      IDsHold(c, events[..|events| - 1]);
      hide NumberInv, IDsUsed, Next;
      NumbersStep(c, Run(c, events[..|events| - 1]), events[|events| - 1]);
    }
  }

  /** In every run the record of an upload that was accepted, if not deleted, carries the number
      that the upload's own increment of the album's counter answered. */
  lemma RecordsCarryTheirNumbers(c: Config, events: seq<Event>, u: nat, key: Key)
    requires u < |Run(c, events).stages| && Run(c, events).stages[u] == Accepted(key) && key in Run(c, events).photos
    ensures var s := Run(c, events);
            && u < |s.tickets| && s.tickets[u].Some? && s.tickets[u].value < |s.counts|
            && s.counts[s.tickets[u].value] == Inc(key.album, s.photos[key].seqNo)
  {
    NumbersHold(c, events);
    TicketsHold(c, events);
    hide Run;
    assert Writes(Run(c, events).stages[u], key) && Ticketed(Run(c, events), u);
  }

  // ----- the queue and the pool are bounded -----

  lemma PoolStep(c: Config, s: State, e: Event)
    requires |s.queue| <= c.queueDepth && |s.running| <= c.workers
    ensures |Next(c, s, e).queue| <= c.queueDepth && |Next(c, s, e).running| <= c.workers
  {
    hide CountOf, WithAlbum, Incremented, Marked, PhotoURL;
  }

  /** In every run no more jobs wait than the queue is deep, and no more are under way than
      there are workers. */
  lemma {:induction false} PoolBounded(c: Config, events: seq<Event>)
    ensures |Run(c, events).queue| <= c.queueDepth && |Run(c, events).running| <= c.workers
  {
    if events != [] {
      PoolBounded(c, events[..|events| - 1]);
      PoolStep(c, Run(c, events[..|events| - 1]), events[|events| - 1]);
    }
  }

  // ----- calls that report an error -----

  /** A call whose error hides that it took effect does to the tables and the bucket what one that
      works does, and one that fails does nothing. */
  ghost predicate HidesEffect(c: Config, s: State, works: Event, unsure: Event, fails: Event) {
    var t, u, v := Next(c, s, works), Next(c, s, unsure), Next(c, s, fails);
    && u.albums == t.albums && u.photos == t.photos && u.objects == t.objects
    && v.albums == s.albums && v.photos == s.photos && v.objects == s.objects
  }

  lemma Disabled(c: Config, s: State, e: Event)
    requires !Enabled(c, s, e)
    ensures Next(c, s, e) == s
  {
  }

  lemma NumberHidesEffect(c: Config, s: State, u: nat)
    ensures HidesEffect(c, s, TakeSeq(u, Works), TakeSeq(u, Unsure), TakeSeq(u, Fails))
  {
    hide CountOf, WithAlbum, Incremented, Marked, PhotoURL;
  }

  lemma RecordHidesEffect(c: Config, s: State, u: nat, id: string)
    ensures HidesEffect(c, s, WriteRecord(u, id, Works), WriteRecord(u, id, Unsure), WriteRecord(u, id, Fails))
  {
    hide CountOf, WithAlbum, Incremented, Marked, PhotoURL;
  }

  lemma StoreHidesEffect(c: Config, s: State, job: Key)
    ensures HidesEffect(c, s, StoreObject(job, Works), StoreObject(job, Unsure), StoreObject(job, Fails))
  {
    hide Next;
    if Job(job, Taken) in s.running {
      RoundStores(c, s, job, Works);
      RoundStores(c, s, job, Unsure);
      RoundStores(c, s, job, Fails);
    } else {
      Disabled(c, s, StoreObject(job, Works));
      Disabled(c, s, StoreObject(job, Unsure));
      Disabled(c, s, StoreObject(job, Fails));
    }
  }

  lemma MarkHidesEffect(c: Config, s: State, job: Key, stored: bool)
    ensures HidesEffect(c, s, MarkRecord(job, stored, Works), MarkRecord(job, stored, Unsure), MarkRecord(job, stored, Fails))
  {
    hide Next, PhotoURL;
    if Job(job, if stored then Stored else Broken) in s.running {
      RoundMarks(c, s, job, stored, Works);
      RoundMarks(c, s, job, stored, Unsure);
      RoundMarks(c, s, job, stored, Fails);
    } else {
      Disabled(c, s, MarkRecord(job, stored, Works));
      Disabled(c, s, MarkRecord(job, stored, Unsure));
      Disabled(c, s, MarkRecord(job, stored, Fails));
    }
  }

  lemma RemovalHidesEffect(c: Config, s: State, d: nat)
    ensures HidesEffect(c, s, DeleteObject(d, Works), DeleteObject(d, Unsure), DeleteObject(d, Fails))
  {
    hide CountOf, WithAlbum, Incremented, Marked, PhotoURL;
  }

  lemma DeleteHidesEffect(c: Config, s: State, d: nat)
    ensures HidesEffect(c, s, DeleteRecord(d, Works), DeleteRecord(d, Unsure), DeleteRecord(d, Fails))
  {
    hide CountOf, WithAlbum, Incremented, Marked, PhotoURL;
  }

  /** Every call to the database or the bucket may take effect although it reports an error. */
  lemma ErrorsMayHideEffects(c: Config, s: State, u: nat, id: string, job: Key, stored: bool, d: nat)
    ensures HidesEffect(c, s, TakeSeq(u, Works), TakeSeq(u, Unsure), TakeSeq(u, Fails))
    ensures HidesEffect(c, s, WriteRecord(u, id, Works), WriteRecord(u, id, Unsure), WriteRecord(u, id, Fails))
    ensures HidesEffect(c, s, StoreObject(job, Works), StoreObject(job, Unsure), StoreObject(job, Fails))
    ensures HidesEffect(c, s, MarkRecord(job, stored, Works), MarkRecord(job, stored, Unsure), MarkRecord(job, stored, Fails))
    ensures HidesEffect(c, s, DeleteObject(d, Works), DeleteObject(d, Unsure), DeleteObject(d, Fails))
    ensures HidesEffect(c, s, DeleteRecord(d, Works), DeleteRecord(d, Unsure), DeleteRecord(d, Fails))
  {
    hide *;
    NumberHidesEffect(c, s, u);
    RecordHidesEffect(c, s, u, id);
    StoreHidesEffect(c, s, job);
    MarkHidesEffect(c, s, job, stored);
    RemovalHidesEffect(c, s, d);
    DeleteHidesEffect(c, s, d);
  }

  // ----- steps that nothing interrupts -----

  lemma RoundTakes(c: Config, s: State)
    requires s.queue != [] && |s.running| < c.workers
    ensures var t, job := Next(c, s, TakeJob), s.queue[0];
            && t.queue == s.queue[1..] && t.running == s.running + multiset{Job(job, Taken)}
            && t.photos == s.photos && t.objects == s.objects && t.albums == s.albums
  {
  }

  lemma RoundStores(c: Config, s: State, job: Key, upload: Call)
    requires Job(job, Taken) in s.running
    ensures var t := Next(c, s, StoreObject(job, upload));
            && t.running == s.running - multiset{Job(job, Taken)} + multiset{Job(job, if upload.Works? then Stored else Broken)}
            && t.objects == s.objects + (if upload.Fails? then {} else {job.photo})
            && t.queue == s.queue && t.photos == s.photos && t.albums == s.albums
  {
  }

  lemma RoundMarks(c: Config, s: State, job: Key, stored: bool, update: Call)
    requires Job(job, if stored then Stored else Broken) in s.running
    ensures var t := Next(c, s, MarkRecord(job, stored, update));
            && t.running == s.running - multiset{Job(job, if stored then Stored else Broken)}
            && t.queue == s.queue && t.objects == s.objects && t.albums == s.albums && t.photos.Keys == s.photos.Keys
            && forall k :: k in t.photos ==>
                 t.photos[k] == if k == job && s.photos[k].status == Processing && !update.Fails?
                                then if stored then Photo(s.photos[k].seqNo, Completed, PhotoURL(c, k.photo))
                                     else Photo(s.photos[k].seqNo, Failed, s.photos[k].url)
                                else s.photos[k]
  {
  }

  /** A worker's three steps make one round of its loop. */
  lemma WorkerRound(c: Config, s: State, upload: Call, update: Call)
    requires s.queue != [] && |s.running| < c.workers
    ensures var job := s.queue[0];
            var t := Next(c, Next(c, Next(c, s, TakeJob), StoreObject(job, upload)), MarkRecord(job, upload.Works?, update));
            && t.queue == s.queue[1..] && t.running == s.running && t.albums == s.albums
            && t.objects == s.objects + (if upload.Fails? then {} else {job.photo})
            && t.photos.Keys == s.photos.Keys
            && forall k :: k in t.photos ==>
                 t.photos[k] == if k == job && s.photos[k].status == Processing && !update.Fails?
                                then if upload.Works? then Photo(s.photos[k].seqNo, Completed, PhotoURL(c, k.photo))
                                     else Photo(s.photos[k].seqNo, Failed, s.photos[k].url)
                                else s.photos[k]
  {
    hide Next, PhotoURL;
    var job := s.queue[0];
    RoundTakes(c, s);
    var taken := Next(c, s, TakeJob);
    RoundStores(c, taken, job, upload);
    RoundMarks(c, Next(c, taken, StoreObject(job, upload)), job, upload.Works?, update);
  }

  /** A delete's three steps make one request: the record goes even if the object step failed,
      and a missing record changes nothing. */
  lemma WholeDelete(c: Config, s: State, key: Key, removal: Call, record: Call)
    ensures var d := |s.deletes|;
            var t := Next(c, Next(c, Next(c, s, BeginDelete(key)), DeleteObject(d, removal)), DeleteRecord(d, record));
            && t.deletes == s.deletes + [Ended(key)]
            && t.photos == (if key in s.photos && !record.Fails? then s.photos - {key} else s.photos)
            && t.objects == (if key in s.photos && !removal.Fails? then s.objects - {key.photo} else s.objects)
            && t.albums == s.albums && t.stages == s.stages && t.queue == s.queue && t.running == s.running
  {
    hide CountOf, WithAlbum, Incremented, Marked, PhotoURL;
    var d, found := |s.deletes|, if key in s.photos then Found(key) else Ended(key);
    var begun := Next(c, s, BeginDelete(key));
    assert begun.deletes == s.deletes + [found];
    if key in s.photos {
      assert Next(c, begun, DeleteObject(d, removal)).deletes == s.deletes + [ObjectGone(key)];
    } else {
      assert Next(c, begun, DeleteObject(d, removal)) == begun;
    }
  }
}
