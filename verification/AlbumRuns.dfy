/** Uploads, workers and deletes of album-store interleaving over the shared tables, the
    object store and the bounded job queue. A run is any list of events; a disabled event
    changes nothing. */
module AlbumRuns {
  import opened Common
  import opened AlbumTables

  /** Where an upload handler is. */
  datatype Stage =
    | Started(album: string)
    | Numbered(album: string)
    | Unsubmitted(key: Key)
    | Accepted(key: Key)
    | Refused(album: string)

  datatype Work = Taken | Stored | Broken

  datatype Job = Job(key: Key, work: Work)

  /** Where a delete handler is. */
  datatype Delete = Found(key: Key) | ObjectGone(key: Key) | Ended(key: Key)

  /** What happened to the counters: a PUT of an album, or an increment with its number. */
  datatype Count = Put(album: string) | Inc(album: string, seqNo: nat)

  /** `counts` is the history of the counters and `tickets` says which of its entries gave
      an upload its number; `usedIDs` are the photo ids drawn so far, `objectDeletes` the
      photos whose object some DELETE has removed, and `stuck` the records that an error of
      the database leaves without a job: their write took effect but reported an error, or
      their final update failed. */
  datatype State = State(albums: Albums, photos: Photos, objects: set<string>,
                         stages: seq<Stage>, seqNos: seq<nat>, tickets: seq<Option<nat>>, queue: seq<Key>, running: multiset<Job>,
                         deletes: seq<Delete>, usedIDs: set<string>, objectDeletes: set<string>,
                         stuck: set<Key>, counts: seq<Count>)

  datatype Config = Config(workers: nat, queueDepth: nat, bucket: string, region: string)

  datatype Event =
    | PutAlbum(id: string, album: Album)
    | BeginUpload(id: string)
    | TakeSeq(upload: nat, call: Call)
    | WriteRecord(upload: nat, photoID: string, call: Call)
    | Submit(upload: nat)
    | TakeJob
    | StoreObject(job: Key, call: Call)
    | MarkRecord(job: Key, stored: bool, call: Call)
    | BeginDelete(key: Key)
    | DeleteObject(delete: nat, call: Call)
    | DeleteRecord(delete: nat, call: Call)

  function PhotoURL(c: Config, photo: string): string {
    ObjectURL(c.bucket, c.region, ObjectKey(photo))
  }

  function Init(): State {
    State(map[], map[], {}, [], [], [], [], multiset{}, [], {}, {}, {}, [])
  }

  predicate Enabled(c: Config, s: State, e: Event) {
    match e
    case PutAlbum(_, _) => true
    case BeginUpload(_) => true
    case TakeSeq(u, _) => u < |s.stages| == |s.seqNos| == |s.tickets| && s.stages[u].Started?
    case WriteRecord(u, id, _) => u < |s.stages| == |s.seqNos| && s.stages[u].Numbered? && id !in s.usedIDs
    case Submit(u) => u < |s.stages| && s.stages[u].Unsubmitted? && |s.queue| < c.queueDepth
    case TakeJob => s.queue != [] && |s.running| < c.workers
    case StoreObject(k, _) => Job(k, Taken) in s.running
    case MarkRecord(k, stored, _) => Job(k, if stored then Stored else Broken) in s.running
    case BeginDelete(_) => true
    case DeleteObject(d, _) => d < |s.deletes| && s.deletes[d].Found?
    case DeleteRecord(d, _) => d < |s.deletes| && s.deletes[d].ObjectGone?
  }

  function Do(c: Config, s: State, e: Event): State
    requires Enabled(c, s, e)
  {
    match e
    case PutAlbum(id, album) =>
      s.(albums := WithAlbum(s.albums, id, album), counts := s.counts + [Put(id)])
    case BeginUpload(id) =>
      s.(stages := s.stages + [Started(id)], seqNos := s.seqNos + [0], tickets := s.tickets + [None])
    case TakeSeq(u, call) =>
      var id, n := s.stages[u].album, CountOf(s.albums, s.stages[u].album) + 1;
      (match call
       case Fails => s.(stages := s.stages[u := Refused(id)])
       case Unsure =>
         s.(albums := Incremented(s.albums, id), stages := s.stages[u := Refused(id)], counts := s.counts + [Inc(id, n)])
       case Works =>
         s.(albums := Incremented(s.albums, id), stages := s.stages[u := Numbered(id)],
            seqNos := s.seqNos[u := n], tickets := s.tickets[u := Some(|s.counts|)], counts := s.counts + [Inc(id, n)]))
    case WriteRecord(u, id, call) =>
      var t, key := s.(usedIDs := s.usedIDs + {id}), Key(s.stages[u].album, id);
      var written := s.photos[key := Photo(s.seqNos[u], Processing, "")];
      (match call
       case Fails => t.(stages := s.stages[u := Refused(key.album)])
       case Unsure => t.(stages := s.stages[u := Refused(key.album)], photos := written, stuck := s.stuck + {key})
       case Works => t.(stages := s.stages[u := Unsubmitted(key)], photos := written))
    case Submit(u) =>
      s.(stages := s.stages[u := Accepted(s.stages[u].key)], queue := s.queue + [s.stages[u].key])
    case TakeJob =>
      s.(queue := s.queue[1..], running := s.running + multiset{Job(s.queue[0], Taken)})
    case StoreObject(k, call) =>
      s.(running := s.running - multiset{Job(k, Taken)} + multiset{Job(k, if call.Works? then Stored else Broken)},
         objects := if call.Fails? then s.objects else s.objects + {k.photo})
    case MarkRecord(k, stored, call) =>
      var t := s.(running := s.running - multiset{Job(k, if stored then Stored else Broken)});
      if call.Fails? then t.(stuck := s.stuck + {k})
      else t.(photos := Marked(s.photos, k, if stored then Completed else Failed, if stored then PhotoURL(c, k.photo) else ""))
    case BeginDelete(k) =>
      s.(deletes := s.deletes + [if k in s.photos then Found(k) else Ended(k)])
    case DeleteObject(d, call) =>
      var k := s.deletes[d].key;
      var t := s.(deletes := s.deletes[d := ObjectGone(k)]);
      if call.Fails? then t else t.(objects := s.objects - {k.photo}, objectDeletes := s.objectDeletes + {k.photo})
    case DeleteRecord(d, call) =>
      var k := s.deletes[d].key;
      var t := s.(deletes := s.deletes[d := Ended(k)]);
      if call.Fails? then t else t.(photos := s.photos - {k})
  }

  function Next(c: Config, s: State, e: Event): State {
    if Enabled(c, s, e) then Do(c, s, e) else s
  }

  function Run(c: Config, events: seq<Event>): State {
    if events == [] then Init()
    else Next(c, Run(c, events[..|events| - 1]), events[|events| - 1])
  }

  lemma LastStep(c: Config, events: seq<Event>, t: nat)
    requires t < |events|
    ensures Run(c, events[..t + 1]) == Next(c, Run(c, events[..t]), events[t])
  {
    assert events[..t + 1][..t] == events[..t];
  }

  // ----- what a step does to each part of the state -----

  lemma PhotosMove(c: Config, s: State, e: Event)
    ensures var photos := Next(c, s, e).photos;
            || photos == s.photos
            || (e.WriteRecord? && Enabled(c, s, e) && (e.call.Unsure? ==> Key(s.stages[e.upload].album, e.photoID) in Next(c, s, e).stuck)
                && photos == s.photos[Key(s.stages[e.upload].album, e.photoID) := Photo(s.seqNos[e.upload], Processing, "")])
            || (e.MarkRecord? && Enabled(c, s, e)
                && photos == Marked(s.photos, e.job, if e.stored then Completed else Failed, if e.stored then PhotoURL(c, e.job.photo) else ""))
            || (e.DeleteRecord? && e.delete < |s.deletes| && photos == s.photos - {s.deletes[e.delete].key})
  {
    if e.WriteRecord? {
      RecordWritten(c, s, e);
    } else if e.MarkRecord? || e.DeleteRecord? {
      RecordChanged(c, s, e);
    } else {
      RecordsKept(c, s, e);
    }
    hide Next, Enabled, Marked;
  }

  lemma RecordsKept(c: Config, s: State, e: Event)
    requires !e.WriteRecord? && !e.MarkRecord? && !e.DeleteRecord?
    ensures Next(c, s, e).photos == s.photos
  {
    hide CountOf, WithAlbum, Incremented, Marked;
  }

  lemma RecordChanged(c: Config, s: State, e: Event)
    requires e.MarkRecord? || e.DeleteRecord?
    ensures var photos := Next(c, s, e).photos;
            || photos == s.photos
            || (e.MarkRecord? && Enabled(c, s, e)
                && photos == Marked(s.photos, e.job, if e.stored then Completed else Failed, if e.stored then PhotoURL(c, e.job.photo) else ""))
            || (e.DeleteRecord? && e.delete < |s.deletes| && photos == s.photos - {s.deletes[e.delete].key})
  {
    hide CountOf, WithAlbum, Incremented, Marked;
  }

  lemma RecordWritten(c: Config, s: State, e: Event)
    requires e.WriteRecord?
    ensures var photos := Next(c, s, e).photos;
            || photos == s.photos
            || (Enabled(c, s, e) && (e.call.Unsure? ==> Key(s.stages[e.upload].album, e.photoID) in Next(c, s, e).stuck)
                && photos == s.photos[Key(s.stages[e.upload].album, e.photoID) := Photo(s.seqNos[e.upload], Processing, "")])
  {
  }

  lemma StagesMove(c: Config, s: State, e: Event)
    ensures var stages := Next(c, s, e).stages;
            || stages == s.stages
            || (e.BeginUpload? && stages == s.stages + [Started(e.id)])
            || (e.TakeSeq? && e.upload < |s.stages| && s.stages[e.upload].Started? && exists to: Stage ::
                  stages == s.stages[e.upload := to] && AlbumOf(to) == s.stages[e.upload].album && (to.Numbered? || to.Refused?))
            || (e.WriteRecord? && Enabled(c, s, e)
                && stages == s.stages[e.upload := if e.call.Works? then Unsubmitted(Key(s.stages[e.upload].album, e.photoID))
                                                  else Refused(s.stages[e.upload].album)])
            || (e.Submit? && Enabled(c, s, e) && stages == s.stages[e.upload := Accepted(s.stages[e.upload].key)])
  {
    hide CountOf, WithAlbum, Incremented, Marked;
    if e.TakeSeq? && Enabled(c, s, e) {
      var id := s.stages[e.upload].album;
      var to := if e.call.Works? then Numbered(id) else Refused(id);
      assert Next(c, s, e).stages == s.stages[e.upload := to] && AlbumOf(to) == id;
    }
  }

  lemma RunningMoves(c: Config, s: State, e: Event)
    ensures var running := Next(c, s, e).running;
            || running == s.running
            || (e.TakeJob? && s.queue != [] && running == s.running + multiset{Job(s.queue[0], Taken)})
            || (e.StoreObject? && Job(e.job, Taken) in s.running
                && running == s.running - multiset{Job(e.job, Taken)} + multiset{Job(e.job, if e.call.Works? then Stored else Broken)})
            || (e.MarkRecord? && Job(e.job, if e.stored then Stored else Broken) in s.running
                && running == s.running - multiset{Job(e.job, if e.stored then Stored else Broken)})
  {
    hide CountOf, WithAlbum, Incremented, Marked;
  }

  function AlbumOf(stage: Stage): string {
    if stage.Unsubmitted? || stage.Accepted? then stage.key.album else stage.album
  }

  // ----- the life of a record -----

  /** Every record was written under an id drawn for it. */
  ghost predicate IDsUsed(s: State) {
    forall k :: k in s.photos ==> k.photo in s.usedIDs
  }

  lemma IDsStep(c: Config, s: State, e: Event)
    requires IDsUsed(s)
    ensures IDsUsed(Next(c, s, e)) && s.usedIDs <= Next(c, s, e).usedIDs
  {
  }

  lemma {:induction false} IDsHold(c: Config, events: seq<Event>)
    ensures IDsUsed(Run(c, events))
  {
    if events != [] {
      IDsHold(c, events[..|events| - 1]);
      IDsStep(c, Run(c, events[..|events| - 1]), events[|events| - 1]);
    }
  }

  /** What a step can do to a record: drop it, or move it from processing to an end state. */
  ghost predicate RecordLives(before: Photos, after: Photos, usedIDs: set<string>, key: Key) {
    && (key in before && key in after ==>
          before[key] == after[key]
          || (before[key].status == Processing && after[key].status != Processing && after[key].seqNo == before[key].seqNo))
    && (key.photo in usedIDs && key !in before ==> key !in after)
  }

  lemma RecordStep(c: Config, s: State, e: Event, key: Key)
    requires IDsUsed(s)
    ensures RecordLives(s.photos, Next(c, s, e).photos, s.usedIDs, key)
  {
    PhotosMove(c, s, e);
    assert e.WriteRecord? && Enabled(c, s, e) ==> e.photoID !in s.usedIDs;
    hide Next, Enabled;
  }

  /** A record that is gone stays gone, and one that left processing never changes again. */
  lemma {:induction false} RecordsEndOnce(c: Config, events: seq<Event>, t: nat, u: nat, key: Key)
    requires t <= u <= |events| && key in Run(c, events[..t]).photos
    ensures key.photo in Run(c, events[..u]).usedIDs
    ensures key in Run(c, events[..u]).photos ==>
              && Run(c, events[..u]).photos[key].seqNo == Run(c, events[..t]).photos[key].seqNo
              && (Run(c, events[..t]).photos[key].status != Processing ==>
                    Run(c, events[..u]).photos[key] == Run(c, events[..t]).photos[key])
    decreases u
  {
    hide Run, Next;
    if t == u {
      IDsHold(c, events[..t]);
    } else {
      RecordsEndOnce(c, events, t, u - 1, key);
      LastStep(c, events, u - 1);
      IDsHold(c, events[..u - 1]);
      hide IDsUsed;
      var s := Run(c, events[..u - 1]);
      RecordStep(c, s, events[u - 1], key);
      IDsStep(c, s, events[u - 1]);
    }
  }

  /** A deleted record never reappears, although workers may still be at its job. */
  lemma {:induction false} DeletedStaysDeleted(c: Config, events: seq<Event>, t: nat, u: nat, v: nat, key: Key)
    requires t <= u <= v <= |events|
    requires key in Run(c, events[..t]).photos && key !in Run(c, events[..u]).photos
    ensures key !in Run(c, events[..v]).photos
    decreases v
  {
    hide Run, Next, IDsUsed;
    if u < v {
      DeletedStaysDeleted(c, events, t, u, v - 1, key);
      RecordsEndOnce(c, events, t, v - 1, key);
      LastStep(c, events, v - 1);
      IDsHold(c, events[..v - 1]);
      RecordStep(c, Run(c, events[..v - 1]), events[v - 1], key);
    }
  }

  // ----- completed photos have their object -----

  predicate ObjectOrDelete(s: State, photo: string) {
    photo in s.objects || photo in s.objectDeletes
  }

  /** A stored or completed photo's object is there, unless a DELETE removed it. */
  ghost predicate ObjectInv(s: State) {
    && (forall k :: Job(k, Stored) in s.running ==> ObjectOrDelete(s, k.photo))
    && (forall k :: k in s.photos && s.photos[k].status == Completed ==> ObjectOrDelete(s, k.photo))
  }

  lemma ObjectsKept(c: Config, s: State, e: Event, photo: string)
    requires ObjectOrDelete(s, photo)
    ensures ObjectOrDelete(Next(c, s, e), photo)
  {
  }

  /** A job reaches `Stored` only by storing its object. */
  lemma StoredStep(c: Config, s: State, e: Event, key: Key)
    requires Job(key, Stored) in Next(c, s, e).running
    ensures Job(key, Stored) in s.running || ObjectOrDelete(Next(c, s, e), key.photo)
  {
    RunningMoves(c, s, e);
    if e.StoreObject? && Enabled(c, s, e) {
      assert !e.call.Fails? ==> e.job.photo in Next(c, s, e).objects;
    }
    hide Next, Enabled;
  }

  /** A record becomes completed only when a worker marks a stored job. */
  lemma CompletedStep(c: Config, s: State, e: Event, key: Key)
    requires key in Next(c, s, e).photos && Next(c, s, e).photos[key].status == Completed
    ensures (key in s.photos && s.photos[key].status == Completed) || Job(key, Stored) in s.running
  {
    PhotosMove(c, s, e);
    assert e.MarkRecord? && Enabled(c, s, e) ==> Job(e.job, if e.stored then Stored else Broken) in s.running;
    hide Next, Enabled;
  }

  lemma ObjectStep(c: Config, s: State, e: Event)
    requires ObjectInv(s)
    ensures ObjectInv(Next(c, s, e))
  {
    hide Next, ObjectOrDelete;
    var t := Next(c, s, e);
    forall k | Job(k, Stored) in t.running ensures ObjectOrDelete(t, k.photo) {
      StoredStep(c, s, e, k);
      if Job(k, Stored) in s.running {
        ObjectsKept(c, s, e, k.photo);
      }
    }
    forall k | k in t.photos && t.photos[k].status == Completed ensures ObjectOrDelete(t, k.photo) {
      CompletedStep(c, s, e, k);
      ObjectsKept(c, s, e, k.photo);
    }
  }

  /** In every run a completed photo's object is in the store, unless a DELETE for that
      photo has run its object step. */
  lemma {:induction false} CompletedHasObject(c: Config, events: seq<Event>)
    ensures ObjectInv(Run(c, events))
  {
    if events != [] {
      CompletedHasObject(c, events[..|events| - 1]);
      ObjectStep(c, Run(c, events[..|events| - 1]), events[|events| - 1]);
    }
  }

  // ----- every processing record has its job -----

  function Held(running: multiset<Job>, key: Key): nat {
    running[Job(key, Taken)] + running[Job(key, Stored)] + running[Job(key, Broken)]
  }

  /** How many jobs there are for a record: unsubmitted, queued or with a worker. */
  function Jobs(s: State, key: Key): nat {
    multiset(s.stages)[Unsubmitted(key)] + multiset(s.queue)[key] + Held(s.running, key)
  }

  /** Only ids already drawn have jobs, none has two, and a record that is processing has
      exactly one unless an error of the database left it stuck. */
  ghost predicate JobInv(s: State) {
    && |s.stages| == |s.seqNos|
    && (forall k :: Jobs(s, k) <= if k.photo in s.usedIDs then 1 else 0)
    && (forall k :: CanMark(s.photos, k) ==> Jobs(s, k) == 1 || k in s.stuck)
  }

  lemma StageMoves(stages: seq<Stage>, u: nat, to: Stage, key: Key)
    requires u < |stages|
    ensures multiset(stages[u := to])[Unsubmitted(key)] == multiset(stages)[Unsubmitted(key)]
            - (if stages[u] == Unsubmitted(key) then 1 else 0) + (if to == Unsubmitted(key) then 1 else 0)
  {
  }

  lemma WorkMoves(running: multiset<Job>, k: Key, works: bool, key: Key)
    requires Job(k, Taken) in running
    ensures Held(running - multiset{Job(k, Taken)} + multiset{Job(k, if works then Stored else Broken)}, key) == Held(running, key)
  {
  }

  lemma WorkEnds(running: multiset<Job>, k: Key, stored: bool, key: Key)
    requires Job(k, if stored then Stored else Broken) in running
    ensures Held(running - multiset{Job(k, if stored then Stored else Broken)}, key) == Held(running, key) - if key == k then 1 else 0
  {
  }

  lemma HeldGrows(running: multiset<Job>, k: Key, key: Key)
    ensures Held(running + multiset{Job(k, Taken)}, key) == Held(running, key) + if k == key then 1 else 0
  {
  }

  lemma UnsubmittedStep(c: Config, s: State, e: Event, key: Key)
    requires Enabled(c, s, e)
    ensures multiset(Next(c, s, e).stages)[Unsubmitted(key)] == multiset(s.stages)[Unsubmitted(key)] +
            match e
            case WriteRecord(u, id, call) => if call.Works? && key == Key(s.stages[u].album, id) then 1 else 0
            case Submit(u) => if s.stages[u].key == key then -1 else 0
            case _ => 0
  {
    StagesMove(c, s, e);
    SubmitIsUnsubmitted(c, s, e);
    var stages := Next(c, s, e).stages;
    assert e.TakeSeq? || e.WriteRecord? || e.Submit? ==> e.upload < |s.stages|;
    hide Next, Enabled;
    if e.TakeSeq? || e.WriteRecord? || e.Submit? {
      StageMoves(s.stages, e.upload, stages[e.upload], key);
    }
  }

  lemma SubmitIsUnsubmitted(c: Config, s: State, e: Event)
    requires Enabled(c, s, e)
    ensures e.Submit? ==> s.stages[e.upload].Unsubmitted? && Next(c, s, e).stages == s.stages[e.upload := Accepted(s.stages[e.upload].key)]
    ensures e.WriteRecord? ==> s.stages[e.upload].Numbered?
    ensures e.WriteRecord? ==>
              var to := if e.call.Works? then Unsubmitted(Key(s.stages[e.upload].album, e.photoID)) else Refused(s.stages[e.upload].album);
              Next(c, s, e).stages == s.stages[e.upload := to]
    ensures e.TakeSeq? ==> s.stages[e.upload].Started?
  {
    hide CountOf, WithAlbum, Incremented, Marked;
  }

  lemma QueueStep(c: Config, s: State, e: Event, key: Key)
    requires Enabled(c, s, e)
    ensures multiset(Next(c, s, e).queue)[key] == multiset(s.queue)[key] +
            match e
            case Submit(u) => if s.stages[u].key == key then 1 else 0
            case TakeJob => if s.queue[0] == key then -1 else 0
            case _ => 0
  {
    hide Held, CountOf, Marked, Incremented, WithAlbum;
    if !e.TakeJob? && !e.Submit? {
      assert Next(c, s, e).queue == s.queue;
    } else if e.TakeJob? {
      assert s.queue == [s.queue[0]] + s.queue[1..];
    }
  }

  lemma HeldStep(c: Config, s: State, e: Event, key: Key)
    requires Enabled(c, s, e)
    ensures Held(Next(c, s, e).running, key) == Held(s.running, key) +
            match e
            case TakeJob => if s.queue[0] == key then 1 else 0
            case MarkRecord(k, _, _) => if key == k then -1 else 0
            case _ => 0
  {
    hide CountOf, WithAlbum, Incremented, Marked;
    RunningMoves(c, s, e);
    HeldGrows(s.running, if e.TakeJob? then s.queue[0] else key, key);
    match e
    case StoreObject(k, call) => WorkMoves(s.running, k, call.Works?, key);
    case MarkRecord(k, stored, _) => WorkEnds(s.running, k, stored, key);
    case _ =>
  }

  /** What a step does to the number of jobs of a record. */
  lemma JobsStep(c: Config, s: State, e: Event, key: Key)
    requires Enabled(c, s, e)
    ensures Jobs(Next(c, s, e), key) == Jobs(s, key) +
            match e
            case WriteRecord(u, id, call) => if call.Works? && key == Key(s.stages[u].album, id) then 1 else 0
            case MarkRecord(k, _, _) => if key == k then -1 else 0
            case _ => 0
  {
    UnsubmittedStep(c, s, e, key);
    QueueStep(c, s, e, key);
    HeldStep(c, s, e, key);
    hide Do, Held;
  }

  /** A record is processing after a step if it was before, or has just been written. */
  lemma ProcessingStep(c: Config, s: State, e: Event, key: Key)
    requires Enabled(c, s, e) && CanMark(Next(c, s, e).photos, key)
    ensures (e.WriteRecord? && key == Key(s.stages[e.upload].album, e.photoID) && (e.call.Works? || key in Next(c, s, e).stuck))
            || (CanMark(s.photos, key) && (e.MarkRecord? && e.job == key ==> key in Next(c, s, e).stuck))
    ensures s.stuck <= Next(c, s, e).stuck
  {
    PhotosMove(c, s, e);
    assert s.stuck <= Next(c, s, e).stuck by {
      hide CountOf, WithAlbum, Incremented, Marked;
    }
    assert e.MarkRecord? && e.call.Fails? ==> e.job in Next(c, s, e).stuck;
    assert e.MarkRecord? && !e.call.Fails? ==>
        Next(c, s, e).photos == Marked(s.photos, e.job, if e.stored then Completed else Failed, if e.stored then PhotoURL(c, e.job.photo) else "");
    assert e.WriteRecord? && e.call.Fails? ==> Next(c, s, e).photos == s.photos;
    hide Next, Enabled;
  }

  lemma UsedStep(c: Config, s: State, e: Event)
    requires |s.stages| == |s.seqNos|
    ensures s.usedIDs <= Next(c, s, e).usedIDs && |Next(c, s, e).stages| == |Next(c, s, e).seqNos|
    ensures Enabled(c, s, e) && e.WriteRecord? ==> e.photoID !in s.usedIDs && e.photoID in Next(c, s, e).usedIDs
  {
  }

  lemma JobsBounded(c: Config, s: State, e: Event, key: Key)
    requires JobInv(s) && Enabled(c, s, e)
    ensures Jobs(Next(c, s, e), key) <= if key.photo in Next(c, s, e).usedIDs then 1 else 0
  {
    UsedStep(c, s, e);
    JobsStep(c, s, e, key);
    hide Do, Next, Jobs, Enabled, CanMark;
    assert Jobs(s, key) <= if key.photo in s.usedIDs then 1 else 0;
  }

  lemma {:induction false} ProcessingKeepsJob(c: Config, s: State, e: Event, key: Key)
    requires JobInv(s) && Enabled(c, s, e) && CanMark(Next(c, s, e).photos, key)
    ensures Jobs(Next(c, s, e), key) == 1 || key in Next(c, s, e).stuck
  {
    UsedStep(c, s, e);
    JobsStep(c, s, e, key);
    ProcessingStep(c, s, e, key);
    hide Do, Next, Jobs, Enabled, CanMark;
    assert Jobs(s, key) <= if key.photo in s.usedIDs then 1 else 0;
  }

  lemma {:induction false} JobStep(c: Config, s: State, e: Event)
    requires JobInv(s)
    ensures JobInv(Next(c, s, e))
  {
    UsedStep(c, s, e);
    if Enabled(c, s, e) {
      hide Do, Next, Jobs, Enabled, CanMark;
      var t := Next(c, s, e);
      forall k ensures Jobs(t, k) <= if k.photo in t.usedIDs then 1 else 0 {
        JobsBounded(c, s, e, k);
      }
      forall k | CanMark(t.photos, k) ensures Jobs(t, k) == 1 || k in t.stuck {
        ProcessingKeepsJob(c, s, e, k);
      }
    }
  }

  lemma {:induction false} JobsHold(c: Config, events: seq<Event>)
    ensures JobInv(Run(c, events))
  {
    if events == [] {
      assert forall k :: Jobs(Init(), k) == 0;
    } else {
      JobsHold(c, events[..|events| - 1]);
      JobStep(c, Run(c, events[..|events| - 1]), events[|events| - 1]);
    }
  }

  /** No upload waits to submit, the queue is empty and no worker is busy. */
  predicate Drained(s: State) {
    s.queue == [] && s.running == multiset{} && forall i :: 0 <= i < |s.stages| ==> !s.stages[i].Unsubmitted?
  }

  lemma DrainedHasNoJobs(s: State, key: Key)
    requires Drained(s)
    ensures Jobs(s, key) == 0
  {
    assert Unsubmitted(key) !in multiset(s.stages);
  }

  predicate NothingSticks(events: seq<Event>) {
    forall e :: e in events ==> (e.MarkRecord? ==> !e.call.Fails?) && (e.WriteRecord? ==> !e.call.Unsure?)
  }

  lemma {:induction false} NothingUnmarked(c: Config, events: seq<Event>)
    requires NothingSticks(events)
    ensures Run(c, events).stuck == {}
  {
    if events != [] {
      NothingUnmarked(c, events[..|events| - 1]);
    }
  }

  /** With no write that takes effect but reports an error, and no final update that fails,
      every processing record has exactly one job; so once the pool is drained no record is
      still processing. */
  lemma {:induction false} ProcessingHasOneJob(c: Config, events: seq<Event>, key: Key)
    requires NothingSticks(events) && CanMark(Run(c, events).photos, key)
    ensures Jobs(Run(c, events), key) == 1 && !Drained(Run(c, events))
  {
    JobsHold(c, events);
    NothingUnmarked(c, events);
    hide Run, Jobs;
    assert Drained(Run(c, events)) ==> Jobs(Run(c, events), key) == 0 by {
      if Drained(Run(c, events)) {
        DrainedHasNoJobs(Run(c, events), key);
      }
    }
  }

  // ----- exactly which records are left processing -----

  /** A record that left processing has no job, and a stuck one has none and stays as it is. */
  ghost predicate StuckInv(s: State) {
    && (forall k :: k in s.photos && !CanMark(s.photos, k) ==> Jobs(s, k) == 0)
    && (forall k :: k in s.stuck ==> k.photo in s.usedIDs && Jobs(s, k) == 0 && (k in s.photos ==> CanMark(s.photos, k)))
  }

  lemma StuckMoves(c: Config, s: State, e: Event)
    requires Enabled(c, s, e)
    ensures var stuck := Next(c, s, e).stuck;
            || stuck == s.stuck
            || (e.WriteRecord? && e.call.Unsure? && stuck == s.stuck + {Key(s.stages[e.upload].album, e.photoID)}
                && Key(s.stages[e.upload].album, e.photoID) in Next(c, s, e).photos
                && CanMark(Next(c, s, e).photos, Key(s.stages[e.upload].album, e.photoID)))
            || (e.MarkRecord? && e.call.Fails? && stuck == s.stuck + {e.job} && Next(c, s, e).photos == s.photos)
  {
    hide CountOf, WithAlbum, Incremented, Marked;
  }

  lemma MarkHasJob(c: Config, s: State, e: Event)
    requires Enabled(c, s, e) && e.MarkRecord?
    ensures Jobs(s, e.job) > 0
  {
  }

  lemma EndedHasNoJob(c: Config, s: State, e: Event, key: Key)
    requires JobInv(s) && IDsUsed(s) && StuckInv(s) && Enabled(c, s, e)
    requires key in Next(c, s, e).photos && !CanMark(Next(c, s, e).photos, key)
    ensures Jobs(Next(c, s, e), key) == 0
  {
    PhotosMove(c, s, e);
    JobsStep(c, s, e, key);
    assert Jobs(s, key) <= if key.photo in s.usedIDs then 1 else 0;
    assert e.WriteRecord? ==> e.photoID !in s.usedIDs;
    hide Next, Enabled, Jobs;
  }

  lemma StuckHasNoJob(c: Config, s: State, e: Event, key: Key)
    requires JobInv(s) && IDsUsed(s) && StuckInv(s) && Enabled(c, s, e) && key in Next(c, s, e).stuck
    ensures key.photo in Next(c, s, e).usedIDs && Jobs(Next(c, s, e), key) == 0
    ensures key in Next(c, s, e).photos ==> CanMark(Next(c, s, e).photos, key)
  {
    hide Do, Jobs, PhotoURL;
    UsedStep(c, s, e);
    PhotosMove(c, s, e);
    StuckMoves(c, s, e);
    JobsStep(c, s, e, key);
    if e.MarkRecord? {
      MarkHasJob(c, s, e);
    }
    assert Jobs(s, key) <= if key.photo in s.usedIDs then 1 else 0;
    hide Next, Enabled;
  }

  lemma StuckStep(c: Config, s: State, e: Event)
    requires JobInv(s) && IDsUsed(s) && StuckInv(s)
    ensures StuckInv(Next(c, s, e))
  {
    if Enabled(c, s, e) {
      var t := Next(c, s, e);
      hide Next, Enabled, Jobs, CanMark, JobInv, IDsUsed;
      forall k | k in t.photos && !CanMark(t.photos, k) ensures Jobs(t, k) == 0 {
        EndedHasNoJob(c, s, e, k);
      }
      forall k | k in t.stuck ensures k.photo in t.usedIDs && Jobs(t, k) == 0 && (k in t.photos ==> CanMark(t.photos, k)) {
        StuckHasNoJob(c, s, e, k);
      }
    }
  }

  lemma {:induction false} StuckHolds(c: Config, events: seq<Event>)
    ensures StuckInv(Run(c, events))
  {
    if events != [] {
      var before := events[..|events| - 1];
      StuckHolds(c, before);
      JobsHold(c, before);
      IDsHold(c, before);
      hide StuckInv, JobInv, IDsUsed, Next;
      StuckStep(c, Run(c, before), events[|events| - 1]);
    }
  }

  /** In every run a record is processing if and only if it still has its job or is stuck;
      so once the pool is drained the records left processing are exactly the stuck ones. */
  lemma {:induction false} ProcessingIffJobOrStuck(c: Config, events: seq<Event>, key: Key)
    requires key in Run(c, events).photos
    ensures CanMark(Run(c, events).photos, key) <==> Jobs(Run(c, events), key) == 1 || key in Run(c, events).stuck
    ensures Drained(Run(c, events)) ==> (CanMark(Run(c, events).photos, key) <==> key in Run(c, events).stuck)
  {
    StuckHolds(c, events);
    JobsHold(c, events);
    var s := Run(c, events);
    hide Run, Jobs;
    assert Jobs(s, key) <= if key.photo in s.usedIDs then 1 else 0;
    if Drained(s) {
      DrainedHasNoJobs(s, key);
    }
  }

  // ----- sequence numbers -----

  /** The numbers handed out for an album since its last PUT, in order. */
  function SincePut(counts: seq<Count>, album: string): seq<nat> {
    if counts == [] then []
    else
      var before := SincePut(counts[..|counts| - 1], album);
      var last := counts[|counts| - 1];
      if last.album != album then before else if last.Put? then [] else before + [last.seqNo]
  }

  lemma SincePutSnoc(counts: seq<Count>, last: Count, album: string)
    ensures SincePut(counts + [last], album) ==
            if last.album != album then SincePut(counts, album)
            else if last.Put? then []
            else SincePut(counts, album) + [last.seqNo]
  {
    assert (counts + [last])[..|counts|] == counts;
  }

  ghost predicate CountsUp(numbers: seq<nat>) {
    forall i :: 0 <= i < |numbers| ==> numbers[i] == i + 1
  }

  ghost predicate AllCountUp(counts: seq<Count>, album: string) {
    forall n :: 0 <= n <= |counts| ==> CountsUp(SincePut(counts[..n], album))
  }

  ghost predicate CountInv(s: State) {
    && (forall a :: CountOf(s.albums, a) == |SincePut(s.counts, a)|)
    && (forall a :: AllCountUp(s.counts, a))
  }

  /** One more entry, numbered by the counter if it is an increment. */
  lemma CountsUpNext(counts: seq<Count>, last: Count, album: string)
    requires CountsUp(SincePut(counts, album))
    requires last.Inc? && last.album == album ==> last.seqNo == |SincePut(counts, album)| + 1
    ensures CountsUp(SincePut(counts + [last], album))
  {
    SincePutSnoc(counts, last, album);
    hide SincePut;
  }

  lemma {:induction false} CountsUpSnoc(counts: seq<Count>, last: Count, album: string)
    requires AllCountUp(counts, album)
    requires last.Inc? && last.album == album ==> last.seqNo == |SincePut(counts, album)| + 1
    ensures AllCountUp(counts + [last], album)
  {
    hide SincePut, CountsUp;
    var longer := counts + [last];
    assert counts[..|counts|] == counts && longer[..|longer|] == longer;
    CountsUpNext(counts, last, album);
    forall n | 0 <= n <= |longer| ensures CountsUp(SincePut(longer[..n], album)) {
      if n <= |counts| {
        assert longer[..n] == counts[..n];
      }
    }
  }

  /** A step adds at most one entry to the history, and moves the counter with it. */
  lemma CounterMoves(c: Config, s: State, e: Event, a: string)
    ensures var t := Next(c, s, e);
            if t.counts == s.counts then CountOf(t.albums, a) == CountOf(s.albums, a)
            else
              && |t.counts| == |s.counts| + 1 && t.counts == s.counts + [t.counts[|s.counts|]]
              && var last := t.counts[|s.counts|];
                 if last.album != a then CountOf(t.albums, a) == CountOf(s.albums, a)
                 else if last.Put? then CountOf(t.albums, a) == 0
                 else CountOf(t.albums, a) == last.seqNo == CountOf(s.albums, a) + 1
  {
    hide Marked;
  }

  lemma CountStep(c: Config, s: State, e: Event)
    requires CountInv(s)
    ensures CountInv(Next(c, s, e))
  {
    forall a ensures CountOf(Next(c, s, e).albums, a) == |SincePut(Next(c, s, e).counts, a)| {
      CountOfStep(c, s, e, a);
    }
    forall a ensures AllCountUp(Next(c, s, e).counts, a) {
      CountOfStep(c, s, e, a);
    }
  }

  lemma CountOfStep(c: Config, s: State, e: Event, a: string)
    requires CountInv(s)
    ensures CountOf(Next(c, s, e).albums, a) == |SincePut(Next(c, s, e).counts, a)|
    ensures AllCountUp(Next(c, s, e).counts, a)
  {
    CounterMoves(c, s, e, a);
    hide Next, CountOf, AllCountUp, SincePut;
    var t := Next(c, s, e);
    assert CountOf(s.albums, a) == |SincePut(s.counts, a)| && AllCountUp(s.counts, a);
    if t.counts != s.counts {
      var last := t.counts[|s.counts|];
      SincePutSnoc(s.counts, last, a);
      CountsUpSnoc(s.counts, last, a);
    }
  }

  lemma {:induction false} CountsHold(c: Config, events: seq<Event>)
    ensures CountInv(Run(c, events))
  {
    if events == [] {
      assert forall a :: SincePut([], a) == [];
    } else {
      CountsHold(c, events[..|events| - 1]);
      CountStep(c, Run(c, events[..|events| - 1]), events[|events| - 1]);
    }
  }

  /** Over any interleaving, the increments of an album since its last PUT were numbered
      exactly 1, 2, ..., up to the counter; a number goes unused if its answer is lost. */
  lemma {:induction false} IncrementsCountUp(c: Config, events: seq<Event>, album: string)
    ensures var s := Run(c, events);
            SincePut(s.counts, album) == seq(CountOf(s.albums, album), i => i + 1)
  {
    CountsHold(c, events);
    hide Run;
    var s := Run(c, events);
    assert s.counts[..|s.counts|] == s.counts;
    assert AllCountUp(s.counts, album) && CountOf(s.albums, album) == |SincePut(s.counts, album)|;
    assert CountsUp(SincePut(s.counts[..|s.counts|], album));
  }

  /** Some PUT of the album lies strictly between the two entries. */
  predicate PutBetween(counts: seq<Count>, album: string, i: nat, j: nat) {
    exists p | i < p < j && p < |counts| :: counts[p] == Put(album)
  }

  lemma {:induction false} SincePutGrows(counts: seq<Count>, album: string, i: nat, j: nat)
    requires i <= j <= |counts| && forall p :: i <= p < j ==> counts[p] != Put(album)
    ensures SincePut(counts[..i], album) <= SincePut(counts[..j], album)
  {
    if i < j {
      SincePutGrows(counts, album, i, j - 1);
      assert counts[..j][..j - 1] == counts[..j - 1];
    }
  }

  /** The number in an entry is the count of increments since the last PUT. */
  lemma NumberIsRank(counts: seq<Count>, album: string, i: nat)
    requires i < |counts| && counts[i].Inc? && counts[i].album == album && AllCountUp(counts, album)
    ensures |SincePut(counts[..i + 1], album)| == counts[i].seqNo == |SincePut(counts[..i], album)| + 1
  {
    assert counts[..i + 1] == counts[..i] + [counts[i]];
    SincePutSnoc(counts[..i], counts[i], album);
    var numbers := SincePut(counts[..i + 1], album);
    assert CountsUp(numbers);
    assert numbers[|numbers| - 1] == counts[i].seqNo;
  }

  /** Numbers grow as long as no PUT intervenes. */
  lemma NumbersGrow(counts: seq<Count>, album: string, i: nat, j: nat)
    requires i < j < |counts| && AllCountUp(counts, album)
    requires counts[i].Inc? && counts[i].album == album && counts[j].Inc? && counts[j].album == album
    requires !PutBetween(counts, album, i, j)
    ensures counts[i].seqNo < counts[j].seqNo
  {
    NumberIsRank(counts, album, i);
    NumberIsRank(counts, album, j);
    SincePutGrows(counts, album, i + 1, j);
  }

  /** The increment that answered 1 in the same stretch between PUTs. */
  lemma {:induction false} FirstSincePut(counts: seq<Count>, album: string, n: nat) returns (k: nat)
    requires n <= |counts| && SincePut(counts[..n], album) != [] && AllCountUp(counts, album)
    ensures k < n && counts[k] == Inc(album, 1)
    ensures forall p :: k < p < n ==> counts[p] != Put(album)
  {
    assert counts[..n][..n - 1] == counts[..n - 1];
    if counts[n - 1].Inc? && counts[n - 1].album == album {
      NumberIsRank(counts, album, n - 1);
      if counts[n - 1].seqNo == 1 {
        k := n - 1;
      } else {
        k := FirstSincePut(counts, album, n - 1);
      }
    } else {
      k := FirstSincePut(counts, album, n - 1);
    }
  }

  /** Two entries hand out the same number for the album. */
  predicate SameNumber(counts: seq<Count>, album: string, i: nat, j: nat) {
    && i < j < |counts| && counts[i].Inc? && counts[j].Inc?
    && counts[i].album == album == counts[j].album && counts[i].seqNo == counts[j].seqNo
  }

  /** A PUT separates two increments of the album. */
  predicate PutSeparates(counts: seq<Count>, album: string, i: nat, j: nat) {
    && i < j < |counts| && counts[i].Inc? && counts[j].Inc?
    && counts[i].album == album == counts[j].album && PutBetween(counts, album, i, j)
  }

  /** An album's numbers are not unique, as the report claims, exactly if a PUT of the
      album came between two of its uploads: the PUT resets the counter. */
  lemma NumbersRepeatIffPutSeparates(c: Config, events: seq<Event>, album: string)
    ensures var counts := Run(c, events).counts;
            (exists i, j :: SameNumber(counts, album, i, j)) <==> (exists i, j :: PutSeparates(counts, album, i, j))
  {
    CountsHold(c, events);
    hide Run;
    var counts := Run(c, events).counts;
    assert AllCountUp(counts, album);
    if i: nat, j: nat :| SameNumber(counts, album, i, j) {
      if !PutBetween(counts, album, i, j) {
        NumbersGrow(counts, album, i, j);
      }
      assert PutSeparates(counts, album, i, j);
    }
    if i: nat, j: nat :| PutSeparates(counts, album, i, j) {
      NumberIsRank(counts, album, i);
      NumberIsRank(counts, album, j);
      var k := FirstSincePut(counts, album, i + 1);
      var m := FirstSincePut(counts, album, j + 1);
      assert SameNumber(counts, album, k, m);
    }
  }

  // ----- uploads get their own numbers -----

  /** The upload's number is that of its own entry of the history. */
  ghost predicate Ticketed(s: State, u: nat)
    requires u < |s.stages| == |s.seqNos| == |s.tickets|
  {
    && (s.stages[u].Numbered? || s.stages[u].Unsubmitted? || s.stages[u].Accepted? ==> s.tickets[u].Some?)
    && (s.stages[u].Started? ==> s.tickets[u].None?)
    && (s.tickets[u].Some? ==>
          s.tickets[u].value < |s.counts|
          && s.counts[s.tickets[u].value] == Inc(AlbumOf(s.stages[u]), s.seqNos[u]))
  }

  ghost predicate TicketInv(s: State) {
    && |s.stages| == |s.seqNos| == |s.tickets|
    && (forall u: nat :: u < |s.stages| ==> Ticketed(s, u))
    && (forall u: nat, v: nat :: u < v < |s.stages| && s.tickets[u].Some? ==> s.tickets[u] != s.tickets[v])
  }

  lemma LengthsStep(c: Config, s: State, e: Event)
    requires |s.stages| == |s.seqNos| == |s.tickets|
    ensures |Next(c, s, e).stages| == |Next(c, s, e).seqNos| == |Next(c, s, e).tickets|
  {
    hide CountOf, WithAlbum, Incremented, Marked;
  }

  lemma HistoryGrows(c: Config, s: State, e: Event)
    ensures s.counts <= Next(c, s, e).counts
  {
    hide CountOf, WithAlbum, Incremented, Marked;
  }

  /** Only `TakeSeq` and `BeginUpload` give out tickets and numbers. */
  lemma TicketsKept(c: Config, s: State, e: Event, u: nat)
    requires |s.stages| == |s.seqNos| == |s.tickets|
    ensures u < |s.stages| && !(e.TakeSeq? && e.upload == u) ==>
              Next(c, s, e).tickets[..|s.tickets|][u] == s.tickets[u] && Next(c, s, e).seqNos[..|s.tickets|][u] == s.seqNos[u]
  {
    hide CountOf, WithAlbum, Incremented, Marked;
  }

  /** Outside `TakeSeq` an upload moves on within its album, and needs a ticket to get a key. */
  lemma StageStep(c: Config, s: State, e: Event, u: nat)
    requires |s.stages| == |s.seqNos| == |s.tickets| && u < |s.stages|
    requires !(e.TakeSeq? && e.upload == u)
    ensures var stage := Next(c, s, e).stages[..|s.stages|][u];
            stage == s.stages[u]
            || (AlbumOf(stage) == AlbumOf(s.stages[u]) && !stage.Started? && !stage.Numbered? && (s.stages[u].Numbered? || s.stages[u].Unsubmitted?))
  {
    hide CountOf, WithAlbum, Incremented, Marked;
  }

  lemma FreshTicket(c: Config, s: State, e: Event, u: nat)
    requires |s.stages| == |s.seqNos| == |s.tickets| && u < |s.stages| && Ticketed(s, u)
    requires e.TakeSeq? && e.upload == u && Enabled(c, s, e)
    ensures |Next(c, s, e).stages| == |Next(c, s, e).seqNos| == |Next(c, s, e).tickets| == |s.stages|
    ensures Ticketed(Next(c, s, e), u)
  {
    hide CountOf, WithAlbum, Incremented, Marked;
    var t := Next(c, s, e);
    assert e.call.Works? ==> t.counts[|s.counts|] == Inc(s.stages[u].album, t.seqNos[u]);
  }

  lemma NewUpload(c: Config, s: State, e: Event)
    requires |s.stages| == |s.seqNos| == |s.tickets|
    ensures var t := Next(c, s, e);
            |s.stages| < |t.stages| ==> |t.stages| == |s.stages| + 1 && t.stages[|s.stages|].Started? && t.tickets[|s.stages|].None?
    ensures |s.stages| <= |Next(c, s, e).stages| == |Next(c, s, e).tickets|
  {
    hide CountOf, WithAlbum, Incremented, Marked;
  }

  lemma TicketOfUpload(c: Config, s: State, e: Event, u: nat)
    requires |s.stages| == |s.seqNos| == |s.tickets|
    requires u < |s.stages| ==> Ticketed(s, u)
    ensures |Next(c, s, e).stages| == |Next(c, s, e).seqNos| == |Next(c, s, e).tickets|
    ensures u < |Next(c, s, e).stages| ==> Ticketed(Next(c, s, e), u)
  {
    LengthsStep(c, s, e);
    NewUpload(c, s, e);
    HistoryGrows(c, s, e);
    TicketsKept(c, s, e, u);
    if u < |s.stages| {
      if !(e.TakeSeq? && e.upload == u) {
        StageStep(c, s, e, u);
        hide Next;
      } else if Enabled(c, s, e) {
        FreshTicket(c, s, e, u);
      }
    } else {
      hide Next;
    }
  }

  /** A new ticket is for the entry that this step appends. */
  lemma NewTicket(c: Config, s: State, e: Event, u: nat)
    requires |s.stages| == |s.seqNos| == |s.tickets| && u < |Next(c, s, e).tickets|
    ensures var ticket := Next(c, s, e).tickets[u];
            || (u < |s.tickets| && ticket == s.tickets[u])
            || ticket == None
            || (ticket == Some(|s.counts|) && e.TakeSeq? && e.upload == u)
  {
  }

  lemma TicketInHistory(s: State, u: nat)
    requires TicketInv(s)
    ensures u < |s.stages| && s.tickets[u].Some? ==> s.tickets[u].value < |s.counts|
  {
    assert u < |s.stages| ==> Ticketed(s, u);
  }

  lemma TicketStep(c: Config, s: State, e: Event)
    requires TicketInv(s)
    ensures TicketInv(Next(c, s, e))
  {
    TicketOfUpload(c, s, e, |s.stages|);
    hide Next, Ticketed;
    var t := Next(c, s, e);
    forall u: nat | u < |t.stages| ensures Ticketed(t, u) {
      TicketOfUpload(c, s, e, u);
    }
    forall u: nat, v: nat | u < v < |t.stages| && t.tickets[u].Some? ensures t.tickets[u] != t.tickets[v] {
      NewTicket(c, s, e, u);
      NewTicket(c, s, e, v);
      TicketInHistory(s, u);
      TicketInHistory(s, v);
    }
  }

  lemma {:induction false} TicketsHold(c: Config, events: seq<Event>)
    ensures TicketInv(Run(c, events))
  {
    if events != [] {
      TicketsHold(c, events[..|events| - 1]);
      TicketStep(c, Run(c, events[..|events| - 1]), events[|events| - 1]);
    }
  }

  /** Two accepted uploads to one album with the same number had a PUT of the album
      between their increments: (epoch, number) is unique. */
  lemma AcceptedNumbersUnique(c: Config, events: seq<Event>, u: nat, v: nat)
    requires u < |Run(c, events).stages| && v < |Run(c, events).stages| && u != v
    requires Run(c, events).stages[u].Accepted? && Run(c, events).stages[v].Accepted?
    requires Run(c, events).stages[u].key.album == Run(c, events).stages[v].key.album
    ensures |Run(c, events).seqNos| == |Run(c, events).tickets| == |Run(c, events).stages|
    ensures Run(c, events).tickets[u].Some? && Run(c, events).tickets[v].Some?
    ensures Run(c, events).seqNos[u] == Run(c, events).seqNos[v] ==>
              var s, album := Run(c, events), Run(c, events).stages[u].key.album;
              || PutSeparates(s.counts, album, s.tickets[u].value, s.tickets[v].value)
              || PutSeparates(s.counts, album, s.tickets[v].value, s.tickets[u].value)
  {
    CountsHold(c, events);
    TicketsHold(c, events);
    hide Run;
    var s, album := Run(c, events), Run(c, events).stages[u].key.album;
    assert Ticketed(s, u) && Ticketed(s, v) && AllCountUp(s.counts, album);
    var i, j := s.tickets[u].value, s.tickets[v].value;
    if s.seqNos[u] == s.seqNos[v] {
      if i < j && !PutBetween(s.counts, album, i, j) {
        NumbersGrow(s.counts, album, i, j);
      }
      if j < i && !PutBetween(s.counts, album, j, i) {
        NumbersGrow(s.counts, album, j, i);
      }
    }
  }

  // ----- an object can be orphaned -----

  const C1 := Config(1, 1, "bucket", "region")
  const K := Key("album", "photo")
  const FRESH := Photo(1, Processing, "")

  lemma RunSnoc(c: Config, events: seq<Event>, e: Event)
    ensures Run(c, events + [e]) == Next(c, Run(c, events), e)
  {
    assert (events + [e])[..|events|] == events;
  }

  /** The photo's record is written; its job is with `stages`, `queue` or `running`. */
  ghost predicate Uploading(s: State, stages: seq<Stage>, queue: seq<Key>, running: multiset<Job>, deletes: seq<Delete>) {
    && s.photos == map[K := FRESH] && s.objects == {}
    && s.stages == stages && s.queue == queue && s.running == running && s.deletes == deletes
  }

  lemma OrphanRecord()
    ensures var s := Next(C1, Next(C1, Next(C1, Init(), BeginUpload("album")), TakeSeq(0, Works)), WriteRecord(0, "photo", Works));
            Uploading(s, [Unsubmitted(K)], [], multiset{}, [])
  {
    var s1 := Next(C1, Init(), BeginUpload("album"));
    assert s1.stages == [Started("album")] && s1.albums == map[];
    var s2 := Next(C1, s1, TakeSeq(0, Works));
    assert s2.stages == [Numbered("album")] && s2.seqNos == [1] && s2.photos == map[];
    hide Run;
    var s3 := Next(C1, s2, WriteRecord(0, "photo", Works));
    assert s3.stages == [Unsubmitted(K)] && s3.photos == map[K := FRESH];
  }

  lemma OrphanTaken(s: State)
    requires Uploading(s, [Unsubmitted(K)], [], multiset{}, [])
    ensures Uploading(Next(C1, Next(C1, s, Submit(0)), TakeJob), [Accepted(K)], [], multiset{Job(K, Taken)}, [])
  {
    var t := Next(C1, s, Submit(0));
    assert t.stages == [Accepted(K)] && t.queue == [K];
    var u := Next(C1, t, TakeJob);
    assert u.queue == [] && u.running == multiset{Job(K, Taken)};
  }

  lemma OrphanObjectStep(s: State)
    requires Uploading(s, [Accepted(K)], [], multiset{Job(K, Taken)}, [])
    ensures Uploading(Next(C1, Next(C1, s, BeginDelete(K)), DeleteObject(0, Works)),
                      [Accepted(K)], [], multiset{Job(K, Taken)}, [ObjectGone(K)])
  {
    var t := Next(C1, s, BeginDelete(K));
    assert t.deletes == [Found(K)];
    var u := Next(C1, t, DeleteObject(0, Works));
    assert u.deletes == [ObjectGone(K)];
  }

  /** The record is gone while the worker holds its job. */
  ghost predicate RecordGone(s: State, work: Work) {
    && K !in s.photos && (work == Stored ==> K.photo in s.objects)
    && s.stages == [Accepted(K)] && s.queue == [] && s.running == multiset{Job(K, work)} && s.deletes == [Ended(K)]
  }

  lemma OrphanDeleted(s: State)
    requires Uploading(s, [Accepted(K)], [], multiset{Job(K, Taken)}, [ObjectGone(K)])
    ensures RecordGone(Next(C1, s, DeleteRecord(0, Works)), Taken)
  {
    hide Marked, Incremented, WithAlbum;
    assert Next(C1, s, DeleteRecord(0, Works)).deletes == [Ended(K)];
  }

  lemma OrphanStored(s: State)
    requires RecordGone(s, Taken)
    ensures RecordGone(Next(C1, s, StoreObject(K, Works)), Stored)
  {
    hide Marked, Incremented, WithAlbum;
    assert Next(C1, s, StoreObject(K, Works)).running == multiset{Job(K, Stored)};
  }

  lemma OrphanMarked(s: State)
    requires RecordGone(s, Stored)
    ensures var t := Next(C1, s, MarkRecord(K, true, Works));
            K !in t.photos && K.photo in t.objects && Drained(t) && t.deletes == [Ended(K)]
  {
    hide Incremented, WithAlbum;
    assert Next(C1, s, MarkRecord(K, true, Works)).running == multiset{};
  }

  lemma OrphanLeft(s: State)
    requires Uploading(s, [Accepted(K)], [], multiset{Job(K, Taken)}, [ObjectGone(K)])
    ensures var t := Next(C1, Next(C1, Next(C1, s, DeleteRecord(0, Works)), StoreObject(K, Works)), MarkRecord(K, true, Works));
            K !in t.photos && K.photo in t.objects && Drained(t) && t.deletes == [Ended(K)]
  {
    OrphanDeleted(s);
    hide Next, RecordGone, Uploading, Drained;
    OrphanStored(Next(C1, s, DeleteRecord(0, Works)));
    OrphanMarked(Next(C1, Next(C1, s, DeleteRecord(0, Works)), StoreObject(K, Works)));
  }

  /** A DELETE whose object step runs before the worker's upload leaves an object behind
      that has no record, with no work or request left to remove it. */
  lemma DeleteCanOrphanObject() returns (events: seq<Event>)
    ensures var s := Run(C1, events);
            && K !in s.photos && K.photo in s.objects
            && Drained(s) && s.deletes == [Ended(K)]
  {
    events := OrphanRun([], [BeginUpload("album"), TakeSeq(0, Works), WriteRecord(0, "photo", Works)]);
    assert Run(C1, []) == Init();
    hide Run, Next;
    OrphanRecord();
    OrphanTaken(Run(C1, events));
    events := OrphanRun(events, [Submit(0), TakeJob]);
    OrphanObjectStep(Run(C1, events));
    events := OrphanRun(events, [BeginDelete(K), DeleteObject(0, Works)]);
    OrphanLeft(Run(C1, events));
    events := OrphanRun(events, [DeleteRecord(0, Works), StoreObject(K, Works), MarkRecord(K, true, Works)]);
  }

  /** The run continued by two or three events. */
  lemma OrphanRun(before: seq<Event>, more: seq<Event>) returns (events: seq<Event>)
    requires |more| == 2 || |more| == 3
    ensures events == before + more
    ensures Run(C1, events) ==
            var s := Next(C1, Next(C1, Run(C1, before), more[0]), more[1]);
            if |more| == 2 then s else Next(C1, s, more[2])
  {
    hide Run, Next;
    events := before + [more[0]];
    RunSnoc(C1, before, more[0]);
    RunSnoc(C1, events, more[1]);
    events := events + [more[1]];
    if |more| == 3 {
      RunSnoc(C1, events, more[2]);
      events := events + [more[2]];
      assert events == before + more;
    } else {
      assert events == before + more;
    }
  }
}
