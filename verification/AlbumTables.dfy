/** The album and photo tables of album-store, with the atomic operations on them, and
    the sequential code of the handlers and of a worker. */
module AlbumTables {
  import opened Common

  datatype Album = Album(title: string, description: string, owner: string)

  /** A PUT stores an album without a counter; an increment may create an item without an album. */
  datatype AlbumItem = AlbumItem(album: Option<Album>, photoCount: Option<nat>)

  datatype Status = Processing | Completed | Failed

  datatype Photo = Photo(seqNo: nat, status: Status, url: string)

  datatype Key = Key(album: string, photo: string)

  type Albums = map<string, AlbumItem>
  type Photos = map<Key, Photo>

  function CountOf(albums: Albums, id: string): nat {
    if id in albums && albums[id].photoCount.Some? then albums[id].photoCount.value else 0
  }

  function ItemOf(albums: Albums, id: string): Option<AlbumItem> {
    if id in albums then Some(albums[id]) else None
  }

  /** What was PUT for the album, if anything. */
  function AlbumData(albums: Albums, id: string): Option<Album> {
    if id in albums then albums[id].album else None
  }

  /** `PutItem`: the whole item is replaced, and the counter with it. */
  function WithAlbum(albums: Albums, id: string, album: Album): Albums {
    albums[id := AlbumItem(Some(album), None)]
  }

  /** `ADD photo_count 1`. */
  function Incremented(albums: Albums, id: string): Albums {
    albums[id := AlbumItem(AlbumData(albums, id), Some(CountOf(albums, id) + 1))]
  }

  /** The update is conditional on a record that is still processing. */
  predicate CanMark(photos: Photos, key: Key) {
    key in photos && photos[key].status == Processing
  }

  function Marked(photos: Photos, key: Key, status: Status, url: string): Photos {
    if CanMark(photos, key)
    then photos[key := Photo(photos[key].seqNo, status, if url != "" then url else photos[key].url)]
    else photos
  }

  /** How a conditional update ended: done, condition not met, or an error of the database. */
  datatype Update = Applied | Unmet | Errored

  datatype Fetch = Fetched(photo: Option<Photo>) | FetchError

  /** How a call to a remote service goes: it works, it fails, or it takes effect although the
      caller gets an error. */
  datatype Call = Works | Fails | Unsure

  /** Each method takes how its call goes. */
  class DynamoDB {
    var albums: Albums
    var photos: Photos

    constructor ()
      ensures albums == map[] && photos == map[]
    {
      albums, photos := map[], map[];
    }

    method PutAlbum(id: string, album: Album, call: Call) returns (ok: bool)
      modifies this
      ensures ok == call.Works?
      ensures albums == (if call.Fails? then old(albums) else WithAlbum(old(albums), id, album)) && photos == old(photos)
      ensures !call.Fails? ==> id in albums && albums[id].album == Some(album) && albums[id].photoCount == None
      ensures forall other :: other != id ==> ItemOf(albums, other) == ItemOf(old(albums), other)
    {
      if !call.Fails? {
        albums := albums[id := AlbumItem(Some(album), None)];
      }
      ok := call.Works?;
    }

    method IncrementAndGetSeq(id: string, call: Call) returns (seqNo: Option<nat>)
      modifies this
      ensures photos == old(photos)
      ensures albums == if call.Fails? then old(albums) else Incremented(old(albums), id)
      ensures seqNo == if call.Works? then Some(CountOf(old(albums), id) + 1) else None
      ensures call.Works? ==> seqNo.value == CountOf(albums, id)
      ensures !call.Fails? ==> id in albums && albums[id].photoCount.Some? && AlbumData(albums, id) == AlbumData(old(albums), id)
      ensures forall other :: other != id ==> ItemOf(albums, other) == ItemOf(old(albums), other)
    {
      if call.Fails? {
        return None;
      }
      var album, n := None, 1;
      if id in albums {
        album := albums[id].album;
        if albums[id].photoCount.Some? {
          n := albums[id].photoCount.value + 1;
        }
      }
      albums := albums[id := AlbumItem(album, Some(n))];
      seqNo := if call.Works? then Some(n) else None;
    }

    method PutPhoto(key: Key, photo: Photo, call: Call) returns (ok: bool)
      modifies this
      ensures ok == call.Works?
      ensures photos == (if call.Fails? then old(photos) else old(photos)[key := photo]) && albums == old(albums)
    {
      if !call.Fails? {
        photos := photos[key := photo];
      }
      ok := call.Works?;
    }

    method GetPhoto(key: Key, works: bool) returns (fetch: Fetch)
      ensures fetch == if works then Fetched(if key in photos then Some(photos[key]) else None) else FetchError
    {
      if !works {
        return FetchError;
      }
      if key in photos {
        return Fetched(Some(photos[key]));
      }
      return Fetched(None);
    }

    method UpdatePhotoStatus(key: Key, status: Status, url: string, call: Call) returns (update: Update)
      modifies this
      ensures update == if !call.Works? then Errored
                        else if key in old(photos) && old(photos)[key].status == Processing then Applied else Unmet
      ensures photos == (if call.Fails? then old(photos) else Marked(old(photos), key, status, url)) && albums == old(albums)
      ensures if !call.Fails? && key in old(photos) && old(photos)[key].status == Processing
              then photos == old(photos)[key := Photo(old(photos)[key].seqNo, status, if url == "" then old(photos)[key].url else url)]
              else photos == old(photos)
    {
      if call.Fails? {
        return Errored;
      }
      if key !in photos || photos[key].status != Processing {
        return if call.Works? then Unmet else Errored;
      }
      var photo := photos[key].(status := status);
      if url != "" {
        photo := photo.(url := url);
      }
      photos := photos[key := photo];
      return if call.Works? then Applied else Errored;
    }

    method DeletePhoto(key: Key, call: Call) returns (ok: bool)
      modifies this
      ensures ok == call.Works?
      ensures photos == (if call.Fails? then old(photos) else old(photos) - {key}) && albums == old(albums)
    {
      if !call.Fails? {
        photos := photos - {key};
      }
      ok := call.Works?;
    }
  }

  /** The public address of an object. */
  function ObjectURL(bucket: string, region: string, key: string): string {
    "https://" + bucket + ".s3." + region + ".amazonaws.com/" + key
  }

  class S3Store {
    var objects: set<string>
    const bucket: string
    const region: string

    constructor (bucket: string, region: string)
      ensures objects == {} && this.bucket == bucket && this.region == region
    {
      objects := {};
      this.bucket, this.region := bucket, region;
    }

    /** `url` is empty when the upload reported an error. */
    method Upload(key: string, call: Call) returns (url: string)
      modifies this
      ensures objects == old(objects) + (if call.Fails? then {} else {key})
      ensures url == if call.Works? then ObjectURL(bucket, region, key) else ""
    {
      if !call.Fails? {
        objects := objects + {key};
      }
      url := if call.Works? then "https://" + bucket + ".s3." + region + ".amazonaws.com/" + key else "";
    }

    method Delete(key: string, call: Call)
      modifies this
      ensures objects == old(objects) - (if call.Fails? then {} else {key})
    {
      if !call.Fails? {
        objects := objects - {key};
      }
    }
  }

  function ObjectKey(photo: string): string {
    "photos/" + photo
  }

  class Pool {
    var jobs: seq<Key>
    const capacity: nat

    constructor (capacity: nat)
      ensures jobs == [] && this.capacity == capacity
    {
      this.jobs := [];
      this.capacity := capacity;
    }

    /** One attempt to send; the caller waits and tries again while the queue is full. */
    method Submit(job: Key) returns (sent: bool)
      modifies this
      ensures sent == (|old(jobs)| < capacity)
      ensures jobs == old(jobs) + if sent then [job] else []
    {
      sent := |jobs| < capacity;
      if sent {
        jobs := jobs + [job];
      }
    }

    /** One round of a worker's loop. */
    method RunNext(db: DynamoDB, s3: S3Store, upload: Call, update: Call) returns (job: Key)
      requires jobs != []
      modifies this, db, s3
      ensures job == old(jobs)[0] && jobs == old(jobs)[1..]
      ensures s3.objects == old(s3.objects) + (if upload.Fails? then {} else {"photos/" + job.photo})
      ensures db.albums == old(db.albums)
      ensures db.photos.Keys == old(db.photos).Keys
      ensures forall k :: k in db.photos ==>
                if k == job && old(db.photos)[k].status == Processing && !update.Fails?
                then && db.photos[k].seqNo == old(db.photos)[k].seqNo
                     && db.photos[k].status == (if upload.Works? then Completed else Failed)
                     && db.photos[k].url == (if upload.Works? then ObjectURL(s3.bucket, s3.region, "photos/" + job.photo)
                                             else old(db.photos)[k].url)
                else db.photos[k] == old(db.photos)[k]
    {
      job := jobs[0];
      jobs := jobs[1..];
      var url := s3.Upload(ObjectKey(job.photo), upload);
      if url == "" {
        var _ := db.UpdatePhotoStatus(job, Failed, "", update);
      } else {
        var _ := db.UpdatePhotoStatus(job, Completed, url, update);
      }
    }
  }

  /** The answer to an upload; with a full queue the handler still waits to submit. */
  datatype UploadReply = UploadAccepted(photo: Photo) | UploadFailed | UploadWaits

  /** A whole upload with nothing in between; the caller supplies the fresh id. */
  method UploadPhoto(db: DynamoDB, pool: Pool, album: string, photoID: string, increment: Call, put: Call)
    returns (reply: UploadReply)
    modifies db, pool
    ensures var photo := Photo(CountOf(old(db.albums), album) + 1, Processing, "");
            && reply == (if !increment.Works? || !put.Works? then UploadFailed
                         else if |old(pool.jobs)| < pool.capacity then UploadAccepted(photo) else UploadWaits)
            && db.albums == (if increment.Fails? then old(db.albums) else Incremented(old(db.albums), album))
            && db.photos == (if increment.Works? && !put.Fails? then old(db.photos)[Key(album, photoID) := photo]
                             else old(db.photos))
    ensures pool.jobs == old(pool.jobs) + if reply.UploadAccepted? then [Key(album, photoID)] else []
  {
    var seqNo := db.IncrementAndGetSeq(album, increment);
    if seqNo.None? {
      return UploadFailed;
    }
    var photo := Photo(seqNo.value, Processing, "");
    var ok := db.PutPhoto(Key(album, photoID), photo, put);
    if !ok {
      return UploadFailed;
    }
    var sent := pool.Submit(Key(album, photoID));
    return if sent then UploadAccepted(photo) else UploadWaits;
  }

  datatype DeleteReply = DeleteDone | DeleteFailed

  /** A whole delete with nothing in between. */
  method DeletePhoto(db: DynamoDB, s3: S3Store, key: Key, getWorks: bool, removal: Call, record: Call)
    returns (reply: DeleteReply)
    modifies db, s3
    ensures var found := getWorks && key in old(db.photos);
            && reply == (if !getWorks || (found && !record.Works?) then DeleteFailed else DeleteDone)
            && db.photos == (if found && !record.Fails? then old(db.photos) - {key} else old(db.photos))
            && s3.objects == (if found && !removal.Fails? then old(s3.objects) - {"photos/" + key.photo} else old(s3.objects))
    ensures db.albums == old(db.albums)
  {
    var fetch := db.GetPhoto(key, getWorks);
    if fetch.FetchError? {
      return DeleteFailed;
    }
    if fetch.photo.None? {
      return DeleteDone;
    }
    s3.Delete(ObjectKey(key.photo), removal);
    var ok := db.DeletePhoto(key, record);
    return if ok then DeleteDone else DeleteFailed;
  }
}
