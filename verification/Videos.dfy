/** `VideosService`: creating a video with its first job, and handing out a finished one. */
module Videos {
  import opened Base
  import opened VideoRow
  import opened JobStatus
  import opened Dlq
  import opened Storage
  import JobLife
  import Pipeline
  import Concurrent

  const MAX_PRESIGN_TTL := 86400

  class VideosService {
    const videos: VideoTable
    const queue: VideoQueue

    constructor (videos: VideoTable, queue: VideoQueue)
      ensures this.videos == videos && this.queue == queue
    {
      this.videos, this.queue := videos, queue;
    }

    /** `videoId` is the id the database gives the new row. The queue is registered without default
        options here, so the job has no `attempts`. Each write may throw: an enqueue that throws leaves the
        row behind, and a link that throws leaves the row and the job without each other's name. */
    method CreateAndQueue(videoId: string, saveFault: Option<string>, enqueueFault: Option<string>,
                          linkFault: Option<string>)
      returns (r: Result<JobId, string>, queued: Option<JobId>)
      requires videoId !in videos.rows && queue.Valid()
      modifies videos, queue
      ensures queue.Valid()
      ensures r.Ok? <==> saveFault.None? && enqueueFault.None? && linkFault.None?
      ensures queued.Some? <==> saveFault.None? && enqueueFault.None?
      ensures saveFault.Some? ==> videos.rows == old(videos.rows)
      ensures saveFault.None? ==>
        && videoId in videos.rows && videos.rows == old(videos.rows)[videoId := videos.rows[videoId]]
        && videos.rows[videoId] == Row(Pending, None, None, None, EMPTY_METADATA, if r.Ok? then Some(r.value) else None)
      ensures queued.None? ==> queue.jobs == old(queue.jobs)
      ensures queued.Some? ==>
        && queued.value !in old(queue.jobs)
        && queue.jobs == old(queue.jobs)[queued.value := QueuedJob(videoId, None)]
      ensures r.Ok? ==>
        && queued == Some(r.value)
        && Pipeline.Created(Pipeline.State(videoId, videos.rows[videoId], None, [], [],
                                           [JobLife.NewJob(r.value, None)], [], [], 0))
    {
      if saveFault.Some? {
        return Err(saveFault.value), None;
      }
      var saved := Row(Pending, None, None, None, EMPTY_METADATA, None);
      videos.rows := videos.rows[videoId := saved];
      if enqueueFault.Some? {
        return Err(enqueueFault.value), None;
      }
      var id := queue.Add(videoId, None);
      if linkFault.Some? {
        return Err(linkFault.value), Some(id);
      }
      videos.rows := videos.rows[videoId := saved.(queueJobId := Some(id))];
      return Ok(id), Some(id);
    }

    /** Deletes the row; the status cache is not told. */
    method Remove(videoId: string, isOwner: bool) returns (r: Result<(), ResultError>)
      modifies videos
      ensures videoId !in old(videos.rows) ==> r == Err(VideoNotFound)
      ensures videoId in old(videos.rows) && !isOwner ==> r == Err(Forbidden)
      ensures r.Ok? <==> videoId in old(videos.rows) && isOwner
      ensures videos.rows == if r.Ok? then old(videos.rows) - {videoId} else old(videos.rows)
      ensures r.Ok? ==> forall entry :: Cell(Lookup(videos.rows, videoId), entry)
                                     == Perform(Cell(Some(old(videos.rows)[videoId]), entry), DoDelete)
    {
      if videoId !in videos.rows {
        return Err(VideoNotFound);
      }
      if !isOwner {
        return Err(Forbidden);
      }
      videos.rows := videos.rows - {videoId};
      return Ok(());
    }
  }

  // ---- The result endpoint --------------------------------------------------------------------

  datatype ResultError = VideoNotFound | Forbidden | NotCompleted(status: Status)

  datatype Download = Download(videoKey: string, thumbnailKey: Option<string>, ttlSeconds: int)

  /** `getVideoResult`, up to the presigning of its keys. */
  function GetVideoResult(row: Option<Row>, isOwner: bool, expiresIn: int): Result<Download, ResultError> {
    if row.None? then Err(VideoNotFound)
    else if !isOwner then Err(Forbidden)
    else if row.value.status != Completed || row.value.videoUrl.GetOr("") == "" then Err(NotCompleted(row.value.status))
    else
      var thumbnail := row.value.thumbnailUrl.GetOr("");
      Ok(Download(ExtractS3Key(row.value.videoUrl.value),
                  if thumbnail != "" then Some(ExtractS3Key(thumbnail)) else None,
                  ClampTtl(expiresIn)))
  }

  function ClampTtl(expiresIn: int): int {
    Min(Max(expiresIn, 60), MAX_PRESIGN_TTL)
  }

  /** Who gets what: no video, not the owner's, not ready, in that order of precedence; and for the owner of a finished
      video the two keys and the time to live asked for, kept between a minute and a day. */
  lemma ResultExactly(row: Option<Row>, isOwner: bool, expiresIn: int)
    ensures var r := GetVideoResult(row, isOwner, expiresIn);
            && (r == Err(VideoNotFound) <==> row.None?)
            && (r == Err(Forbidden) <==> row.Some? && !isOwner)
            && (row.Some? && isOwner ==>
                  var available := row.value.status == Completed
                                   && row.value.videoUrl.Some? && row.value.videoUrl.value != "";
                  && (r.Ok? <==> available)
                  && (!available ==> r == Err(NotCompleted(row.value.status))))
            && (r.Ok? ==>
                  && r.value.videoKey == ExtractS3Key(row.value.videoUrl.value)
                  && (if row.value.thumbnailUrl.None? || row.value.thumbnailUrl.value == "" then
                        r.value.thumbnailKey.None?
                      else r.value.thumbnailKey == Some(ExtractS3Key(row.value.thumbnailUrl.value)))
                  && (60 <= expiresIn <= 86400 ==> r.value.ttlSeconds == expiresIn)
                  && (expiresIn < 60 ==> r.value.ttlSeconds == 60)
                  && (expiresIn > 86400 ==> r.value.ttlSeconds == 86400))
  {
  }

  /** `VideoStatusResponseDto.resultReady` */
  predicate ResultReady(row: Row) {
    row.status == Completed
  }

  /** Whatever executions and retries do, a status page that says the result is ready is right: the
      owner's request for it is not answered with a conflict, and only then is it not. */
  lemma ReadyMeansAvailable(ws: seq<Concurrent.World>, acts: seq<Concurrent.Action>, i: nat, expiresIn: int)
    requires Concurrent.IsRun(ws, acts) && i < |ws| && ws[i].row.Some?
    ensures GetVideoResult(ws[i].row, true, expiresIn).Ok? <==> ResultReady(ws[i].row.value)
    ensures GetVideoResult(ws[i].row, true, expiresIn).Ok? ==>
      60 <= GetVideoResult(ws[i].row, true, expiresIn).value.ttlSeconds <= 86400
  {
    Concurrent.AlwaysCoherent(ws, acts, i);
  }

  /** The key an upload of video `videoId` is stored under. */
  function OutputKey(videoId: string): string {
    "videos/" + videoId + "/output.mp4"
  }

  lemma VideosPlain()
    ensures PlainPath("videos") && '/' !in "videos"
  {
  }

  lemma FirstSegmentDropped(c: Config, authority: string, segment: string, rest: string, key: string)
    requires Deployed(c, authority) && !HasEndpoint(c) && segment != "" && '/' !in segment && PlainPath(segment)
    requires key == segment + "/" + rest && PlainPath(key)
    ensures ExtractS3Key(PublicUrl(c, key)) == rest
  {
    VirtualHostKey(c, authority, segment, rest);
  }

  /** The presigned key is the key the video was uploaded under exactly when an endpoint is configured that
      the URL parser accepts; without one the leading `videos/` is gone, and with one that it rejects the
      key is the whole URL. */
  lemma PresignedKeyExactly(c: Config, authority: string, videoId: string, row: Row, expiresIn: int)
    requires Deployed(c, authority) && PlainPath(OutputKey(videoId))
    requires row.status == Completed && row.videoUrl == Some(PublicUrl(c, OutputKey(videoId)))
    ensures var r := GetVideoResult(Some(row), true, expiresIn);
            && r.Ok?
            && (r.value.videoKey == OutputKey(videoId) <==> HasEndpoint(c) && Accepted(authority))
            && (!HasEndpoint(c) ==> r.value.videoKey == videoId + "/output.mp4")
            && (HasEndpoint(c) && !Accepted(authority) ==> r.value.videoKey == PublicUrl(c, OutputKey(videoId)))
  {
    hide PublicUrl, ExtractS3Key, Accepted;
    var key := OutputKey(videoId);
    RoundTripExactly(c, authority, key);
    ExtractedKey(c, authority, key);
    assert GetVideoResult(Some(row), true, expiresIn).value.videoKey == ExtractS3Key(PublicUrl(c, key));
    if !HasEndpoint(c) {
      var rest := videoId + "/output.mp4";
      VideosPlain();
      assert key == "videos" + "/" + rest;
      FirstSegmentDropped(c, authority, "videos", rest, key);
    }
  }

  /** The defaults: bucket and region of the configuration, and no endpoint. */
  const DEFAULTS := Config("ai-gen-video-storage", "us-east-1", None)

  /** So with the defaults no completed video is presigned under the key it was uploaded under. */
  lemma DefaultsMisplaceEveryVideo(videoId: string, row: Row, expiresIn: int)
    requires PlainPath(OutputKey(videoId))
    requires row.status == Completed
    requires row.videoUrl == Some("https://" + "ai-gen-video-storage" + ".s3." + "us-east-1" + ".amazonaws.com/"
                                  + ("videos/" + videoId + "/output.mp4"))
    ensures PublicUrl(DEFAULTS, OutputKey(videoId)) == row.videoUrl.value
    ensures GetVideoResult(Some(row), true, expiresIn).Ok?
    ensures GetVideoResult(Some(row), true, expiresIn).value.videoKey == videoId + "/output.mp4" != OutputKey(videoId)
  {
    DefaultsDeployed();
    PresignedKeyExactly(DEFAULTS, "", videoId, row, expiresIn);
  }

  /** Letters, digits, `-` and `_` only, and no x in front. */
  predicate Word(w: string) {
    w != "" && w[0] != 'x' && w[0] != 'X' && forall i :: 0 <= i < |w| ==> Safe(w[i]) && w[i] != '.'
  }

  lemma WordsArePlain(w: string)
    requires Word(w)
    ensures '/' !in w && PlainPath(w) && NoPunycode(w)
  {
    assert forall i: nat :: !PunycodeAt(w, i);
    forall i, j | 0 <= i < j <= |w|
      ensures w[i..j] != "." && w[i..j] != ".."
    {
      assert w[i..j][0] == w[i];
    }
  }

  lemma DefaultsAreWords()
    ensures Word(DEFAULTS.bucket) && Word(DEFAULTS.region)
  {
  }

  lemma DefaultsDeployed()
    ensures Deployed(DEFAULTS, "") && !HasEndpoint(DEFAULTS)
  {
    DefaultsAreWords();
    WordsAreDeployed(DEFAULTS);
  }

  lemma WordsAreDeployed(c: Config)
    requires Word(c.bucket) && Word(c.region) && !HasEndpoint(c)
    ensures Deployed(c, "")
  {
    WordsArePlain(c.bucket);
    WordsArePlain(c.region);
  }
}
