/** `extract_useful_data` (scripts/fetch_youtube_metadata.py): one item of
    a YouTube Data API `videos.list` response flattened into the record
    stored for the video. The item is a typed view of the JSON object: a
    nested lookup `item.get(a, {}).get(b)` becomes one optional field,
    since it is absent exactly when either level is; the objects whose
    emptiness or keys matter (`statistics`, `liveStreamingDetails`) are
    kept as maps. The clock is a parameter. */
module Metadata {
  import opened Wrappers
  import opened Decimal

  const VideoKind: string := "youtube#video"

  datatype Thumbnail = Thumbnail(url: Option<string>)

  datatype Snippet = Snippet(
    title: string,
    description: Option<string>,
    thumbnails: Option<map<string, Thumbnail>>,
    tags: Option<seq<string>>,
    categoryId: Option<string>,
    defaultAudioLanguage: Option<string>,
    channelId: string,
    channelTitle: string,
    publishedAt: string)

  datatype ContentDetails = ContentDetails(duration: string, licensedContent: Option<bool>)

  /** `status`, absent fields and an absent object alike giving `None`. */
  datatype Status = Status(privacyStatus: Option<string>, license: Option<string>, embeddable: Option<bool>)

  datatype GeoPoint = GeoPoint(latitude: real, longitude: real, altitude: Option<real>)

  datatype VideoItem = VideoItem(
    kind: string,
    id: string,
    snippet: Snippet,
    contentDetails: ContentDetails,
    statistics: Option<map<string, string>>,
    status: Status,
    topicCategories: Option<seq<string>>,
    recordingDate: Option<string>,
    recordingLocation: Option<GeoPoint>,
    liveStreamingDetails: Option<map<string, string>>,
    hasPaidProductPlacement: Option<bool>)

  datatype VideoMetadata = VideoMetadata(
    videoId: string,
    title: string,
    description: Option<string>,
    thumbnailUrl: Option<string>,
    tags: seq<string>,
    categoryId: Option<string>,
    audioLanguage: Option<string>,
    duration: string,
    licensedContent: Option<bool>,
    channelId: string,
    channelTitle: string,
    publishedAt: string,
    viewCount: Option<int>,
    likeCount: Option<int>,
    commentCount: Option<int>,
    privacyStatus: Option<string>,
    license: Option<string>,
    embeddable: Option<bool>,
    topicCategories: seq<string>,
    recordingDate: Option<string>,
    recordingLocation: Option<GeoPoint>,
    wasLivestream: bool,
    actualStartTime: Option<string>,
    actualEndTime: Option<string>,
    hasPaidProductPlacement: Option<bool>,
    metadataUpdatedAt: string)

  /** `int(...)` raising `ValueError` on a statistic that is not a number;
      the record is not produced. */
  datatype ExtractError = NotANumber(field: string)

  /** `d.get(key)` on a JSON object of strings. */
  function Get(d: Option<map<string, string>>, key: string): (r: Option<string>)
    ensures r.Some? <==> d.Some? && key in d.value
    ensures r.Some? ==> r.value == d.value[key]
  {
    if d.Some? && key in d.value then Some(d.value[key]) else None
  }

  /** The statistic text is there and not empty: Python's truth test on
      `statistics.get(key)`. */
  predicate Present(stats: Option<map<string, string>>, key: string) {
    Get(stats, key).Some? && Get(stats, key).value != ""
  }

  /** `int(stats.get(key, 0)) if stats.get(key) else None`. */
  function Statistic(stats: Option<map<string, string>>, key: string): (r: Result<Option<int>, ExtractError>)
    ensures !Present(stats, key) ==> r == Success(None)
    ensures Present(stats, key) && ParseInt(Get(stats, key).value).None? ==> r == Failure(NotANumber(key))
    ensures Present(stats, key) && ParseInt(Get(stats, key).value).Some? ==> r == Success(ParseInt(Get(stats, key).value))
    ensures r.Success? ==> CountOf(r.value, stats, key)
  {
    if !Present(stats, key) then Success(None)
    else
      match ParseInt(Get(stats, key).value)
      case None => Failure(NotANumber(key))
      case Some(n) => Success(Some(n))
  }

  /** The statistic reads as a number, or is absent. */
  predicate Readable(stats: Option<map<string, string>>, key: string) {
    !Present(stats, key) || ParseInt(Get(stats, key).value).Some?
  }

  predicate AllReadable(stats: Option<map<string, string>>) {
    Readable(stats, "viewCount") && Readable(stats, "likeCount") && Readable(stats, "commentCount")
  }

  /** `snippet.get('thumbnails', {}).get('maxres', {}).get('url')`. */
  function MaxresUrl(thumbnails: Option<map<string, Thumbnail>>): (r: Option<string>)
    ensures r.Some? <==> thumbnails.Some? && "maxres" in thumbnails.value && thumbnails.value["maxres"].url.Some?
    ensures r.Some? ==> r.value == thumbnails.value["maxres"].url.value
  {
    if thumbnails.Some? && "maxres" in thumbnails.value then thumbnails.value["maxres"].url else None
  }

  /** `extract_useful_data(video_item)`, with `now` the `utcnow()` stamp:
      `None` for an item that is not a video; a failure when one of the
      three statistics is there but not a number; otherwise the flattened
      record. */
  function Extract(item: VideoItem, now: string): (r: Result<Option<VideoMetadata>, ExtractError>)
    ensures r.Success? && r.value.None? <==> item.kind != VideoKind
    ensures r.Failure? <==> (item.kind == VideoKind && !AllReadable(item.statistics))
    ensures r.Success? && r.value.Some? ==> Describes(r.value.value, item, now)
  {
    if item.kind != VideoKind then Success(None)
    else
      match Statistic(item.statistics, "viewCount")
      case Failure(e) => Failure(e)
      case Success(views) =>
        match Statistic(item.statistics, "likeCount")
        case Failure(e) => Failure(e)
        case Success(likes) =>
          match Statistic(item.statistics, "commentCount")
          case Failure(e) => Failure(e)
          case Success(comments) =>
            Success(Some(Record(item, now, views, likes, comments)))
  }

  /** The record built from an item and its three statistics. */
  function Record(item: VideoItem, now: string, views: Option<int>, likes: Option<int>, comments: Option<int>): (m: VideoMetadata)
    requires CountOf(views, item.statistics, "viewCount")
    requires CountOf(likes, item.statistics, "likeCount")
    requires CountOf(comments, item.statistics, "commentCount")
    ensures Describes(m, item, now)
  {
    var s := item.snippet;
    VideoMetadata(
      item.id, s.title, s.description, MaxresUrl(s.thumbnails), s.tags.GetOr([]),
      s.categoryId, s.defaultAudioLanguage, item.contentDetails.duration,
      item.contentDetails.licensedContent, s.channelId, s.channelTitle, s.publishedAt,
      views, likes, comments,
      item.status.privacyStatus, item.status.license, item.status.embeddable,
      item.topicCategories.GetOr([]), item.recordingDate, item.recordingLocation,
      item.liveStreamingDetails.Some? && |item.liveStreamingDetails.value| > 0,
      Get(item.liveStreamingDetails, "actualStartTime"),
      Get(item.liveStreamingDetails, "actualEndTime"),
      item.hasPaidProductPlacement, now)
  }

  /** A statistic of the record against the item: `None` exactly when the
      text is missing or empty, else the number it reads as. */
  predicate CountOf(count: Option<int>, stats: Option<map<string, string>>, key: string) {
    && (count.None? <==> !Present(stats, key))
    && (count.Some? ==> ParseInt(Get(stats, key).value) == count)
  }

  /** What a produced record says about its item. */
  predicate Describes(m: VideoMetadata, item: VideoItem, now: string) {
    && m.videoId == item.id
    && m.title == item.snippet.title
    && m.description == item.snippet.description
    && m.thumbnailUrl == MaxresUrl(item.snippet.thumbnails)
    && m.categoryId == item.snippet.categoryId
    && m.audioLanguage == item.snippet.defaultAudioLanguage
    && m.licensedContent == item.contentDetails.licensedContent
    && m.privacyStatus == item.status.privacyStatus
    && m.license == item.status.license
    && m.embeddable == item.status.embeddable
    && m.recordingDate == item.recordingDate
    && m.recordingLocation == item.recordingLocation
    && m.hasPaidProductPlacement == item.hasPaidProductPlacement
    && m.channelId == item.snippet.channelId
    && m.channelTitle == item.snippet.channelTitle
    && m.publishedAt == item.snippet.publishedAt
    && m.duration == item.contentDetails.duration
    && (item.snippet.tags.None? ==> m.tags == []) && (item.snippet.tags.Some? ==> m.tags == item.snippet.tags.value)
    && (item.topicCategories.None? ==> m.topicCategories == [])
    && (item.topicCategories.Some? ==> m.topicCategories == item.topicCategories.value)
    && CountOf(m.viewCount, item.statistics, "viewCount")
    && CountOf(m.likeCount, item.statistics, "likeCount")
    && CountOf(m.commentCount, item.statistics, "commentCount")
    && (m.wasLivestream <==> item.liveStreamingDetails.Some? && |item.liveStreamingDetails.value| > 0)
    && m.actualStartTime == Get(item.liveStreamingDetails, "actualStartTime")
    && m.actualEndTime == Get(item.liveStreamingDetails, "actualEndTime")
    && (item.liveStreamingDetails.None? ==> m.actualStartTime.None? && m.actualEndTime.None?)
    && (m.actualStartTime.Some? ==> m.wasLivestream)
    && (m.actualEndTime.Some? ==> m.wasLivestream)
    && m.metadataUpdatedAt == now
  }

  /** A count the API sends as its decimal text comes back as that number. */
  lemma StatisticRoundTrip(stats: map<string, string>, key: string, n: nat)
    requires key in stats && stats[key] == Show(n)
    ensures Statistic(Some(stats), key) == Success(Some(n as int))
  {
    ParseShow(n);
  }

  /** A count of zero is kept as 0: the text "0" is not empty, so it is
      not taken for a missing statistic. */
  lemma ZeroCountKept(stats: map<string, string>, key: string)
    requires key in stats && stats[key] == "0"
    ensures Statistic(Some(stats), key) == Success(Some(0))
  {
    assert Show(0) == "0";
    StatisticRoundTrip(stats, key, 0);
  }

  /** A video whose statistics the API sends as numbers is always turned
      into a record. */
  lemma VideoWithNumbers(item: VideoItem, now: string, views: nat, likes: nat, comments: nat)
    requires item.kind == VideoKind
    requires item.statistics == Some(map["viewCount" := Show(views), "likeCount" := Show(likes), "commentCount" := Show(comments)])
    ensures Extract(item, now).Success? && Extract(item, now).value.Some?
    ensures Extract(item, now).value.value.viewCount == Some(views as int)
    ensures Extract(item, now).value.value.likeCount == Some(likes as int)
    ensures Extract(item, now).value.value.commentCount == Some(comments as int)
  {
    var stats := item.statistics.value;
    StatisticRoundTrip(stats, "viewCount", views);
    StatisticRoundTrip(stats, "likeCount", likes);
    StatisticRoundTrip(stats, "commentCount", comments);
  }
}
