/** The read-only metadata path: `VideoProcessor.get_video_info` and its thumbnail choice. */
module Metadata {
  import opened Wrappers
  import opened Errors
  import opened Duration
  import opened QualityBuckets

  /** A thumbnail is preferred when it is at least this wide. */
  const MIN_THUMBNAIL_WIDTH := 480
  const EXTRACT_ERROR_PREFIX := "Failed to extract video information: "

  /** A thumbnail entry of the extractor's record; either key may be missing. */
  datatype Thumbnail = Thumbnail(width: Option<int>, url: Option<string>)

  /** The fields of the extractor's record the processor reads; `None` is a missing key. */
  datatype RawInfo = RawInfo(
    title: Option<string>,
    thumbnails: Option<seq<Thumbnail>>,
    duration: Option<int>,
    formats: Option<seq<Format>>,
    uploader: Option<string>,
    viewCount: Option<int>,
    likeCount: Option<int>,
    webpageUrl: Option<string>)

  /** What the metadata lookup did: raised with a message, or returned a record. */
  datatype Extraction = ExtractionRaised(message: string) | Extracted(info: RawInfo)

  /** The preview record returned to the caller. */
  datatype VideoInfo = VideoInfo(
    title: string,
    thumbnail: Option<string>,
    duration: string,
    durationSeconds: int,
    formats: seq<string>,
    uploader: string,
    viewCount: int,
    likeCount: int,
    webpageUrl: string)

  /** A missing width counts as 0. */
  predicate Wide(t: Thumbnail)
  {
    t.width.GetOr(0) >= MIN_THUMBNAIL_WIDTH
  }

  /** Python truthiness of an optional string: present and non-empty. */
  predicate Truthy(url: Option<string>)
  {
    url.Some? && url.value != ""
  }

  /** `k` is the first wide entry of `thumbs`. */
  predicate FirstWideAt(thumbs: seq<Thumbnail>, k: int)
  {
    0 <= k < |thumbs| && Wide(thumbs[k]) && forall j :: 0 <= j < k ==> !Wide(thumbs[j])
  }

  /** The index of the first wide entry, or `|thumbs|` when there is none. */
  function FirstWide(thumbs: seq<Thumbnail>): (k: nat)
    ensures k <= |thumbs|
    ensures k < |thumbs| ==> Wide(thumbs[k])
    ensures forall j :: 0 <= j < k ==> !Wide(thumbs[j])
  {
    if thumbs == [] then 0
    else if Wide(thumbs[0]) then 0
    else 1 + FirstWide(thumbs[1..])
  }

  /**
   * The thumbnail chosen: the url of the first wide entry if it is truthy, otherwise the
   * url of the first entry (whatever it is); nothing for an empty list.
   */
  function BestThumbnail(thumbs: seq<Thumbnail>): (r: Option<string>)
    ensures thumbs == [] ==> r.None?
    ensures thumbs != [] ==> exists t :: t in thumbs && t.url == r
  {
    if thumbs == [] then None
    else
      var k := FirstWide(thumbs);
      if k < |thumbs| && Truthy(thumbs[k].url) then thumbs[k].url else thumbs[0].url
  }

  /** Scans for the first wide thumbnail and stops there, then falls back to the first entry. */
  method SelectThumbnail(thumbs: seq<Thumbnail>) returns (best: Option<string>)
    ensures best == BestThumbnail(thumbs)
  {
    best := None;
    if |thumbs| > 0 {
      var i := 0;
      while i < |thumbs|
        invariant 0 <= i <= |thumbs|
        invariant forall j :: 0 <= j < i ==> !Wide(thumbs[j])
        invariant best == None
      {
        if Wide(thumbs[i]) {
          best := thumbs[i].url;
          assert FirstWide(thumbs) == i by { FirstWideUnique(thumbs, i); }
          break;
        }
        i := i + 1;
      }
      if !Truthy(best) {
        best := thumbs[0].url;
      }
    }
  }

  lemma FirstWideUnique(thumbs: seq<Thumbnail>, k: int)
    requires FirstWideAt(thumbs, k)
    ensures FirstWide(thumbs) == k
  {
  }

  /**
   * The choice, stated without the helper: nothing for an empty list; the first wide entry's
   * url when it is truthy; the first entry's url when the first wide entry's url is not
   * truthy or when no entry is wide.
   */
  lemma BestThumbnailSpec(thumbs: seq<Thumbnail>)
    ensures thumbs == [] ==> BestThumbnail(thumbs) == None
    ensures forall k :: FirstWideAt(thumbs, k) && Truthy(thumbs[k].url) ==> BestThumbnail(thumbs) == thumbs[k].url
    ensures forall k :: FirstWideAt(thumbs, k) && !Truthy(thumbs[k].url) ==> BestThumbnail(thumbs) == thumbs[0].url
    ensures thumbs != [] && (forall k :: 0 <= k < |thumbs| ==> !Wide(thumbs[k])) ==> BestThumbnail(thumbs) == thumbs[0].url
  {
    forall k | FirstWideAt(thumbs, k) ensures FirstWide(thumbs) == k {
      FirstWideUnique(thumbs, k);
    }
  }

  /**
   * The preview record. An exception from the extractor becomes a `ValueError` with a fixed
   * prefix; otherwise every missing field takes its default and the thumbnail, duration
   * string and quality labels come from their selectors.
   */
  method GetVideoInfo(url: string, extraction: Extraction) returns (r: Result<VideoInfo, Exception>)
    ensures extraction.ExtractionRaised? ==> r == Failure(ValueError(EXTRACT_ERROR_PREFIX + extraction.message))
    ensures extraction.Extracted? ==> r.Success?
    ensures extraction.Extracted? ==>
      var raw, v := extraction.info, r.value;
      && v.title == raw.title.GetOr("Unknown Title")
      && v.thumbnail == BestThumbnail(raw.thumbnails.GetOr([]))
      && v.durationSeconds == raw.duration.GetOr(0)
      && v.duration == FormatDuration(Some(raw.duration.GetOr(0)))
      && v.formats == Qualities(raw.formats.GetOr([]))
      && v.uploader == raw.uploader.GetOr("Unknown")
      && v.viewCount == raw.viewCount.GetOr(0)
      && v.likeCount == raw.likeCount.GetOr(0)
      && v.webpageUrl == raw.webpageUrl.GetOr(url)
  {
    match extraction
    case ExtractionRaised(message) =>
      r := Failure(ValueError(EXTRACT_ERROR_PREFIX + message));
    case Extracted(info) =>
      var thumbnail := SelectThumbnail(info.thumbnails.GetOr([]));
      var duration := info.duration.GetOr(0);
      var durationText := FormatDuration(Some(duration));
      var qualities := ExtractQualities(info.formats.GetOr([]));
      r := Success(VideoInfo(
        info.title.GetOr("Unknown Title"),
        thumbnail,
        durationText,
        duration,
        qualities,
        info.uploader.GetOr("Unknown"),
        info.viewCount.GetOr(0),
        info.likeCount.GetOr(0),
        info.webpageUrl.GetOr(url)));
  }
}
