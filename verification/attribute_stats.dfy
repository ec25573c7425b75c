/** `getAttributeStats` (src/services/stats/attributeStats.ts): five
    `COUNT(*) FILTER (WHERE ...)` breakdowns over the whole catalog. A SQL
    comparison with NULL is never true, so `= true` and `= false` skip the
    videos whose flag is NULL and `IS NULL` counts exactly those. */
module AttributeStats {
  import opened Wrappers
  import opened Store

  datatype Breakdown = Breakdown(yes: nat, no: nat, unknown: nat)

  datatype Streaming = Streaming(livestream: nat, regular: nat)

  datatype Metadata = Metadata(hasTags: nat, noTags: nat, hasTopics: nat, noTopics: nat)

  datatype AttributeStats = AttributeStats(
    productPlacement: Breakdown,
    licensing: Breakdown,
    privacy: Breakdown,
    streaming: Streaming,
    metadata: Metadata)

  function PaidPlacement(v: Video): Option<bool> {
    v.hasPaidProductPlacement
  }

  function Licensed(v: Video): Option<bool> {
    v.licensedContent
  }

  function Livestream(v: Video): Option<bool> {
    v.wasLivestream
  }

  /** `WHERE flag = b` for a boolean `b`, or `WHERE flag IS NULL` for `None`. */
  function FlagIs(flag: Video -> Option<bool>, b: Option<bool>): Video -> bool {
    (v: Video) => flag(v) == b
  }

  function FlagKnown(flag: Video -> Option<bool>): Video -> bool {
    (v: Video) => flag(v).Some?
  }

  /** `COUNT(*) FILTER (WHERE p)`. */
  function Count(videos: seq<Video>, p: Video -> bool): nat {
    |Filter(videos, p)|
  }

  /** True / false / NULL counts of a nullable flag: every video lands in
      exactly one of the three. */
  function FlagBreakdown(videos: seq<Video>, flag: Video -> Option<bool>): (r: Breakdown)
    ensures r.yes == Count(videos, FlagIs(flag, Some(true)))
    ensures r.no == Count(videos, FlagIs(flag, Some(false)))
    ensures r.unknown == Count(videos, FlagIs(flag, None))
    ensures r.yes + r.no + r.unknown == |videos|
    ensures r.yes + r.no == Count(videos, FlagKnown(flag))
  {
    var r := Breakdown(
      Count(videos, FlagIs(flag, Some(true))),
      Count(videos, FlagIs(flag, Some(false))),
      Count(videos, FlagIs(flag, None)));
    FlagsPartition(flag);
    FilterPartition(videos, FlagIs(flag, Some(true)), FlagIs(flag, Some(false)), FlagIs(flag, None));
    KnownSplit(videos, flag);
    r
  }

  /** A nullable flag is true, false or NULL, exactly one of them. */
  lemma FlagsPartition(flag: Video -> Option<bool>)
    ensures forall v ::
      (if FlagIs(flag, Some(true))(v) then 1 else 0) + (if FlagIs(flag, Some(false))(v) then 1 else 0) +
      (if FlagIs(flag, None)(v) then 1 else 0) == 1
    ensures forall v :: FlagIs(flag, None)(v) == !FlagKnown(flag)(v)
  {
    forall v ensures
      (if FlagIs(flag, Some(true))(v) then 1 else 0) + (if FlagIs(flag, Some(false))(v) then 1 else 0) +
      (if FlagIs(flag, None)(v) then 1 else 0) == 1
    {
      match flag(v)
      case None =>
      case Some(b) =>
    }
  }

  /** The videos whose flag is known are those whose flag is true or false. */
  lemma KnownSplit(videos: seq<Video>, flag: Video -> Option<bool>)
    ensures Count(videos, FlagIs(flag, Some(true))) + Count(videos, FlagIs(flag, Some(false)))
      == Count(videos, FlagKnown(flag))
  {
    FlagsPartition(flag);
    FilterPartition(videos, FlagIs(flag, Some(true)), FlagIs(flag, Some(false)), FlagIs(flag, None));
    FilterComplement(videos, FlagKnown(flag), FlagIs(flag, None));
  }

  function IsPublic(v: Video): bool {
    v.privacyStatus == Some("public")
  }

  function IsOtherPrivacy(v: Video): bool {
    v.privacyStatus.Some? && v.privacyStatus.value != "public"
  }

  function PrivacyUnknown(v: Video): bool {
    v.privacyStatus.None?
  }

  /** Public / any other status / NULL: a partition of the catalog. */
  function Privacy(videos: seq<Video>): (r: Breakdown)
    ensures r.yes == Count(videos, IsPublic)
    ensures r.no == Count(videos, IsOtherPrivacy)
    ensures r.unknown == Count(videos, PrivacyUnknown)
    ensures r.yes + r.no + r.unknown == |videos|
    ensures r.yes + r.no == |videos| - Count(videos, PrivacyUnknown)
  {
    FilterPartition(videos, IsPublic, IsOtherPrivacy, PrivacyUnknown);
    Breakdown(Count(videos, IsPublic), Count(videos, IsOtherPrivacy), Count(videos, PrivacyUnknown))
  }

  /** Livestream and regular counts: together they are the videos whose
      flag is known, so NULL videos are in neither and the two add up to at
      most the catalog. */
  function StreamingStats(videos: seq<Video>): (r: Streaming)
    ensures r.livestream == Count(videos, FlagIs(Livestream, Some(true)))
    ensures r.regular == Count(videos, FlagIs(Livestream, Some(false)))
    ensures r.livestream + r.regular == Count(videos, FlagKnown(Livestream))
    ensures r.livestream + r.regular <= |videos|
    ensures r.livestream + r.regular == |videos| <==> forall v :: v in videos ==> v.wasLivestream.Some?
  {
    var b := FlagBreakdown(videos, Livestream);
    AllKnown(videos, Livestream, b.unknown);
    Streaming(b.yes, b.no)
  }

  /** No video has a NULL flag exactly when the NULL count is 0. */
  lemma AllKnown(videos: seq<Video>, flag: Video -> Option<bool>, unknown: nat)
    requires unknown == Count(videos, FlagIs(flag, None))
    ensures unknown == 0 <==> forall v :: v in videos ==> flag(v).Some?
  {
    if unknown == 0 {
      forall v | v in videos ensures flag(v).Some? {
        assert v !in Filter(videos, FlagIs(flag, None));
      }
    } else {
      var u := Filter(videos, FlagIs(flag, None));
      assert u[0] in u;
    }
  }

  function HasTags(v: Video): bool {
    |v.tags| > 0
  }

  function NoTags(v: Video): bool {
    |v.tags| == 0
  }

  function HasTopics(v: Video): bool {
    |v.topicCategories| > 0
  }

  function NoTopics(v: Video): bool {
    |v.topicCategories| == 0
  }

  /** With and without tags, with and without topics: each pair splits the
      catalog. */
  function MetadataStats(videos: seq<Video>): (r: Metadata)
    ensures r.hasTags == Count(videos, HasTags) && r.noTags == Count(videos, NoTags)
    ensures r.hasTopics == Count(videos, HasTopics) && r.noTopics == Count(videos, NoTopics)
    ensures r.hasTags + r.noTags == |videos|
    ensures r.hasTopics + r.noTopics == |videos|
  {
    FilterComplement(videos, HasTags, NoTags);
    FilterComplement(videos, HasTopics, NoTopics);
    Metadata(Count(videos, HasTags), Count(videos, NoTags), Count(videos, HasTopics), Count(videos, NoTopics))
  }

  /** Every breakdown reads the catalog alone, and each bucket counts the
      videos its `FILTER` clause selects. */
  function GetAttributeStats(db: Db): (r: AttributeStats)
    ensures r.productPlacement.yes == Count(db.videos, FlagIs(PaidPlacement, Some(true)))
    ensures r.productPlacement.no == Count(db.videos, FlagIs(PaidPlacement, Some(false)))
    ensures r.productPlacement.unknown == Count(db.videos, FlagIs(PaidPlacement, None))
    ensures r.licensing.yes == Count(db.videos, FlagIs(Licensed, Some(true)))
    ensures r.licensing.no == Count(db.videos, FlagIs(Licensed, Some(false)))
    ensures r.licensing.unknown == Count(db.videos, FlagIs(Licensed, None))
    ensures r.privacy.yes == Count(db.videos, IsPublic)
    ensures r.privacy.no == Count(db.videos, IsOtherPrivacy)
    ensures r.privacy.unknown == Count(db.videos, PrivacyUnknown)
    ensures r.streaming.livestream == Count(db.videos, FlagIs(Livestream, Some(true)))
    ensures r.streaming.regular == Count(db.videos, FlagIs(Livestream, Some(false)))
    ensures r.metadata.hasTags == Count(db.videos, HasTags) && r.metadata.noTags == Count(db.videos, NoTags)
    ensures r.metadata.hasTopics == Count(db.videos, HasTopics) && r.metadata.noTopics == Count(db.videos, NoTopics)
    ensures r.productPlacement.yes + r.productPlacement.no + r.productPlacement.unknown == |db.videos|
    ensures r.licensing.yes + r.licensing.no + r.licensing.unknown == |db.videos|
    ensures r.privacy.yes + r.privacy.no + r.privacy.unknown == |db.videos|
    ensures r.streaming.livestream + r.streaming.regular <= |db.videos|
    ensures r.metadata.hasTags + r.metadata.noTags == |db.videos|
    ensures r.metadata.hasTopics + r.metadata.noTopics == |db.videos|
  {
    AttributeStats(
      FlagBreakdown(db.videos, PaidPlacement),
      FlagBreakdown(db.videos, Licensed),
      Privacy(db.videos),
      StreamingStats(db.videos),
      MetadataStats(db.videos))
  }

  /** The watch history has no part in the breakdowns. */
  lemma AttributesIgnoreWatches(videos: seq<Video>, a: seq<Watch>, b: seq<Watch>)
    ensures GetAttributeStats(Db(videos, a)) == GetAttributeStats(Db(videos, b))
  {
  }
}
