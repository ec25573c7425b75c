/** `parse_single_entry` (scripts/youtube_parser.py): one `content-cell` of a
    watch-history export turned into a video entry. The HTML tree is
    abstracted to the cell's anchors in document order and the text that
    follows the second anchor; the timestamp parser is a parameter. */
module YoutubeParser {
  import opened Wrappers
  import opened Strings

  /** An `<a>` element: its `href` attribute, if any, and its text. */
  datatype Anchor = Anchor(href: Option<string>, text: string)

  /** A content cell: its `class` list, its anchors, the text nodes after
      the second anchor joined together, and its whole text. */
  datatype Cell = Cell(classes: seq<string>, anchors: seq<Anchor>, textAfterChannel: string, text: string)

  /** What `dateutil`'s `parser.parse(...).isoformat()` gives: the ISO text,
      a `ValueError` (caught: no timestamp), or any other exception, which
      makes the whole entry `None`. */
  datatype TimeParse = Parsed(iso: string) | ValueError | OtherError

  datatype Entry = Entry(
    title: string,
    url: string,
    videoId: Option<string>,
    channelTitle: Option<string>,
    channelUrl: Option<string>,
    watchedAt: Option<string>,
    platform: string)

  const Platform: string := "youtube"

  /** `tag.get('href', '')`. */
  function Href(a: Anchor): string {
    a.href.GetOr("")
  }

  // ---------------------------------------------------------------------
  // `re.search(r'[?&]v=([^&]+)', url)`.

  /** The pattern matches at `i`: `?` or `&`, then `v=`, then at least one
      character other than `&`. */
  predicate MatchAt(url: string, i: int) {
    0 <= i && i + 3 < |url| && (url[i] == '?' || url[i] == '&') && url[i+1] == 'v' && url[i+2] == '=' && url[i+3] != '&'
  }

  predicate NoAmpersand(s: string) {
    forall k :: 0 <= k < |s| ==> s[k] != '&'
  }

  /** Length of the run of non-`&` characters starting at `i`: what the
      greedy `[^&]+` takes. */
  function RunFrom(url: string, i: nat): (n: nat)
    requires i <= |url|
    ensures i + n <= |url| && NoAmpersand(url[i..i+n])
    ensures i + n == |url| || url[i+n] == '&'
    decreases |url| - i
  {
    if i == |url| || url[i] == '&' then 0
    else
      var n := 1 + RunFrom(url, i + 1);
      assert url[i..i+n] == [url[i]] + url[i+1..i+n];
      n
  }

  /** The leftmost position at or after `i` where the pattern matches. */
  function FirstMatch(url: string, i: nat): (r: Option<nat>)
    ensures r.Some? ==> i <= r.value && MatchAt(url, r.value) && forall j :: i <= j < r.value ==> !MatchAt(url, j)
    ensures r.None? ==> forall j :: i <= j ==> !MatchAt(url, j)
    decreases |url| - i
  {
    if i + 3 >= |url| then None
    else if MatchAt(url, i) then Some(i)
    else FirstMatch(url, i + 1)
  }

  /** `video_id_match.group(1) if video_id_match else None`: the whole
      non-`&` run after the leftmost match, or `None` when the pattern
      matches nowhere. */
  function VideoId(url: string): (r: Option<string>)
    ensures r.None? <==> forall j :: !MatchAt(url, j)
    ensures r.Some? ==> exists i :: IdAt(url, i, r.value) && forall j :: 0 <= j < i ==> !MatchAt(url, j)
  {
    match FirstMatch(url, 0)
    case None => None
    case Some(i) =>
      var n := RunFrom(url, i + 3);
      assert n > 0;
      assert IdAt(url, i, url[i+3..i+3+n]);
      Some(url[i+3..i+3+n])
  }

  /** `id` is what the pattern captures when it matches at `i`. */
  predicate IdAt(url: string, i: int, id: string) {
    && MatchAt(url, i)
    && |id| > 0
    && i + 3 + |id| <= |url|
    && id == url[i+3..i+3+|id|]
    && NoAmpersand(id)
    && (i + 3 + |id| == |url| || url[i+3+|id|] == '&')
  }

  /** A video id is never empty and never holds `&`. */
  lemma VideoIdShape(url: string)
    requires VideoId(url).Some?
    ensures |VideoId(url).value| > 0 && NoAmpersand(VideoId(url).value)
  {
    var i :| IdAt(url, i, VideoId(url).value);
  }

  /** Appending `&` and more query parameters after the id leaves it
      unchanged. */
  lemma VideoIdIgnoresLaterParameters(id: string, rest: string)
    requires |id| > 0 && NoAmpersand(id)
    ensures VideoId("?v=" + id + "&" + rest) == Some(id)
  {
    var url := "?v=" + id + "&" + rest;
    assert MatchAt(url, 0);
    assert url[3..3+|id|] == id;
    assert url[3+|id|] == '&';
  }

  // ---------------------------------------------------------------------
  // The entry.

  /** `parse_single_entry(cell)`: `None` without an anchor (or when the
      timestamp parser fails with anything but a `ValueError`); otherwise
      the title with its whitespace collapsed, the first anchor's `href`,
      the id found in it, and the channel and timestamp from the second
      anchor, all `None` when there is no second anchor. */
  function ParseEntry(cell: Cell, parseTime: string -> TimeParse): (r: Option<Entry>)
    ensures |cell.anchors| == 0 ==> r.None?
    ensures |cell.anchors| == 1 ==> r.Some?
    ensures r.Some? ==> r.value.platform == Platform
    ensures r.Some? ==> r.value.title == NormalizeSpace(cell.anchors[0].text) && SingleSpaced(r.value.title)
    ensures r.Some? ==> r.value.url == Href(cell.anchors[0]) && r.value.videoId == VideoId(r.value.url)
    ensures r.Some? ==> (r.value.channelTitle.Some? <==> |cell.anchors| > 1)
    ensures r.Some? ==> (r.value.channelUrl.Some? <==> |cell.anchors| > 1)
    ensures r.Some? && |cell.anchors| <= 1 ==> r.value.watchedAt.None?
    ensures r.Some? && r.value.channelTitle.Some? ==> r.value.channelTitle.value == Strip(cell.anchors[1].text)
    ensures r.Some? && r.value.channelUrl.Some? ==> r.value.channelUrl.value == Href(cell.anchors[1])
    ensures r.Some? && r.value.watchedAt.Some? ==>
      |cell.anchors| > 1 && parseTime(Strip(cell.textAfterChannel)) == Parsed(r.value.watchedAt.value)
    ensures |cell.anchors| > 1 && parseTime(Strip(cell.textAfterChannel)).Parsed? ==>
      r.Some? && r.value.watchedAt == Some(parseTime(Strip(cell.textAfterChannel)).iso)
    ensures |cell.anchors| > 1 && parseTime(Strip(cell.textAfterChannel)) == ValueError ==>
      r.Some? && r.value.watchedAt.None?
  {
    if |cell.anchors| == 0 then None
    else
      var link := cell.anchors[0];
      var url := Href(link);
      var title := NormalizeSpace(link.text);
      if |cell.anchors| > 1 then
        var channel := cell.anchors[1];
        match parseTime(Strip(cell.textAfterChannel))
        case OtherError => None
        case ValueError =>
          Some(Entry(title, url, VideoId(url), Some(Strip(channel.text)), Some(Href(channel)), None, Platform))
        case Parsed(iso) =>
          Some(Entry(title, url, VideoId(url), Some(Strip(channel.text)), Some(Href(channel)), Some(iso), Platform))
      else
        Some(Entry(title, url, VideoId(url), None, None, None, Platform))
  }

  /** An entry's title is already normalised: normalising it again changes
      nothing. */
  lemma TitleNormalised(cell: Cell, parseTime: string -> TimeParse)
    requires ParseEntry(cell, parseTime).Some?
    ensures NormalizeSpace(ParseEntry(cell, parseTime).value.title) == ParseEntry(cell, parseTime).value.title
  {
    NormalizeSpaceIdempotent(cell.anchors[0].text);
  }

  /** The channel title has no whitespace at either end. */
  lemma ChannelTitleTrimmed(cell: Cell, parseTime: string -> TimeParse)
    requires ParseEntry(cell, parseTime).Some? && ParseEntry(cell, parseTime).value.channelTitle.Some?
    ensures var t := ParseEntry(cell, parseTime).value.channelTitle.value;
      |t| > 0 ==> !IsWhitespace(t[0]) && !IsWhitespace(t[|t|-1])
  {
  }

  /** With two anchors the entry exists unless the timestamp parser fails
      with something other than a `ValueError`. */
  lemma EntryWithChannel(cell: Cell, parseTime: string -> TimeParse)
    requires |cell.anchors| > 1
    ensures ParseEntry(cell, parseTime).None? <==> parseTime(Strip(cell.textAfterChannel)) == OtherError
  {
  }
}
