# Watch-history analytics core, in Dafny

A model of the pure logic of a personal YouTube watch-history analyser.
The analyser has three parts:

- an ingest side that turns a Google Takeout `watch-history.html` into video entries, and API `videos.list` items into metadata records;
- a server that answers statistics, explorer and word-map queries over a catalog of videos and their watch events;
- a frontend that formats durations, truncates lists and remembers which explorer columns are visible.

The store is two plain sequences: `Video` records with optional fields, and `Watch(videoId, watchedAt)` events with `watchedAt` in epoch milliseconds (store.dfy).
A `groupBy` is a table of distinct keys with totals, in first-occurrence order (tally.dfy).
`orderBy ... desc` with `take N` is a sort by a total preorder followed by a prefix (ranking.dfy, groupby.dfy).
Contracts state the order and the top-N guarantee, never the order of ties.
Outside code enters only as function parameters:

- the calendar (`getFullYear`);
- the URL path reader of topic names;
- the timestamp parser of `dateutil`;
- the clock of `utcnow()`.

Modules, by the program's structure:

- **duration and display.** `Duration` models ISO 8601 durations restricted to the time designators (`PT[nH][nM][nS]`, ISO 8601:2004 section 4.4.3.2). It covers parsing, comparison, addition and the seconds-normalising label. `Display` is the frontend label that copies the components. `Decimal` and `Strings` hold decimal digit strings and whitespace handling.
- **stats.** `Store`, `Tally`, `Ranking` and `GroupBy` are the shared modules. `BasicStats`, `ChannelStats`, `TimeStats`, `CategoryStats` and `AttributeStats` are the factored statistics services. `StatsRoute` is the live `/stats` handler.
- **explorer.** `Explorer` is the paged, searched and ordered video listing.
- **analytics.** `Analytics` holds the tag and topic frequency maps and the tag-pair key. `TagPairs` is `processTagPerformance`.
- **frontend.** `TruncatedList` and `ColumnSelector`.
- **ingest.** `YoutubeParser` parses one history cell. `History` is the batching loop of `process_history` and the content-cell filter. `Metadata` is `extract_useful_data`.

## Model

| member | source | states |
|---|---|---|
| Duration.Match | src/utils/duration.ts:2 | the regex match exists exactly when the text contains "PT"; every capture is a digit string and the match ends within the text |
| Duration.MatchAtLeftmost | src/utils/duration.ts:2 | the match is taken at the leftmost "PT", and its captures are the H, M and S groups tried in turn on the text after it, each starting where the one before ended |
| Duration.GroupMeaning | src/utils/duration.ts:2 | one optional group `(?:(\d+)X)?` matches exactly when some digits followed by its designator start the text, and then it captures exactly those digits and consumes them with the designator |
| Duration.MatchOutOfOrder | src/utils/duration.ts:2 | in "xPT5M3H" the match is "PT5M" with only the minutes captured: an hours component written after the minutes is never read |
| Duration.ReadWritten | src/utils/duration.ts:2 | the three groups, tried in turn, read back any three components written in order, each present one followed by its designator, and the match ends just past them |
| Duration.Parse | src/utils/duration.ts:1-11 | a text without "PT" is worth 0 seconds |
| Duration.ParseRender | src/utils/duration.ts:5-10 | a written duration is worth 3600·H + 60·M + S, an absent component counting 0 |
| Duration.ParseEmpty | src/utils/duration.ts:3 | the empty text is worth 0 seconds |
| Duration.MatchRender | src/utils/duration.ts:2 | reading a written `PT[nH][nM][nS]` recovers exactly its components |
| Duration.Compare | src/utils/duration.ts:13-15 | the comparator is zero, negative or positive exactly as the parsed seconds are equal, smaller or larger |
| Duration.CompareAntisymmetric | src/utils/duration.ts:13-15 | swapping the operands negates the comparison; a duration compares equal to itself |
| Duration.ParseCanonical | src/utils/duration.ts:28-31 | the canonical writing of n seconds reads back as n |
| Duration.CanonicalIsCanonical | src/utils/duration.ts:28-31 | the canonical writing omits zero components, has no leading zeros, keeps minutes and seconds below 60 and is one whole match |
| Duration.CanonicalZero | src/utils/duration.ts:31 | zero seconds are written as the bare "PT" |
| Duration.Add | src/utils/duration.ts:26-32 | a sum of no time is "PT" |
| Duration.ParseAdd | src/utils/duration.ts:26-32 | the sum reads back as the sum of the operands' seconds, for all texts, over unbounded integers |
| Duration.AddIsCanonical | src/utils/duration.ts:28-31 | every sum is in canonical form |
| Duration.AddCommutative | src/utils/duration.ts:26-32 | the operands of a sum can be swapped |
| Duration.AddAssociative | src/utils/duration.ts:26-32 | sums can be regrouped |
| Duration.AddEmptyIdentity | src/utils/duration.ts:26-32 | adding the empty text to a sum gives that sum unchanged |
| Duration.AddZeroIdentity | src/utils/duration.ts:26-32 | adding any duration worth no time to a sum gives that sum unchanged |
| Duration.AddBySeconds | src/utils/duration.ts:27 | sums over equal totals of seconds are equal texts |
| Duration.UnitsRead | src/utils/duration.ts:19-23 | the displayed units are words that add up to the seconds, and there are none exactly for zero |
| Duration.FormatSeconds | src/utils/duration.ts:18-23 | the label lists, in order, the non-zero hours, minutes and seconds words of the one split with minutes and seconds below 60; it is single-spaced, reads back as the seconds and is empty exactly for zero |
| Duration.Format | src/utils/duration.ts:17-24 | the label of the parsed seconds: their non-zero h, m, s words with minutes and seconds below 60, in that order; empty exactly when they are zero; single-spaced |
| Duration.NormalLabelUnique | src/utils/duration.ts:19-21 | hours, minutes below 60 and seconds below 60 adding up to n are n div 3600, (n mod 3600) div 60 and n mod 60 |
| Duration.FormatNinety | src/utils/duration.ts:17-24 | "PT90S" is labelled "1m 30s" |
| Display.Format | frontend/src/utils/format.ts:1-18 | a null or empty duration is "unknown"; a text without "PT" comes back unchanged; otherwise the label lists the captured components |
| Display.FormatRender | frontend/src/utils/format.ts:7-17 | the label of a written duration lists exactly its components, in h, m, s order, digits copied verbatim |
| Display.FormatBareDesignator | frontend/src/utils/format.ts:11-17 | "PT" alone is labelled with the empty text |
| Display.FormatReadsBack | frontend/src/utils/format.ts:7-17 | reading the label back gives the seconds the server-side parser finds |
| Display.FormatCanonical | frontend/src/utils/format.ts:7-17 | on a canonical duration the copying label and the normalising label agree |
| Decimal.Show | src/api/explorer.ts:70 | a natural number is written as a non-empty digit string with no leading zero that denotes it |
| Decimal.ParseInt | scripts/fetch_youtube_metadata.py:66 | a text reads as an integer exactly when it is an optional minus sign followed by digits; the integer is the digits' value, negated after a minus |
| Decimal.ParseShow | scripts/fetch_youtube_metadata.py:66-68 | reading a written number gives the number back |
| Decimal.ParseNegatedShow | scripts/fetch_youtube_metadata.py:66-68 | reading a minus sign followed by a written number gives its negation |
| Decimal.ShowInjective | src/api/explorer.ts:70 | distinct numbers are written differently |
| Store.Filter | src/services/stats/basicStats.ts:11 | a `where` clause keeps exactly the elements satisfying it, no more of them than there were |
| Store.FilterOrder | scripts/parse_youtube.py:62-64 | a filter keeps the order of what it keeps: its result sits at increasing positions of the input and takes in every position whose element satisfies the predicate |
| Store.FilterPartition | src/services/stats/attributeStats.ts:38-43 | three predicates of which exactly one holds on each element split the sequence |
| Store.Scoped | src/services/stats/basicStats.ts:11 | a video is watch-scoped exactly when it is in the catalog and has a watch at or after the date |
| Store.ScopedLater | src/services/stats/basicStats.ts:10-12 | moving the date later never scopes more videos |
| Store.Since | src/services/stats/basicStats.ts:20 | the watches kept are exactly those at or after the date |
| Tally.Group | src/services/stats/basicStats.ts:13-16 | the groups have distinct keys; a key is present exactly when some element has it; each total is the weight of its members; the totals add up to the whole weight |
| Tally.Bump | src/services/stats/timeStats.ts:21 | `acc[k] = (acc[k] \|\| 0) + w` adds w to k's total only, appending k when new |
| Tally.RegroupOccurs | src/services/stats/timeStats.ts:18-25 | the groups of groups are the images of the elements' keys |
| Ranking.Sort | src/services/stats/categoryStats.ts:16 | the sorted list is a permutation, ordered highest first |
| Ranking.Top | src/services/stats/channelStats.ts:16-17 | the first n in order: sorted, at most n, drawn from the input, and nothing left out, counted with multiplicity, ranks above the last kept |
| GroupBy.TopGroups | src/services/stats/channelStats.ts:10-18 | at most n groups with distinct keys, non-increasing totals, each total that of its group, and no omitted group above the last listed |
| GroupBy.TopGroupsPositive | src/services/stats/channelStats.ts:10-39 | groups of positive weights total at least 1 |
| GroupBy.RankedGroups | src/services/stats/categoryStats.ts:10-17 | every group once, non-increasing by total, totals adding up to the whole weight |
| BasicStats.Earliest | src/services/stats/basicStats.ts:18 | the minimum watch time is null exactly over no watches, and otherwise a watch's time no later than any |
| BasicStats.Latest | src/services/stats/basicStats.ts:19 | the maximum watch time is null exactly over no watches, and otherwise a watch's time no earlier than any |
| BasicStats.DateRangeSince | src/services/stats/basicStats.ts:17-21 | both ends are null together, exactly when no watch is at or after the date; otherwise date ≤ earliest ≤ latest, both attained and bounding every qualifying watch |
| BasicStats.UniqueChannels | src/services/stats/basicStats.ts:13-16 | the number of distinct channel ids, null included, among the watch-scoped videos, at most their number |
| BasicStats.GetBasicStats | src/services/stats/basicStats.ts:5-32 | the video count is the watch-scoped videos; channels are distinct ids among them and no more than the videos; the date range is that of the qualifying watches |
| BasicStats.TotalVideosMonotone | src/services/stats/basicStats.ts:10-12 | moving the date later never increases the video count |
| ChannelStats.TopByCount | src/services/stats/channelStats.ts:10-18 | a top-20 of channel titles by watch-scoped video count, each count at least 1 |
| ChannelStats.TopByDuration | src/services/stats/channelStats.ts:21-29 | a top-20 of distinct channel titles over the watch-scoped videos by `_sum` of length: NULL for a channel none of whose videos has a length, otherwise the sum of the lengths present; NULL sums first, then non-increasing; no channel left out ranks above the last listed |
| ChannelStats.ChannelSumNull | src/services/stats/channelStats.ts:23 | a channel's sum is NULL exactly when every one of its videos lacks a length |
| ChannelStats.NullChannelFirst | src/services/stats/channelStats.ts:27 | when some scoped channel has no length at all, the ranking opens with a NULL sum |
| ChannelStats.DurationIgnoresRewatches | src/services/stats/channelStats.ts:21-26 | another watch of an already scoped video leaves the duration ranking unchanged |
| ChannelStats.ScopedRewatch | src/services/stats/channelStats.ts:24-26 | another watch of an already scoped video scopes the same videos |
| ChannelStats.TopByCategory | src/services/stats/channelStats.ts:32-40 | a top-100 of distinct (channel title, category) pairs by video count, each at least 1 |
| TimeStats.WatchesByYear | src/services/stats/timeStats.ts:10-26 | a year is a key exactly when a watch since the date falls in it; its count is that year's number of watches; the counts add up to all watches since the date |
| TimeStats.TwoStageIsDirect | src/services/stats/timeStats.ts:12-25 | grouping by timestamp and then by year counts each year as grouping the watches by year directly |
| TimeStats.YearCountsPositive | src/services/stats/timeStats.ts:18-25 | no year is listed with count 0 |
| TimeStats.NoYearBeforeCutoff | src/services/stats/timeStats.ts:14-20 | with a calendar that never runs backwards, no year precedes the cutoff's year |
| CategoryStats.Distribution | src/services/stats/categoryStats.ts:10-17 | the category buckets partition the watch-scoped videos, non-increasing by count |
| CategoryStats.LongFormScoped | src/services/stats/categoryStats.ts:23-30 | a video is long-form and scoped exactly when watch-scoped, longer than 1200 seconds and in category 22, 24 or 27 |
| CategoryStats.Podcast | src/services/stats/categoryStats.ts:20-32 | at most three buckets, only the podcast categories, counting the long-form scoped videos |
| CategoryStats.PodcastWithinDistribution | src/services/stats/categoryStats.ts:10-31 | no podcast bucket counts more than the distribution's bucket for its category |
| AttributeStats.FlagBreakdown | src/services/stats/attributeStats.ts:38-59 | `yes`, `no` and `unknown` count the videos whose flag is true, false and NULL (`= true`, `= false`, `IS NULL`); together they are the catalog, and `yes` plus `no` are the videos where the flag is known |
| AttributeStats.FlagsPartition | src/services/stats/attributeStats.ts:40-42 | a nullable flag is true, false or null, exactly one of them |
| AttributeStats.KnownSplit | src/services/stats/attributeStats.ts:40-42 | the videos whose flag is known are those where it is true plus those where it is false |
| AttributeStats.Privacy | src/services/stats/attributeStats.ts:62-74 | `yes` counts `privacy_status = 'public'`, `no` the other non-null statuses and `unknown` the nulls; together they are the catalog |
| AttributeStats.StreamingStats | src/services/stats/attributeStats.ts:77-82 | `livestream` counts `was_livestream = true` and `regular` counts `= false`; together they are the videos whose flag is known, the whole catalog exactly when no flag is null |
| AttributeStats.AllKnown | src/services/stats/attributeStats.ts:42 | the null count is 0 exactly when every video's flag is known |
| AttributeStats.MetadataStats | src/services/stats/attributeStats.ts:93-97 | `hasTags` and `hasTopics` count the videos with a non-empty list, `noTags` and `noTopics` those with an empty one; each pair splits the catalog |
| AttributeStats.GetAttributeStats | src/services/stats/attributeStats.ts:32-109 | every bucket of the five breakdowns counts the catalog videos its `FILTER` clause selects, and each breakdown covers the whole catalog |
| AttributeStats.AttributesIgnoreWatches | src/services/stats/attributeStats.ts:32-43 | the watch history has no part in the breakdowns |
| StatsRoute.ObjectEntries | src/api/stats.ts:81-84 | the same entries, array-index keys first in ascending order |
| StatsRoute.Reordered | src/api/stats.ts:81-84 | a reordering keeps the keys, each key's count and the total |
| StatsRoute.YearList | src/api/stats.ts:63-85 | one element per year with a watch since 2017-01-01, its count that year's watches, counts adding up to all such watches, index years ascending |
| StatsRoute.YearListAscending | src/api/stats.ts:81-84 | when every year is an array index, the list is strictly ascending by year |
| StatsRoute.GetStats | src/api/stats.ts:7-110 | the video count is the videos watched since 2017-01-01; channels are distinct and no more than them; the top channels are a top-20; the year counts add up to the watches; date range ordered |
| Explorer.JsNumber | src/api/explorer.ts:9-10 | absent is NaN; blank reads 0; surrounding whitespace is ignored; digits read as their value, negated after `-` and unchanged after `+`; any other text is NaN |
| Explorer.NumberOr | src/api/explorer.ts:9-10 | NaN and 0 take the fallback, any other number stays, and a non-zero fallback gives a non-zero result |
| Explorer.ParameterDefaults | src/api/explorer.ts:9-10 | an absent, blank, non-numeric or zero parameter gives page 0 and page size 25 |
| Explorer.ParameterReadsShow | src/api/explorer.ts:10 | a page size written in decimal is read as that number |
| Explorer.Matching | src/api/explorer.ts:18-35 | a video is listed exactly when it is in the catalog and matches the search |
| Explorer.NoSearchKeepsAll | src/api/explorer.ts:18-35 | an absent or empty search keeps the whole catalog in order |
| Explorer.Ranked | src/api/explorer.ts:58-62 | the matching videos, a permutation, most watched first |
| Explorer.Window | src/api/explorer.ts:63-64 | skip then take: consecutive elements from skip, take of them or up to the end, none past the end |
| Explorer.ShowViews | src/api/explorer.ts:70 | the view count becomes decimal text that reads back as it, null exactly when absent |
| Explorer.RowOf | src/api/explorer.ts:41-71 | every selected field passes through, the view count is serialised, and the row's watch times are those of the video's watches, one per watch, in store order |
| Explorer.WatchTimesOf | src/api/explorer.ts:52-56 | a time is listed exactly when some watch of the video happened at it |
| Explorer.PageCount | src/api/explorer.ts:79 | the ceiling: count·size ≥ total > (count−1)·size for a positive total, 0 exactly for none |
| Explorer.PastLastPage | src/api/explorer.ts:63-79 | a page at or past the page count starts past the last element |
| Explorer.PageOf | src/api/explorer.ts:38-80 | the total counts the matching videos; the data are the rows of the matching videos ranked most watched first, from position page·size on, a page size of them or up to the end |
| Explorer.List | src/api/explorer.ts:6-81 | a negative page size or skip is refused; otherwise the rows of the ranked matching videos on the page the defaulted parameters ask for |
| Explorer.PagesCover | src/api/explorer.ts:63-64 | the k-th ranked video is on page k div size at offset k mod size |
| Analytics.Flatten | src/api/analytics.ts:43 | an element is in the flattened list exactly when it is in one of the lists; the length is the sum of the lengths |
| Analytics.FlattenIndex | src/api/analytics.ts:43 | each element of each list has a position in the flattened list |
| Analytics.TagStats | src/api/analytics.ts:43-53 | one entry per tag that occurs, its count the tag's occurrences over all videos, non-increasing, counts adding up to all tags |
| Analytics.TopicStats | src/api/analytics.ts:72-82 | one entry per topic name that occurs, its count the topics of that name, non-increasing, adding up to all topics |
| Analytics.TopicUnderSegment | src/api/analytics.ts:76 | a topic whose URL has a last path segment is counted under that segment |
| Analytics.Pairs | src/api/analytics.ts:161-163 | a video with n tags gives n(n−1)/2 pairs |
| Analytics.PairsFromMembers | src/api/analytics.ts:161-163 | the pairs are exactly the tags at index pairs i < j |
| Analytics.KeysSymmetric | src/api/analytics.ts:164 | the key of a tag pair does not depend on the order of the two tags |
| Analytics.PairKey | src/api/analytics.ts:164 | the key holds the two tags, in sorted order |
| Analytics.PairKeyInjective | src/api/analytics.ts:164 | two tag pairs share a sorted-pair key exactly when they are the same tags in either order |
| Analytics.JoinedKeyCollides | src/api/analytics.ts:164 | the joined key gives the pairs ("a::b", "c") and ("a", "b::c") the same key |
| TagPairs.OccurrencesOf | src/api/analytics.ts:161-179 | one occurrence per index pair of the video's tags, each with the video's title and views |
| TagPairs.Step | src/api/analytics.ts:166-184 | one more occurrence: count plus one, its views added; the list keeps five of the videos, or all when fewer, most viewed first, and none left out has more views than the last kept |
| TagPairs.Accumulate | src/api/analytics.ts:166-184 | after a pair's occurrences: the count is their number, the total their views, and the list five of their videos, most viewed first, none left out viewed more than the last kept |
| TagPairs.ShowsStep | src/api/analytics.ts:176-183 | keeping the five most viewed after each video gives the five most viewed of all the videos |
| TagPairs.PairOccurs | src/api/analytics.ts:159-164 | a pair occurs exactly when some video lists its two tags at two positions |
| TagPairs.PairKeys | src/api/analytics.ts:159-187 | the map holds exactly the pairs that occur on some video |
| TagPairs.PairEntry | src/api/analytics.ts:166-184 | each pair's entry is what its own occurrences accumulate, counted at least once |
| TagPairs.FirstSeen | src/api/analytics.ts:190 | the map's keys, each once |
| TagPairs.RowAverage | src/api/analytics.ts:194 | a row's average times its count is its total views |
| TagPairs.TagPerformance | src/api/analytics.ts:147-201 | at most 20 rows, no pair twice, best average first, each a pair counted more than once; a repeated pair is left out only when the list is full and averages no more than any listed row; pairs are keyed by `Analytics.PairKey` |
| TruncatedList.SliceTo | frontend/src/components/Explorer/TruncatedList.tsx:11-13 | `slice(0, end)` keeps a prefix, counting a negative end back from the length and clamping |
| TruncatedList.Render | frontend/src/components/Explorer/TruncatedList.tsx:7-24 | nothing for an absent or empty list; for non-negative limits the text is the first `maxItems` names joined with ", " and cut to `maxLength` characters, always a prefix of the full text; ellipsis and title together, exactly when too many items or the text reaches the limit |
| TruncatedList.FourNames | frontend/src/components/Explorer/TruncatedList.tsx:7-24 | four names under the default limits show "a, b, c" with the ellipsis and all four names in the title |
| TruncatedList.TooManyItems | frontend/src/components/Explorer/TruncatedList.tsx:15 | more items than allowed always get the ellipsis |
| TruncatedList.NoEllipsisShowsAll | frontend/src/components/Explorer/TruncatedList.tsx:10-16 | without the ellipsis the text shown is the full text |
| ColumnSelector.Initial | frontend/src/components/Explorer/ColumnSelector.tsx:12-21 | with nothing stored every column is selected; otherwise exactly the stored ids valued true |
| ColumnSelector.Toggle | frontend/src/components/Explorer/ColumnSelector.tsx:24-29 | the id flips membership and no other id changes |
| ColumnSelector.ToggleTwice | frontend/src/components/Explorer/ColumnSelector.tsx:23-30 | toggling an id twice restores the selection |
| ColumnSelector.Visibility | frontend/src/components/Explorer/ColumnSelector.tsx:32-35 | one key per column, valued by membership in the selection |
| ColumnSelector.Keys | frontend/src/components/Explorer/ColumnSelector.tsx:38 | each column id once, in the order of its first column |
| ColumnSelector.ToggleColumn | frontend/src/components/Explorer/ColumnSelector.tsx:23-39 | the selection flips the id; the stored record has one key per column valued by the new selection; the reported ids are the selected columns in column order |
| ColumnSelector.ReportedOnce | frontend/src/components/Explorer/ColumnSelector.tsx:38 | no id is reported twice |
| ColumnSelector.StoredRoundTrip | frontend/src/components/Explorer/ColumnSelector.tsx:12-35 | the stored record read back as the initial selection gives the new selection on the listed columns |
| YoutubeParser.RunFrom | scripts/youtube_parser.py:19 | the greedy `[^&]+` takes a run without `&` that ends at the end of the URL or at a `&` |
| YoutubeParser.FirstMatch | scripts/youtube_parser.py:19 | the leftmost position where `[?&]v=` followed by a non-`&` character matches, or none |
| YoutubeParser.VideoId | scripts/youtube_parser.py:19-20 | no id exactly when the pattern matches nowhere; otherwise the capture at the leftmost match |
| YoutubeParser.VideoIdShape | scripts/youtube_parser.py:19-20 | a video id is never empty and never holds `&` |
| YoutubeParser.VideoIdIgnoresLaterParameters | scripts/youtube_parser.py:19-20 | parameters after `&` do not change the id |
| YoutubeParser.ParseEntry | scripts/youtube_parser.py:6-50 | none without an anchor; title whitespace-collapsed, URL and id from the first anchor, channel and time from the second, all none with fewer than two; a time the parser reads is recorded as its ISO text, a `ValueError` leaves it none; platform "youtube" |
| YoutubeParser.TitleNormalised | scripts/youtube_parser.py:16 | collapsing the title's whitespace again changes nothing |
| YoutubeParser.ChannelTitleTrimmed | scripts/youtube_parser.py:25 | the channel title has no whitespace at either end |
| YoutubeParser.EntryWithChannel | scripts/youtube_parser.py:29-50 | with two anchors the entry is none exactly when the timestamp parser fails with an error other than `ValueError` |
| History.ContentCells | scripts/parse_youtube.py:60-64 | exactly the cells with the `mdl-typography--body-1` class, in document order |
| History.Limit | scripts/parse_youtube.py:33-34 | no cap for none or 0; a positive cap keeps that many leading cells; a negative one is refused |
| History.InvalidText | scripts/parse_youtube.py:44 | the first min(length, 100) characters of the cell text, then "..." |
| History.EveryCellAccounted | scripts/parse_youtube.py:39-47 | every processed cell is either a video or an invalid entry |
| History.ParsedIsValid | scripts/parse_youtube.py:40-42 | every entry that parses is among the videos |
| History.PrefixAt | scripts/parse_youtube.py:49-50 | each batch was saved when its count of processed cells covered exactly the videos saved so far |
| History.TakeCell | scripts/parse_youtube.py:40-46 | one more cell is processed and its entry or invalid text recorded |
| History.SaveIfFull | scripts/parse_youtube.py:49-52 | a batch reaching the batch size is saved with the processed count and the loop state restored |
| History.FlushRest | scripts/parse_youtube.py:54-56 | the pending batch, if any, is saved; videos and invalid texts are those of all cells |
| History.ProcessCells | scripts/parse_youtube.py:39-58 | videos are the valid entries in order, invalid texts the rest; the saved batches concatenate to the videos and are the chunks of the batch size; every cell is its own save for a non-positive size |
| History.ChunksOfFullBatches | scripts/parse_youtube.py:49-56 | full batches with a short non-empty last one are the chunks of their concatenation |
| History.ProcessHistory | scripts/parse_youtube.py:17-58 | a negative cap is refused; otherwise the loop over the capped content cells |
| Metadata.Get | scripts/fetch_youtube_metadata.py:84-85 | a key's text, present exactly when the object and the key are |
| Metadata.Statistic | scripts/fetch_youtube_metadata.py:66-68 | a missing or empty statistic is none; a numeral reads as its value; any other text is an error |
| Metadata.MaxresUrl | scripts/fetch_youtube_metadata.py:55 | the URL of the maxres thumbnail, present exactly when all three levels are |
| Metadata.Extract | scripts/fetch_youtube_metadata.py:42-91 | none exactly for a non-video; an error exactly for an unreadable statistic; otherwise a record copying each of the item's fields, the maxres URL, lists defaulted to empty, the counts read from the statistics, livestream exactly for non-empty details and the start and end times from them |
| Metadata.StatisticRoundTrip | scripts/fetch_youtube_metadata.py:66-68 | a count sent as its decimal text comes back as that number |
| Metadata.ZeroCountKept | scripts/fetch_youtube_metadata.py:66-68 | a count of "0" is kept as 0, not taken for a missing statistic |
| Metadata.VideoWithNumbers | scripts/fetch_youtube_metadata.py:42-91 | a video whose statistics are numerals always yields a record with those counts |

## Left out

- HTTP plumbing: the routers, `res.json` and the 500 error paths. No request is modelled beyond its query parameters.
- Prisma and SQL execution: the store is in memory and only the filter, group, sort and take semantics are modelled.
- `durationByYear` in `getTimeStats`: its store-side `_sum` over a relation has no visible semantics.
- `getAllStats` only awaits the services one after another.
- Tie order in every `orderBy`/`sort` is unconstrained. Sort stability is not modelled, and contracts state only the order and the top-N bound.
- Store column types: the length of a video is the seconds `Duration.Parse` gives its ISO text. A null length fails `> 1200`; a channel's `_sum` skips null lengths and is NULL when all are null, ranked first as PostgreSQL does for a descending order. Scalar lists are never NULL, so the SQL `IS NULL` branch of the tag and topic counts cannot fire.
- The word-map content-insights query (`take 100`, views descending, NULLS FIRST), its duration-versus-views and publishing-hour series, and BigInt-to-number conversion.
- Explorer.JsNumber: reads only blank text and decimal digits with an optional `+` or `-` in front. Fractions, exponents, hex and `Infinity` are NaN here, so they take the default.
- Explorer.List: a negative `take` or `skip` is refused, where the store would read it backwards. The case-insensitive match folds ASCII letters only, not Unicode case.
- StatsRoute.ObjectEntries: only array-index years (0 to 2^32−2) are placed, ascending. Other keys keep table order, which is insertion order.
- TimeStats.ByTimestamp: the `orderBy: { watchedAt: 'asc' }` of the timestamp grouping is not modelled. The table lists timestamps in the order the store first meets them, so a year outside 0 to 2^32−2 enters the year table, and `Object.entries`, in store order rather than in ascending time. Every array-index year is placed by its value, so the order of those years, and all counts, are unaffected.
- The time zone of `getFullYear` is a parameter `year`. Its monotonicity is only a lemma precondition.
- Duration.ParseAdd: integers are unbounded. JavaScript numbers are doubles, so `parseInt` rounds digit runs worth more than 2^53, and the template prints `1e+21H` once the hours reach 10^21. The round trip holds in the source only below those bounds.
- TagPairs.TagPerformance: pairs are keyed by `Analytics.PairKey`, the sorted pair itself. The source's joined text key merges some distinct pairs (see Findings).
- TagPairs.RowAverage: `avgViews` is an exact rational, not a double. Ordering by average is exact, as cross-multiplication would give.
- Analytics.TopicStats: `new URL(topic).pathname.split('/').pop()` is an abstract `lastSegment` function. A URL that fails to parse is not modelled.
- Strings are compared by code point, not by the UTF-16 order of `Array.prototype.sort`. Whitespace is the six ASCII whitespace characters (`Strings.IsWhitespace`). The separators U+001C to U+001F, which Python's `split()` and `strip()` treat as whitespace, are not whitespace here, so a title or channel name holding one keeps it where the parser (youtube_parser.py) would split or strip it.
- ColumnSelector: `localStorage` reading and writing are left out. The stored record arrives already parsed. Object key order is column order, so column ids that look like array indices are not reordered.
- TruncatedList: JSX rendering is left out. What is modelled is the text, the suffix and the title.
- TruncatedList.Render: lengths and `slice` count characters (code points), where JavaScript counts UTF-16 units. A character outside the Basic Multilingual Plane, such as an emoji, counts 1 here and 2 there, so the cut and the ellipsis can fall elsewhere.
- YoutubeParser: BeautifulSoup traversal is reduced to a cell record holding the anchors, the text after the second anchor and the whole text. `dateutil` is a parameter. `print` side effects are omitted.
- YoutubeParser.VideoId: follows the regex, not RFC 3986 query parsing. A `#fragment` after the id stays part of the id, and no percent-decoding is done.
- History: `_save_batch` file writing is the list of saved batches with their processed counts. The tqdm progress bar and `total_cells` are not modelled.
- History: `merge_batches` is not modelled. Its lexical file-name sort and file deletion are file I/O.
- Metadata.Statistic: reads only an optional `-` and decimal digits. Python's `int()` also accepts surrounding whitespace, `+` and `_` separators.
- Metadata.Extract: a missing required key (`id`, `snippet`, `title`, ...) raises `KeyError` in the source. The item type makes those fields always present.
- Metadata: `fetch_youtube_data`, `main` and the database connections are network and I/O. `utcnow()` is the parameter `now`.

## Findings

| source | as written | input that shows it | evidently intended | confidence | as-written member | corrected member |
|---|---|---|---|---|---|---|
| src/api/analytics.ts:164 | the pair key is `[a, b].sort().join('::')`, split again at line 192 | the pairs ("a::b", "c") and ("a", "b::c") both get the key "a::b::c", so their counts merge and the split gives three tags | a key that identifies the unordered pair of tags | not executed | Analytics.JoinedKeyCollides | Analytics.PairKeyInjective |
