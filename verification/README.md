# YouTube video fetcher — a Dafny model of its bookkeeping

The fetcher keeps a list of known videos (video ID and owning channel ID) in
`videos.json`. Two commands add to it: `creator <handle>` walks every page of a
channel's uploads playlist, and `url <videoURL>` adds one video whose ID is cut
out of the URL. Both load the list and skip IDs already in it. Both report what
they found and write the list back only when the operator answers `y`.

This project models that in-memory bookkeeping of `VideoFetch.cs` as pure
functions over immutable values:

- `results.dfy` (`Results`): `Option` for the C# nulls, and `Result` for the
  places where the code throws.
- `url.dfy` (`VideoUrl`): `Split` on `/` with empty pieces kept, its inverse
  `Join`, and `ExtractVideoId`. The parse takes segment 3, then the 11
  characters at offset 8. It fails when there are fewer than four segments or
  segment 3 is shorter than 19 characters.
- `store.dfy` (`VideoStore`): the `VideoData` record and the `FindIndex`
  duplicate search. It also holds the normalisation in `Load`: a null
  deserialisation or the raw text `{}` becomes the empty list. `Serialize` and
  `Saved` describe the file after a write.
- `merge.dfy` (`ChannelMerge`): the item fold `MergeAll` with its duplicate
  counter. `NewRecords` is a reference definition of what a merge appends.
  `MergeChannels` is a method with the source's channel, page and item loops,
  proved equal to the fold.
- `workflows.dfy` (`Workflows`): the `Confirm` gate and the two commands,
  `FetchVideosByChannel` and `FetchVideoByURL`.

The platform's answers are parameters:

- the channel lookup is a `ChannelListing`: the total, then per channel its
  uploads pages, then the items of each page;
- the video lookup is a function from ID to its list of snippets.

The operator's answer is a string parameter. `videos.json` is a `StoreFile`
value: the raw text plus what deserialisation makes of it. A write replaces
that value (`Persist`).

The model follows the code in these places:

- An empty file is not an empty store. Deserialisation runs before the `"{}"`
  test (VideoFetch.cs:34-37). So text that does not parse, an empty file
  included, is an error (`MalformedJson`).
- A document whose `Videos` list is null and whose text is not exactly `{}` is
  dereferenced at `data.Videos.Count` (VideoFetch.cs:43, 128). It is the error
  `MissingVideoList`.
- In the channel command, the store is loaded before the zero-total test
  (VideoFetch.cs:33-50). A load error therefore wins over the "no videos found"
  exit.
- `response.Items[0]` on an empty lookup result (VideoFetch.cs:145) is the
  explicit error `VideoNotFound`, not a crash.

## Model

| member | source | states |
|---|---|---|
| VideoUrl.Split | VideoFetch.cs:114 | splitting on '/' always yields at least one piece, even for the empty string |
| VideoUrl.SplitPiecesFree | VideoFetch.cs:114 | no piece of a split contains '/' |
| VideoUrl.JoinSplit | VideoFetch.cs:114 | joining the pieces of a split with '/' gives back the original URL |
| VideoUrl.SplitJoin | VideoFetch.cs:114 | splitting the join of '/'-free pieces gives back exactly those pieces |
| VideoUrl.SplitAt | VideoFetch.cs:114 | splitting at a '/' at index i gives the pieces before it followed by the pieces after it |
| VideoUrl.SplitAroundSeparator | VideoFetch.cs:114 | splitting a + "/" + b is the split of a followed by the split of b |
| VideoUrl.SplitCount | VideoFetch.cs:114 | a URL with n slashes splits into n + 1 pieces |
| VideoUrl.ExtractVideoId | VideoFetch.cs:114-115 | the parse succeeds exactly when segment 3 exists and has at least 19 characters; it fails with TooFewSegments exactly when there are at most 3 segments; a parsed ID has 11 characters and no '/' |
| VideoUrl.ExtractFromSegments | VideoFetch.cs:114-115 | for a URL joined from '/'-free segments, the ID is characters 8..18 of the fourth segment, and too few segments is an error |
| VideoUrl.WatchUrlRoundTrip | VideoFetch.cs:114-115 | "https://www.youtube.com/watch?v=" + id, followed by any text at all, parses to id for every 11-character id without '/' |
| VideoUrl.WatchUrlWithQuery | VideoFetch.cs:114-115 | the watch URL parses to its ID when '/'-free query text follows the ID |
| VideoUrl.WatchUrlWithPath | VideoFetch.cs:114-115 | the watch URL parses to its ID when '/'-free query text, then a '/' and anything, follow the ID |
| VideoUrl.CanonicalExample | VideoFetch.cs:114-115 | https://www.youtube.com/watch?v=ABCDEFGHIJK parses to ABCDEFGHIJK |
| VideoUrl.ShortLinkFails | VideoFetch.cs:114-115 | a youtu.be short link fails the parse because segment 3 is too short |
| VideoStore.FindIndex | VideoFetch.cs:67-68 | the search returns an index exactly when the ID is in the list; that index holds the first record with the ID; otherwise it returns -1 |
| VideoStore.KnownAfterAppend | VideoFetch.cs:80 | after appending a record, the known IDs are the old ones plus the record's ID |
| VideoStore.AppendKeepsUnique | VideoFetch.cs:67-80 | appending a record whose ID is not yet known keeps the IDs pairwise distinct |
| VideoStore.Load | VideoFetch.cs:33-41 | a parse failure is an error; a null result or the raw text "{}" gives the empty list; any other document gives its list unchanged, or an error when the list is null |
| VideoStore.Serialize | VideoFetch.cs:98 | written text starts with {"Videos":[ and is longer than "{}" |
| VideoStore.LoadSaved | VideoFetch.cs:98-99 | loading a file written from a list gives that list back, the empty list included |
| ChannelMerge.Step | VideoFetch.cs:67-80 | an item with a known ID leaves the list alone and adds one duplicate; any other item appends its record with VideoID and CreatorID copied from it |
| ChannelMerge.MergeAll | VideoFetch.cs:64-81 | the merge is append-only (the old list is an unchanged prefix), and added records plus duplicates equal the number of items processed |
| ChannelMerge.MergeKnown | VideoFetch.cs:67-80 | after a merge an ID is known exactly when it was known before or some merged item carries it |
| ChannelMerge.MergeMatchesReference | VideoFetch.cs:67-80 | a merge appends exactly the first sightings among the items, in item order, and counts every other item as a duplicate |
| ChannelMerge.MergeKeepsUnique | VideoFetch.cs:67-72 | distinct IDs stay distinct after a merge, even when an ID repeats among the fetched items |
| ChannelMerge.MergeAppendsOnlyItems | VideoFetch.cs:74-80 | every appended record is the record of some fetched item |
| ChannelMerge.MergeKnownItems | VideoFetch.cs:67-72 | merging items that are all known adds nothing and counts every item as a duplicate |
| ChannelMerge.MergeCoversItems | VideoFetch.cs:67-80 | after a merge every fetched item's ID is known |
| ChannelMerge.MergeTwice | VideoFetch.cs:67-80 | merging the same items into the result of a merge leaves the list unchanged and counts all of them as duplicates |
| ChannelMerge.MergeConcat | VideoFetch.cs:52-85 | merging a concatenation of items is merging one part after the other |
| ChannelMerge.MergePage | VideoFetch.cs:64-81 | the item loop over one page computes the fold over that page's items |
| ChannelMerge.MergeUploads | VideoFetch.cs:57-84 | the page loop computes the fold over the playlist's items, page after page |
| ChannelMerge.MergeChannels | VideoFetch.cs:43-85 | the channel loop starts the counter at zero and computes the fold over all items of all channels; the result keeps the loaded list as a prefix; added plus duplicates equals the item count |
| Workflows.Confirm | VideoFetch.cs:96-106 | the staged list is written exactly when the answer is "y" |
| Workflows.FetchVideosByChannel | VideoFetch.cs:24-107 | a load failure is an error; a zero total ends the command with nothing written; otherwise, whatever the answer, the fetched count is the number of first sightings among the items and the duplicate and fetched counts add up to the items processed; the write and the "added" count happen exactly on "y"; and the added count equals the growth of the list, which keeps the loaded list as prefix |
| Workflows.FetchVideoByURL | VideoFetch.cs:109-169 | a bad URL or store is an error; a known ID ends the command with AlreadyAdded (and only then); an empty lookup is VideoNotFound; otherwise exactly one record with the ID and the looked-up channel is appended, and it is written exactly on "y" |
| Workflows.DeclineKeepsFile | VideoFetch.cs:158-168 | with any answer other than "y", both commands leave videos.json as it was |
| Workflows.ChannelWritesReference | VideoFetch.cs:67-101 | for every answer, "fetched" is the number of reference records and "duplicates ignored" counts every other item; a confirmed channel command writes the loaded list followed by the reference records, keeps IDs distinct, and the written file loads back as the written list |
| Workflows.ChannelTwice | VideoFetch.cs:43-101 | a second confirmed channel run with the same listing fetches 0 videos, reports every item as a duplicate, and writes the same list |
| Workflows.FreshItemsAllNew | VideoFetch.cs:67-80 | into an empty store, items with distinct IDs are all appended, in order |
| Workflows.EmptyStoreScenario | VideoFetch.cs:37-106 | from a "{}" file, a confirmed run leaves a file holding exactly the fetched records; any other answer leaves the file as it was |
| Workflows.KnownVideoSkipsLookup | VideoFetch.cs:131-136 | a known ID gives AlreadyAdded whatever the platform would answer and whatever the operator would answer |
| Workflows.UrlAddsOneRecord | VideoFetch.cs:142-161 | a confirmed URL command for a new ID writes the old list plus one record with that ID; the count grows by 1 and IDs stay distinct |

## Left out

- The platform client and its `Execute()` calls (VideoFetch.cs:16-19, 28-30, 59-62, 138-140). Their answers are parameters, and a failing call is not modelled.
- Page tokens (VideoFetch.cs:55-57, 83): an uploads playlist is a finite sequence of pages, and the token only links them.
- `File.ReadAllText`, `File.WriteAllText` and `System.Text.Json` (VideoFetch.cs:33-34, 98-99, 118-119, 160-161). The deserialised value is a parameter beside the raw text. A write is modelled as a file whose text is the serialised list and whose deserialisation is that list.
- VideoUrl.ExtractVideoId: lengths and offsets are counted in Unicode scalar values, while `Substring(8, 11)` (VideoFetch.cs:115) counts UTF-16 code units. A segment holding characters outside the Basic Multilingual Plane can therefore parse in the source (possibly cutting a surrogate pair) where the model reports `SegmentTooShort`; the reverse cannot happen, since a string never has more scalar values than UTF-16 units.
- VideoStore.Load: a `Videos` array with a null element, such as `{"Videos":[null]}`, is not representable. The source throws a NullReferenceException for it inside the duplicate search (VideoFetch.cs:67, 131).
- VideoStore.Load: a failing `File.ReadAllText`, for example a missing videos.json (VideoFetch.cs:33, 118), is not modelled; the file is always readable.
- VideoStore.StoreFile: nothing ties the raw text to its deserialisation. Keeping them consistent is the caller's job: an empty or non-JSON text must come with `JsonError`, the text `null` with `Null`.
- VideoStore.Serialize: the text is a sketch. It does no string escaping, and the read-back in `Saved` comes from the library, not from parsing that text.
- Logging and `ReadLine`: the confirmation is a string parameter. The title and counters appear in the reports, not as console text.
- `PageInfo.TotalResults` is a nullable integer in the platform library, and `Items` could be null. The model uses a plain integer and a sequence.
- Program.cs, the interactive command loop and argument split: console scaffolding.
