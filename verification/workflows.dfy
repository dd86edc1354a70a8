/** The two fetch commands: all uploads of a channel, or one video by URL. Each
    loads the store, stages its additions, and writes the store back only when
    the operator answers exactly "y". The platform's answers and the operator's
    answer are parameters; the file is a StoreFile value that a write replaces. */
module Workflows {
  import opened Results
  import opened VideoUrl
  import opened VideoStore
  import opened ChannelMerge

  /** The channel lookup by handle: the reported total and, per channel found,
      the pages of its uploads playlist. */
  datatype ChannelListing = ChannelListing(totalResults: int, channels: seq<Uploads>)

  /** One entry of a video lookup by ID: the owning channel and the title. */
  datatype VideoSnippet = VideoSnippet(channelId: string, title: string)

  /** What a command does to videos.json. */
  datatype Effect = Unchanged | Overwritten(videos: seq<VideoData>)

  /** The only answer that commits. */
  const Yes: string := "y"

  /** The confirmation gate: the staged list is written exactly when the answer
      is "y", and otherwise the file is left alone. */
  function Confirm(answer: string, staged: seq<VideoData>): (e: Effect)
    ensures e.Overwritten? <==> answer == Yes
    ensures e.Overwritten? ==> e.videos == staged
  {
    if answer == Yes then Overwritten(staged) else Unchanged
  }

  /** The file after a command's effect. */
  function Persist(file: StoreFile, e: Effect): StoreFile
  {
    match e
    case Unchanged => file
    case Overwritten(videos) => Saved(videos)
  }

  /** Why a command stops early (where the fetcher throws). */
  datatype FetchError = BadUrl(urlError: UrlError) | BadStore(loadError: LoadError) | VideoNotFound(videoId: string)

  /** What the channel command reports: no videos at all, or the two counters,
      the "videos added" count when the operator confirmed, and the effect. */
  datatype ChannelReport =
    | NoVideosFound
    | ChannelFetched(duplicates: nat, fetched: nat, added: Option<nat>, effect: Effect)
  {
    function Written(): Effect
    {
      if NoVideosFound? then Unchanged else effect
    }
  }

  /** The channel command. The store is loaded first; a zero total then ends
      the command without prompting; otherwise every item of every page is
      merged, the counters are reported, and the gate decides the write. */
  function FetchVideosByChannel(file: StoreFile, listing: ChannelListing, answer: string): (r: Result<ChannelReport, FetchError>)
    ensures Load(file).Err? ==> r == Err(BadStore(Load(file).error))
    ensures Load(file).Ok? && listing.totalResults == 0 ==> r == Ok(NoVideosFound)
    ensures Load(file).Ok? && listing.totalResults != 0 ==>
              && r.Ok? && r.value.ChannelFetched?
              && r.value.fetched == |NewRecords(Load(file).value, AllItems(listing.channels))|
              && r.value.duplicates + r.value.fetched == |AllItems(listing.channels)|
              && (r.value.effect.Overwritten? <==> answer == Yes)
              && (r.value.added.Some? <==> answer == Yes)
              && (r.value.added.Some? ==> r.value.added.value == r.value.fetched)
              && (r.value.effect.Overwritten? ==>
                    && |r.value.effect.videos| == |Load(file).value| + r.value.fetched
                    && r.value.effect.videos[..|Load(file).value|] == Load(file).value)
  {
    match Load(file)
    case Err(e) => Err(BadStore(e))
    case Ok(loaded) =>
      if listing.totalResults == 0 then Ok(NoVideosFound)
      else
        var merged := MergeAll(MergeState(loaded, 0), AllItems(listing.channels));
        MergeMatchesReference(MergeState(loaded, 0), AllItems(listing.channels));
        var fetched := |merged.videos| - |loaded|;
        var effect := Confirm(answer, merged.videos);
        Ok(ChannelFetched(merged.duplicates, fetched, if effect.Overwritten? then Some(fetched) else None, effect))
  }

  /** What the URL command reports: the video was already saved, or the fetched
      video's ID and title and the effect. */
  datatype UrlReport =
    | AlreadyAdded(videoId: string)
    | VideoFetched(videoId: string, title: string, effect: Effect)

  /** The URL command. The ID is cut out of the URL, the store loaded, and a
      known ID ends the command before the platform is asked; otherwise the
      video is looked up, its record appended, and the gate decides the write.
      An empty lookup result is an error. */
  function FetchVideoByURL(url: string, file: StoreFile, lookup: string -> seq<VideoSnippet>, answer: string)
    : (r: Result<UrlReport, FetchError>)
    ensures ExtractVideoId(url).Err? ==> r == Err(BadUrl(ExtractVideoId(url).error))
    ensures ExtractVideoId(url).Ok? && Load(file).Err? ==> r == Err(BadStore(Load(file).error))
    ensures ExtractVideoId(url).Ok? && Load(file).Ok? ==>
              var id := ExtractVideoId(url).value;
              var loaded := Load(file).value;
              && (Known(loaded, id) <==> r == Ok(AlreadyAdded(id)))
              && (!Known(loaded, id) && |lookup(id)| == 0 ==> r == Err(VideoNotFound(id)))
              && (!Known(loaded, id) && |lookup(id)| > 0 ==>
                    && r.Ok? && r.value.VideoFetched? && r.value.videoId == id
                    && r.value.title == lookup(id)[0].title
                    && (r.value.effect.Overwritten? <==> answer == Yes)
                    && (r.value.effect.Overwritten? ==>
                          r.value.effect.videos == loaded + [VideoData(id, lookup(id)[0].channelId)]))
  {
    match ExtractVideoId(url)
    case Err(e) => Err(BadUrl(e))
    case Ok(id) =>
      match Load(file)
      case Err(e) => Err(BadStore(e))
      case Ok(loaded) =>
        if FindIndex(loaded, id) >= 0 then Ok(AlreadyAdded(id))
        else
          var found := lookup(id);
          if |found| == 0 then Err(VideoNotFound(id))
          else Ok(VideoFetched(id, found[0].title, Confirm(answer, loaded + [VideoData(id, found[0].channelId)])))
  }

  /** Any answer other than "y" leaves videos.json as it was, whatever the
      command fetched. */
  lemma DeclineKeepsFile(url: string, file: StoreFile, listing: ChannelListing,
                         lookup: string -> seq<VideoSnippet>, answer: string)
    requires answer != Yes
    ensures FetchVideosByChannel(file, listing, answer).Ok? ==>
              Persist(file, FetchVideosByChannel(file, listing, answer).value.Written()) == file
    ensures var r := FetchVideoByURL(url, file, lookup, answer);
            r.Ok? && r.value.VideoFetched? ==> Persist(file, r.value.effect) == file
  {
  }

  /** Whatever the answer, the channel command reports as fetched the number of
      reference records (first sightings among the fetched items) and as
      duplicates every other item; a confirmed command writes the loaded list
      followed by those records, keeps the IDs distinct when they were
      distinct on load, and leaves a file that loads back as the written list. */
  lemma ChannelWritesReference(file: StoreFile, listing: ChannelListing, answer: string)
    requires Load(file).Ok? && listing.totalResults != 0
    ensures var loaded := Load(file).value;
            var items := AllItems(listing.channels);
            var r := FetchVideosByChannel(file, listing, answer);
            && r.value.fetched == |NewRecords(loaded, items)|
            && r.value.duplicates == |items| - |NewRecords(loaded, items)|
            && (answer == Yes ==>
                  && r.value.effect.videos == loaded + NewRecords(loaded, items)
                  && (UniqueIds(loaded) ==> UniqueIds(r.value.effect.videos))
                  && Load(Persist(file, r.value.effect)) == Ok(r.value.effect.videos))
  {
    var loaded := Load(file).value;
    var items := AllItems(listing.channels);
    MergeMatchesReference(MergeState(loaded, 0), items);
    if UniqueIds(loaded) {
      MergeKeepsUnique(MergeState(loaded, 0), items);
    }
    if answer == Yes {
      LoadSaved(FetchVideosByChannel(file, listing, answer).value.effect.videos);
    }
  }

  /** Running the channel command twice with the same listing, confirming both
      times, adds nothing the second time: every item is a duplicate and the
      same list is written again. */
  lemma ChannelTwice(file: StoreFile, listing: ChannelListing)
    requires Load(file).Ok? && listing.totalResults != 0
    ensures var first := FetchVideosByChannel(file, listing, Yes).value;
            var second := FetchVideosByChannel(Persist(file, first.effect), listing, Yes);
            && second.Ok? && second.value.ChannelFetched?
            && second.value.fetched == 0
            && second.value.duplicates == |AllItems(listing.channels)|
            && second.value.effect == first.effect
  {
    var loaded := Load(file).value;
    var items := AllItems(listing.channels);
    var first := FetchVideosByChannel(file, listing, Yes).value;
    LoadSaved(first.effect.videos);
    MergeTwice(loaded, items);
  }

  /** The records of items with pairwise distinct IDs. */
  predicate DistinctItems(items: seq<Item>)
  {
    forall i, j :: 0 <= i < j < |items| ==> items[i].videoId != items[j].videoId
  }

  /** Into an empty store, items with distinct IDs are all first sightings. */
  lemma {:induction false} FreshItemsAllNew(items: seq<Item>)
    requires DistinctItems(items)
    ensures |NewRecords([], items)| == |items|
    ensures forall k :: 0 <= k < |items| ==> NewRecords([], items)[k] == Record(items[k])
    decreases |items|
  {
    if |items| > 0 {
      var n := |items| - 1;
      assert DistinctItems(items[..n]);
      FreshItemsAllNew(items[..n]);
      assert FirstSighting([], items, n);
    }
  }

  /** A store file holding "{}" and a channel whose items have distinct IDs: a
      confirmed run leaves a file that loads as exactly those records, and any
      other answer leaves the file as it was. */
  lemma EmptyStoreScenario(file: StoreFile, listing: ChannelListing, answer: string)
    requires file.raw == EmptyObject && !file.parsed.JsonError?
    requires listing.totalResults != 0 && DistinctItems(AllItems(listing.channels))
    ensures var items := AllItems(listing.channels);
            var r := FetchVideosByChannel(file, listing, answer).value;
            && r.fetched == |items| && r.duplicates == 0
            && (answer == Yes ==>
                  var after := Load(Persist(file, r.effect));
                  && after.Ok? && |after.value| == |items|
                  && forall k :: 0 <= k < |items| ==> after.value[k] == Record(items[k]))
            && (answer != Yes ==> Persist(file, r.effect) == file)
  {
    var items := AllItems(listing.channels);
    MergeMatchesReference(MergeState([], 0), items);
    FreshItemsAllNew(items);
    LoadSaved(NewRecords([], items));
  }

  /** A known ID ends the URL command before the platform is asked: the result
      depends neither on the lookup nor on the answer, and nothing is written. */
  lemma KnownVideoSkipsLookup(url: string, file: StoreFile,
                              lookup1: string -> seq<VideoSnippet>, lookup2: string -> seq<VideoSnippet>,
                              answer1: string, answer2: string)
    requires ExtractVideoId(url).Ok? && Load(file).Ok?
    requires Known(Load(file).value, ExtractVideoId(url).value)
    ensures FetchVideoByURL(url, file, lookup1, answer1) == FetchVideoByURL(url, file, lookup2, answer2)
    ensures FetchVideoByURL(url, file, lookup1, answer1).value.AlreadyAdded?
  {
  }

  /** A confirmed URL command for a new ID grows the store by exactly one record
      with that ID, keeps the old records in front, and keeps the IDs distinct. */
  lemma UrlAddsOneRecord(url: string, file: StoreFile, lookup: string -> seq<VideoSnippet>)
    requires ExtractVideoId(url).Ok? && Load(file).Ok?
    requires !Known(Load(file).value, ExtractVideoId(url).value)
    requires |lookup(ExtractVideoId(url).value)| > 0
    ensures var loaded := Load(file).value;
            var id := ExtractVideoId(url).value;
            var written := FetchVideoByURL(url, file, lookup, Yes).value.effect.videos;
            && |written| == |loaded| + 1
            && written[..|loaded|] == loaded
            && written[|loaded|].videoId == id
            && Known(written, id)
            && (UniqueIds(loaded) ==> UniqueIds(written))
  {
    var loaded := Load(file).value;
    var id := ExtractVideoId(url).value;
    var v := VideoData(id, lookup(id)[0].channelId);
    KnownAfterAppend(loaded, v, id);
    if UniqueIds(loaded) {
      AppendKeepsUnique(loaded, v);
    }
    assert (loaded + [v])[..|loaded|] == loaded;
  }
}
