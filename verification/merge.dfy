/** The channel merge: the items of every uploads page are folded into the
    loaded list, skipping (and counting) items whose video ID is already known
    and appending a record for every other one. */
module ChannelMerge {
  import opened VideoStore

  /** One playlist item of an uploads page: the video's ID and its owner channel. */
  datatype Item = Item(videoId: string, ownerChannelId: string)

  /** The record the fetcher stores for an item. */
  function Record(item: Item): VideoData
  {
    VideoData(item.videoId, item.ownerChannelId)
  }

  /** The pages of one channel's uploads playlist, in the order the server
      returns them. */
  type Uploads = seq<seq<Item>>

  /** The items of one channel, page after page. */
  function PageItems(pages: Uploads): seq<Item>
    decreases |pages|
  {
    if |pages| == 0 then [] else PageItems(pages[..|pages| - 1]) + pages[|pages| - 1]
  }

  /** The items of all channels, channel after channel. */
  function AllItems(channels: seq<Uploads>): seq<Item>
    decreases |channels|
  {
    if |channels| == 0 then [] else AllItems(channels[..|channels| - 1]) + PageItems(channels[|channels| - 1])
  }

  /** The working list and the "duplicate videos ignored" counter. */
  datatype MergeState = MergeState(videos: seq<VideoData>, duplicates: nat)

  /** One iteration of the item loop: a known ID bumps the counter, an unknown
      one appends the item's record. */
  function Step(s: MergeState, item: Item): (t: MergeState)
    ensures Known(s.videos, item.videoId) ==> t == MergeState(s.videos, s.duplicates + 1)
    ensures !Known(s.videos, item.videoId) ==> t == MergeState(s.videos + [Record(item)], s.duplicates)
  {
    if FindIndex(s.videos, item.videoId) >= 0 then s.(duplicates := s.duplicates + 1)
    else s.(videos := s.videos + [Record(item)])
  }

  /** The item loop over a sequence of items. The list only grows at its end,
      and every item either adds one record or one duplicate. */
  function MergeAll(s: MergeState, items: seq<Item>): (t: MergeState)
    ensures |t.videos| >= |s.videos| && t.videos[..|s.videos|] == s.videos
    ensures (|t.videos| - |s.videos|) + (t.duplicates - s.duplicates) == |items|
    ensures t.duplicates >= s.duplicates
    decreases |items|
  {
    if |items| == 0 then s else Step(MergeAll(s, items[..|items| - 1]), items[|items| - 1])
  }

  /** Item j carries an ID seen neither in the loaded list nor earlier in the
      fetched items. */
  predicate FirstSighting(known: seq<VideoData>, items: seq<Item>, j: int)
    requires 0 <= j < |items|
  {
    !Known(known, items[j].videoId) && forall i :: 0 <= i < j ==> items[i].videoId != items[j].videoId
  }

  /** Reference definition of what a merge appends: the records of the first
      sightings, in item order. It consults only the loaded list and the items,
      never the growing list. */
  function NewRecords(known: seq<VideoData>, items: seq<Item>): seq<VideoData>
    decreases |items|
  {
    if |items| == 0 then []
    else
      var n := |items| - 1;
      NewRecords(known, items[..n]) + (if FirstSighting(known, items, n) then [Record(items[n])] else [])
  }

  /** Some item of the sequence carries this ID. */
  predicate Fetched(items: seq<Item>, id: string)
  {
    exists i :: 0 <= i < |items| && items[i].videoId == id
  }

  /** An ID occurs among the items exactly when it occurs before the last one
      or is the last one's. */
  lemma FetchedSnoc(items: seq<Item>, id: string)
    requires |items| > 0
    ensures Fetched(items, id) <==> Fetched(items[..|items| - 1], id) || items[|items| - 1].videoId == id
  {
    var n := |items| - 1;
    var p := items[..n];
    if Fetched(items, id) {
      var i :| 0 <= i < |items| && items[i].videoId == id;
      if i < n { assert p[i] == items[i]; }
    }
    if Fetched(p, id) {
      var i :| 0 <= i < |p| && p[i].videoId == id;
      assert items[i] == p[i];
    }
  }

  /** After a merge, an ID is known exactly when it was known before or some
      merged item carries it. */
  lemma {:induction false} MergeKnown(s: MergeState, items: seq<Item>, id: string)
    ensures Known(MergeAll(s, items).videos, id) <==> Known(s.videos, id) || Fetched(items, id)
    decreases |items|
  {
    if |items| > 0 {
      var n := |items| - 1;
      var p := items[..n];
      var mid := MergeAll(s, p);
      MergeKnown(s, p, id);
      FetchedSnoc(items, id);
      if !Known(mid.videos, items[n].videoId) {
        KnownAfterAppend(mid.videos, Record(items[n]), id);
      }
    }
  }

  /** The merge appends exactly the reference records, and counts as duplicates
      exactly the items that are not first sightings. */
  lemma {:induction false} MergeMatchesReference(s: MergeState, items: seq<Item>)
    ensures MergeAll(s, items).videos == s.videos + NewRecords(s.videos, items)
    ensures MergeAll(s, items).duplicates == s.duplicates + |items| - |NewRecords(s.videos, items)|
    decreases |items|
  {
    if |items| > 0 {
      var n := |items| - 1;
      var p := items[..n];
      MergeMatchesReference(s, p);
      MergeKnown(s, p, items[n].videoId);
      var mid := MergeAll(s, p);
      assert Known(mid.videos, items[n].videoId) <==> !FirstSighting(s.videos, items, n) by {
        if Fetched(p, items[n].videoId) {
          var i :| 0 <= i < |p| && p[i].videoId == items[n].videoId;
          assert items[i] == p[i];
        }
        if !FirstSighting(s.videos, items, n) && !Known(s.videos, items[n].videoId) {
          var i :| 0 <= i < n && items[i].videoId == items[n].videoId;
          assert p[i] == items[i];
        }
      }
    }
  }

  /** A merge into a list with distinct IDs leaves the IDs distinct, even when
      the same ID occurs several times among the items. */
  lemma {:induction false} MergeKeepsUnique(s: MergeState, items: seq<Item>)
    requires UniqueIds(s.videos)
    ensures UniqueIds(MergeAll(s, items).videos)
    decreases |items|
  {
    if |items| > 0 {
      var n := |items| - 1;
      MergeKeepsUnique(s, items[..n]);
      var mid := MergeAll(s, items[..n]);
      if !Known(mid.videos, items[n].videoId) {
        AppendKeepsUnique(mid.videos, Record(items[n]));
      }
    }
  }

  /** Every appended record is the record of some merged item. */
  lemma {:induction false} MergeAppendsOnlyItems(s: MergeState, items: seq<Item>, k: int)
    requires |s.videos| <= k < |MergeAll(s, items).videos|
    ensures exists j :: 0 <= j < |items| && MergeAll(s, items).videos[k] == Record(items[j])
    decreases |items|
  {
    var n := |items| - 1;
    var p := items[..n];
    var mid := MergeAll(s, p);
    if k < |mid.videos| {
      MergeAppendsOnlyItems(s, p, k);
      var j :| 0 <= j < |p| && mid.videos[k] == Record(p[j]);
      assert items[j] == p[j];
    } else {
      assert MergeAll(s, items).videos[k] == Record(items[n]);
    }
  }

  /** Merging items that are all known already adds nothing and counts each of
      them as a duplicate; in particular merging the same pages a second time
      is a no-op on the list. */
  lemma {:induction false} MergeKnownItems(s: MergeState, items: seq<Item>)
    requires forall i :: 0 <= i < |items| ==> Known(s.videos, items[i].videoId)
    ensures MergeAll(s, items) == MergeState(s.videos, s.duplicates + |items|)
    decreases |items|
  {
    if |items| > 0 {
      MergeKnownItems(s, items[..|items| - 1]);
    }
  }

  /** After merging, every item's ID is known. */
  lemma MergeCoversItems(s: MergeState, items: seq<Item>)
    ensures forall i :: 0 <= i < |items| ==> Known(MergeAll(s, items).videos, items[i].videoId)
  {
    forall i | 0 <= i < |items| ensures Known(MergeAll(s, items).videos, items[i].videoId) {
      MergeKnown(s, items, items[i].videoId);
    }
  }

  /** Running the merge again on its own result with the same items changes
      nothing in the list, and every item counts as a duplicate. */
  lemma MergeTwice(videos: seq<VideoData>, items: seq<Item>)
    ensures var once := MergeAll(MergeState(videos, 0), items).videos;
            MergeAll(MergeState(once, 0), items) == MergeState(once, |items|)
  {
    var once := MergeAll(MergeState(videos, 0), items).videos;
    MergeCoversItems(MergeState(videos, 0), items);
    MergeKnownItems(MergeState(once, 0), items);
  }

  /** Merging a concatenation is merging one part after the other. */
  lemma {:induction false} MergeConcat(s: MergeState, a: seq<Item>, b: seq<Item>)
    ensures MergeAll(s, a + b) == MergeAll(MergeAll(s, a), b)
    decreases |b|
  {
    if |b| == 0 {
      assert a + b == a;
    } else {
      var n := |b| - 1;
      assert (a + b)[..|a + b| - 1] == a + b[..n];
      MergeConcat(s, a, b[..n]);
    }
  }

  /** The item loop over one page. */
  method MergePage(videos0: seq<VideoData>, duplicates0: nat, page: seq<Item>)
    returns (videos: seq<VideoData>, duplicates: nat)
    ensures MergeState(videos, duplicates) == MergeAll(MergeState(videos0, duplicates0), page)
  {
    videos, duplicates := videos0, duplicates0;
    var k := 0;
    while k < |page|
      invariant 0 <= k <= |page|
      invariant MergeState(videos, duplicates) == MergeAll(MergeState(videos0, duplicates0), page[..k])
    {
      assert page[..k + 1][..k] == page[..k];
      if FindIndex(videos, page[k].videoId) >= 0 {
        duplicates := duplicates + 1;
      } else {
        videos := videos + [Record(page[k])];
      }
      k := k + 1;
    }
    assert page[..k] == page;
  }

  /** The page loop over one channel's uploads playlist. */
  method MergeUploads(videos0: seq<VideoData>, duplicates0: nat, pages: Uploads)
    returns (videos: seq<VideoData>, duplicates: nat)
    ensures MergeState(videos, duplicates) == MergeAll(MergeState(videos0, duplicates0), PageItems(pages))
  {
    videos, duplicates := videos0, duplicates0;
    var p := 0;
    while p < |pages|
      invariant 0 <= p <= |pages|
      invariant MergeState(videos, duplicates) == MergeAll(MergeState(videos0, duplicates0), PageItems(pages[..p]))
    {
      assert pages[..p + 1][..p] == pages[..p];
      MergeConcat(MergeState(videos0, duplicates0), PageItems(pages[..p]), pages[p]);
      videos, duplicates := MergePage(videos, duplicates, pages[p]);
      p := p + 1;
    }
    assert pages[..p] == pages;
  }

  /** The nested loops of the channel fetch, over channels, their pages and the
      pages' items, folded into the loaded list with the counter at zero. */
  method MergeChannels(loaded: seq<VideoData>, channels: seq<Uploads>) returns (videos: seq<VideoData>, duplicates: nat)
    ensures MergeState(videos, duplicates) == MergeAll(MergeState(loaded, 0), AllItems(channels))
    ensures |videos| >= |loaded| && videos[..|loaded|] == loaded
    ensures (|videos| - |loaded|) + duplicates == |AllItems(channels)|
  {
    videos, duplicates := loaded, 0;
    var c := 0;
    while c < |channels|
      invariant 0 <= c <= |channels|
      invariant MergeState(videos, duplicates) == MergeAll(MergeState(loaded, 0), AllItems(channels[..c]))
    {
      assert channels[..c + 1][..c] == channels[..c];
      MergeConcat(MergeState(loaded, 0), AllItems(channels[..c]), PageItems(channels[c]));
      videos, duplicates := MergeUploads(videos, duplicates, channels[c]);
      c := c + 1;
    }
    assert channels[..c] == channels;
  }
}
