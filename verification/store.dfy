/** The saved video list: its records, the duplicate lookup against it, and how
    the contents of videos.json become the working list. */
module VideoStore {
  import opened Results

  /** One saved video: its platform ID and the ID of the channel that owns it. */
  datatype VideoData = VideoData(videoId: string, creatorId: string)

  /** The list contains a record with this video ID. */
  predicate Known(videos: seq<VideoData>, id: string)
  {
    exists k :: 0 <= k < |videos| && videos[k].videoId == id
  }

  /** No two records of the list share a video ID. */
  predicate UniqueIds(videos: seq<VideoData>)
  {
    forall i, j :: 0 <= i < j < |videos| ==> videos[i].videoId != videos[j].videoId
  }

  /** The linear search the fetcher runs before every insertion: the index of
      the first record with this video ID, or -1 when there is none. */
  function FindIndex(videos: seq<VideoData>, id: string): (r: int)
    ensures -1 <= r < |videos|
    ensures r >= 0 <==> Known(videos, id)
    ensures r >= 0 ==> videos[r].videoId == id && forall k :: 0 <= k < r ==> videos[k].videoId != id
    decreases |videos|
  {
    if |videos| == 0 then -1
    else if videos[0].videoId == id then 0
    else
      var r := FindIndex(videos[1..], id);
      assert forall k :: 1 <= k < |videos| ==> videos[k] == videos[1..][k - 1];
      if r < 0 then -1 else r + 1
  }

  /** After appending a record, exactly the old IDs and the new one are known. */
  lemma KnownAfterAppend(videos: seq<VideoData>, v: VideoData, id: string)
    ensures Known(videos + [v], id) <==> Known(videos, id) || v.videoId == id
  {
    var grown := videos + [v];
    if Known(videos, id) {
      var k :| 0 <= k < |videos| && videos[k].videoId == id;
      assert grown[k] == videos[k];
    }
    if v.videoId == id {
      assert grown[|videos|] == v;
    }
  }

  /** Appending a record whose ID is not yet known keeps the IDs distinct. */
  lemma AppendKeepsUnique(videos: seq<VideoData>, v: VideoData)
    requires UniqueIds(videos) && !Known(videos, v.videoId)
    ensures UniqueIds(videos + [v])
  {
    var grown := videos + [v];
    forall i, j | 0 <= i < j < |grown| ensures grown[i].videoId != grown[j].videoId {
      if j == |videos| {
        assert grown[i] == videos[i];
      } else {
        assert grown[i] == videos[i] && grown[j] == videos[j];
      }
    }
  }

  /** The library's deserialisation of videos.json, which is not part of this
      model: it fails on text that is not JSON, yields null for the JSON
      literal null, and otherwise yields a document whose Videos list may be
      missing (null). */
  datatype Deserialized = JsonError | Null | Document(videos: Option<seq<VideoData>>)

  /** The contents of videos.json: the raw text and what deserialisation makes
      of it. */
  datatype StoreFile = StoreFile(raw: string, parsed: Deserialized)

  /** Why loading throws: the text is not JSON, or the document has no Videos
      list and is not the literal "{}" (the list is then dereferenced while
      null). */
  datatype LoadError = MalformedJson | MissingVideoList

  /** The text the fetcher treats as an empty store. */
  const EmptyObject: string := "{}"

  /** Reading the store: deserialisation runs first, then a null result or the
      raw text "{}" is normalised to an empty list; otherwise the deserialised
      list is used as it is. */
  function Load(file: StoreFile): (r: Result<seq<VideoData>, LoadError>)
    ensures file.parsed.JsonError? ==> r == Err(MalformedJson)
    ensures !file.parsed.JsonError? && (file.parsed.Null? || file.raw == EmptyObject) ==> r == Ok([])
    ensures file.parsed.Document? && file.raw != EmptyObject ==>
              (r.Ok? <==> file.parsed.videos.Some?) && (r.Ok? ==> r.value == file.parsed.videos.value)
  {
    match file.parsed
    case JsonError => Err(MalformedJson)
    case Null => Ok([])
    case Document(videos) =>
      if file.raw == EmptyObject then Ok([])
      else if videos.None? then Err(MissingVideoList)
      else Ok(videos.value)
  }

  /** The text written for a list: {"Videos":[{"VideoID":…,"CreatorID":…},…]}.
      String escaping is not modelled. */
  function Serialize(videos: seq<VideoData>): (text: string)
    ensures |text| > |DocumentOpen| && text[..|DocumentOpen|] == DocumentOpen
  {
    DocumentOpen + SerializeRecords(videos) + "]}"
  }

  /** How every written document starts. */
  const DocumentOpen: string := "{\"Videos\":["

  /** The comma-separated JSON objects of the records, in list order. */
  function SerializeRecords(videos: seq<VideoData>): string
    decreases |videos|
  {
    if |videos| == 0 then ""
    else
      var record := "{\"VideoID\":\"" + videos[0].videoId + "\",\"CreatorID\":\"" + videos[0].creatorId + "\"}";
      if |videos| == 1 then record else record + "," + SerializeRecords(videos[1..])
  }

  /** The file after the fetcher writes a list to it; deserialising the written
      text gives the list back. */
  function Saved(videos: seq<VideoData>): StoreFile
  {
    StoreFile(Serialize(videos), Document(Some(videos)))
  }

  /** Reading back a written list gives the same list: the written text is never
      "{}", even for an empty list. */
  lemma LoadSaved(videos: seq<VideoData>)
    ensures Load(Saved(videos)) == Ok(videos)
  {
    assert |Serialize(videos)| > |EmptyObject|;
  }
}
