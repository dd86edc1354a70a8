/** The positional parse that turns a video URL into its 11-character video ID:
    split the URL on '/', take segment 3, and take the 11 characters at offset 8
    of that segment (the offset skips the literal "watch?v="). */
module VideoUrl {
  import opened Results

  const Separator: char := '/'
  /** The segment of the split URL that holds the query string. */
  const SegmentIndex: nat := 3
  /** Offset of the ID inside that segment: the length of "watch?v=". */
  const IdOffset: nat := 8
  /** Length of a video ID. */
  const IdLength: nat := 11

  /** The URL shape the parse was written for. */
  const WatchPrefix: string := "https://www.youtube.com/watch?v="

  /** Splitting on '/' with a one-character separator: the pieces between
      consecutive separators, empty pieces included, so a string with n
      separators yields n + 1 pieces. */
  function Split(s: string): (parts: seq<string>)
    ensures |parts| >= 1
    decreases |s|
  {
    if |s| == 0 then [""] else Prepend(s[0], Split(s[1..]))
  }

  /** The pieces of [c] + s given the pieces of s: a separator opens a new,
      empty first piece, any other character joins the first piece. */
  function Prepend(c: char, parts: seq<string>): (r: seq<string>)
    requires |parts| >= 1
    ensures |r| >= 1
  {
    if c == Separator then [""] + parts else [[c] + parts[0]] + parts[1..]
  }

  /** Prepending a character only touches the first piece. */
  lemma PrependAppend(c: char, left: seq<string>, right: seq<string>)
    requires |left| >= 1
    ensures Prepend(c, left + right) == Prepend(c, left) + right
  {
    if c != Separator {
      assert (left + right)[1..] == left[1..] + right;
    }
  }

  /** The inverse of Split: the pieces glued together with '/' between them. */
  function Join(parts: seq<string>): string
    requires |parts| >= 1
    decreases |parts|
  {
    if |parts| == 1 then parts[0] else parts[0] + [Separator] + Join(parts[1..])
  }

  /** Number of occurrences of c in s. */
  function Occurrences(s: string, c: char): nat
    decreases |s|
  {
    if |s| == 0 then 0 else (if s[0] == c then 1 else 0) + Occurrences(s[1..], c)
  }

  /** No piece of a split contains the separator. */
  lemma {:induction false} SplitPiecesFree(s: string)
    ensures forall k :: 0 <= k < |Split(s)| ==> Separator !in Split(s)[k]
    decreases |s|
  {
    if |s| > 0 {
      SplitPiecesFree(s[1..]);
      var rest := Split(s[1..]);
      if s[0] != Separator {
        assert Separator !in [s[0]] + rest[0];
        assert Split(s) == [[s[0]] + rest[0]] + rest[1..];
      }
    }
  }

  /** Why the parse throws: too few segments for index 3, or a segment 3 too
      short for an 11-character substring at offset 8. */
  datatype UrlError = TooFewSegments(segments: nat) | SegmentTooShort(segment: string)

  /** The video ID parse. It succeeds exactly when segment 3 exists and has at
      least 19 characters; the ID then has 11 characters and no '/'. */
  function ExtractVideoId(url: string): (r: Result<string, UrlError>)
    ensures r.Ok? <==> |Split(url)| > SegmentIndex && |Split(url)[SegmentIndex]| >= IdOffset + IdLength
    ensures r.Err? && r.error.TooFewSegments? <==> |Split(url)| <= SegmentIndex
    ensures r.Ok? ==> |r.value| == IdLength && Separator !in r.value
  {
    var parts := Split(url);
    SplitPiecesFree(url);
    if |parts| <= SegmentIndex then Err(TooFewSegments(|parts|))
    else
      var segment := parts[SegmentIndex];
      if |segment| < IdOffset + IdLength then Err(SegmentTooShort(segment))
      else Ok(segment[IdOffset .. IdOffset + IdLength])
  }

  /** Joining the pieces of a split gives back the original string. */
  lemma {:induction false} JoinSplit(s: string)
    ensures Join(Split(s)) == s
    decreases |s|
  {
    if |s| > 0 {
      var rest := Split(s[1..]);
      JoinSplit(s[1..]);
      if s[0] == Separator {
        assert Split(s) == [""] + rest;
        assert ([""] + rest)[1..] == rest;
      } else {
        var parts := [[s[0]] + rest[0]] + rest[1..];
        assert Split(s) == parts;
        if |rest| == 1 {
          assert Join(rest) == rest[0];
        } else {
          assert parts[1..] == rest[1..];
          assert Join(rest) == rest[0] + [Separator] + Join(rest[1..]);
        }
      }
    }
  }

  /** Splitting at the separator at index i splits the text before and after
      it independently. */
  lemma {:induction false} SplitAt(s: string, i: nat)
    requires i < |s| && s[i] == Separator
    ensures Split(s) == Split(s[..i]) + Split(s[i + 1..])
    decreases i
  {
    if i > 0 {
      var t, u := s[1..], s[..i];
      SplitAt(t, i - 1);
      assert u[1..] == t[..i - 1] && u[0] == s[0];
      assert t[i..] == s[i + 1..];
      PrependAppend(s[0], Split(t[..i - 1]), Split(s[i + 1..]));
    }
  }

  /** Splitting at a separator splits the two sides independently. */
  lemma SplitAroundSeparator(a: string, b: string)
    ensures Split(a + [Separator] + b) == Split(a) + Split(b)
  {
    var s := a + [Separator] + b;
    SplitAt(s, |a|);
    assert s[..|a|] == a;
    assert s[|a| + 1..] == b;
  }

  /** A string without separators is a single piece. */
  lemma {:induction false} SplitWithoutSeparator(s: string)
    requires Separator !in s
    ensures Split(s) == [s]
    decreases |s|
  {
    if |s| > 0 {
      assert Separator !in s[1..] by {
        forall k | 0 <= k < |s[1..]| ensures s[1..][k] != Separator {
          assert s[1..][k] == s[k + 1];
        }
      }
      SplitWithoutSeparator(s[1..]);
      assert [s[0]] + s[1..] == s;
    }
  }

  /** Splitting the join of separator-free pieces gives back the pieces. */
  lemma {:induction false} SplitJoin(parts: seq<string>)
    requires |parts| >= 1
    requires forall k :: 0 <= k < |parts| ==> Separator !in parts[k]
    ensures Split(Join(parts)) == parts
    decreases |parts|
  {
    SplitWithoutSeparator(parts[0]);
    if |parts| > 1 {
      SplitJoin(parts[1..]);
      SplitAroundSeparator(parts[0], Join(parts[1..]));
    }
  }

  /** There is one more piece than there are separators. */
  lemma {:induction false} SplitCount(s: string)
    ensures |Split(s)| == Occurrences(s, Separator) + 1
    decreases |s|
  {
    if |s| > 0 {
      SplitCount(s[1..]);
    }
  }

  /** For a URL built from separator-free segments, the parse returns the 11
      characters at offset 8 of the fourth segment, and fails when there is no
      such segment or it is too short. */
  lemma ExtractFromSegments(parts: seq<string>)
    requires |parts| >= 1
    requires forall k :: 0 <= k < |parts| ==> Separator !in parts[k]
    ensures |parts| > SegmentIndex && |parts[SegmentIndex]| >= IdOffset + IdLength ==>
              ExtractVideoId(Join(parts)) == Ok(parts[SegmentIndex][IdOffset .. IdOffset + IdLength])
    ensures |parts| <= SegmentIndex ==> ExtractVideoId(Join(parts)) == Err(TooFewSegments(|parts|))
  {
    SplitJoin(parts);
  }

  /** Four pieces joined with '/'. */
  lemma JoinFour(a: string, b: string, c: string, d: string)
    ensures Join([a, b, c, d]) == a + [Separator] + b + [Separator] + c + [Separator] + d
  {
    var parts := [a, b, c, d];
    assert parts[1..] == [b, c, d];
    assert parts[1..][1..] == [c, d];
    assert parts[1..][1..][1..] == [d];
    assert Join([c, d]) == c + [Separator] + d;
    assert Join([b, c, d]) == b + [Separator] + (c + [Separator] + d);
  }

  /** The watch prefix as the first three segments and the start of the fourth. */
  lemma WatchPrefixSegments(query: string)
    ensures WatchPrefix + query == Join(["https:", "", "www.youtube.com", "watch?v=" + query])
  {
    var scheme, empty, host, query' := "https:", "", "www.youtube.com", "watch?v=";
    JoinFour(scheme, empty, host, query' + query);
    assert WatchPrefix == scheme + [Separator] + empty + [Separator] + host + [Separator] + query';
  }

  /** Index of the first separator in s. */
  function FirstSeparator(s: string): (i: nat)
    requires Separator in s
    ensures i < |s| && s[i] == Separator
    ensures forall k :: 0 <= k < i ==> s[k] != Separator
    decreases |s|
  {
    if s[0] == Separator then 0
    else
      assert Separator in s[1..] by {
        var k :| 0 <= k < |s| && s[k] == Separator;
        assert s[1..][k - 1] == s[k];
      }
      1 + FirstSeparator(s[1..])
  }

  /** A watch URL "https://www.youtube.com/watch?v=" + id parses to id whenever
      id has 11 characters and no '/', whatever text follows the ID: segment 3
      is then "watch?v=" + id + (the tail up to its first '/'). */
  lemma WatchUrlRoundTrip(id: string, tail: string)
    requires |id| == IdLength && Separator !in id
    ensures ExtractVideoId(WatchPrefix + id + tail) == Ok(id)
  {
    if Separator !in tail {
      WatchUrlWithQuery(id, tail);
    } else {
      var j := FirstSeparator(tail);
      var rest, after := tail[..j], tail[j + 1..];
      assert Separator !in rest by {
        forall k | 0 <= k < |rest| ensures rest[k] != Separator {
          assert rest[k] == tail[k];
        }
      }
      assert tail == rest + [Separator] + after;
      assert WatchPrefix + id + tail == WatchPrefix + id + rest + [Separator] + after;
      WatchUrlWithPath(id, rest, after);
    }
  }

  /** The case of WatchUrlRoundTrip where the tail has no '/'. */
  lemma WatchUrlWithQuery(id: string, rest: string)
    requires |id| == IdLength && Separator !in id && Separator !in rest
    ensures ExtractVideoId(WatchPrefix + id + rest) == Ok(id)
  {
    var segment := "watch?v=" + id + rest;
    assert Separator !in segment;
    WatchPrefixSegments(id + rest);
    assert WatchPrefix + id + rest == "https://www.youtube.com/watch?v=" + (id + rest);
    assert "watch?v=" + (id + rest) == segment;
    ExtractFromSegments(["https:", "", "www.youtube.com", segment]);
    assert segment[IdOffset .. IdOffset + IdLength] == id;
  }

  /** The case of WatchUrlRoundTrip where '/'-free query text, then a '/' and
      anything at all, follow the ID. */
  lemma WatchUrlWithPath(id: string, rest: string, after: string)
    requires |id| == IdLength && Separator !in id && Separator !in rest
    ensures ExtractVideoId(WatchPrefix + id + rest + [Separator] + after) == Ok(id)
  {
    var segment := "watch?v=" + id + rest;
    assert Separator !in segment;
    var parts := ["https:", "", "www.youtube.com", segment];
    WatchPrefixSegments(id + rest);
    assert "watch?v=" + (id + rest) == segment;
    assert WatchPrefix + id + rest == Join(parts);
    SplitJoin(parts);
    SplitAroundSeparator(Join(parts), after);
    assert Split(WatchPrefix + id + rest + [Separator] + after)[SegmentIndex] == segment;
    assert segment[IdOffset .. IdOffset + IdLength] == id;
  }

  /** The URL the parse was written for. */
  lemma CanonicalExample()
    ensures ExtractVideoId("https://www.youtube.com/watch?v=ABCDEFGHIJK") == Ok("ABCDEFGHIJK")
  {
    assert "https://www.youtube.com/watch?v=ABCDEFGHIJK" == WatchPrefix + "ABCDEFGHIJK" + "";
    WatchUrlRoundTrip("ABCDEFGHIJK", "");
  }

  /** A short link has its ID in segment 3 with no "watch?v=" in front, so the
      segment is too short and the parse throws. */
  lemma ShortLinkFails()
    ensures ExtractVideoId("https://youtu.be/ABCDEFGHIJK") == Err(SegmentTooShort("ABCDEFGHIJK"))
  {
    var scheme, empty, host, id := "https:", "", "youtu.be", "ABCDEFGHIJK";
    JoinFour(scheme, empty, host, id);
    assert "https://youtu.be/ABCDEFGHIJK" == Join([scheme, empty, host, id]);
    SplitJoin([scheme, empty, host, id]);
  }
}
