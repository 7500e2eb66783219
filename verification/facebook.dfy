/**
 * The counting loops of the export analyzer's reports. Parsed documents are
 * given as the sequences of node texts the markup parser would select, and a
 * directory walk as the sequence of each visited directory's file names.
 */
module Facebook {
  import opened Wrappers
  import opened Text
  import opened Years
  import opened Counts
  import opened Ranking

  /** A comment whose text holds this is a streamed song. */
  const SongMarker: string := "a song by"
  /** A top-level photos file whose name holds this is an album document. */
  const HtmlMarker: string := ".html"
  /** How many commenters the photos report ranks. */
  const TopCommenters: nat := 10

  /** The year of each text, in order; the ensures gives them element by element for use in proofs. */
  function YearsOf(texts: seq<string>): (r: seq<string>)
    ensures |r| == |texts| && forall i :: 0 <= i < |texts| ==> r[i] == GetYear(texts[i])
  {
    seq(|texts|, i requires 0 <= i < |texts| => GetYear(texts[i]))
  }

  /** The years of `texts[..i + 1]` extend those of `texts[..i]` by one, as a loop over `texts` needs it. */
  lemma YearsOfPrefix(texts: seq<string>, i: nat)
    requires i < |texts|
    ensures YearsOf(texts)[..i + 1] == YearsOf(texts)[..i] + [GetYear(texts[i])]
  {
  }

  /** The per-year histogram that `get_year` plus `increment_dict` build from `{}`. */
  function YearHistogram(texts: seq<string>): map<string, int>
  {
    Tally(map[], YearsOf(texts))
  }

  /**
   * A year histogram holds one count per text, every count is at least 1,
   * and every year label is four digits.
   */
  lemma YearHistogramFacts(texts: seq<string>)
    ensures Total(YearHistogram(texts)) == |texts|
    ensures Positive(YearHistogram(texts))
    ensures forall y :: y in YearHistogram(texts) ==> |y| == 4 && forall j :: 0 <= j < 4 ==> IsDigit(y[j])
  {
    Histogram(YearsOf(texts));
  }

  /**
   * `parse_friends_list`: the year of every friend entry, counted, then
   * ranked as `print_dict` prints it.
   */
  method ParseFriendsList(friends: seq<string>) returns (byYear: seq<Item>)
    ensures IsRanking(byYear, YearHistogram(friends), DefaultEndIndex)
  {
    var friendMap := new Dict();
    for i := 0 to |friends|
      invariant fresh(friendMap)
      invariant friendMap.entries == Tally(map[], YearsOf(friends)[..i])
    {
      var year := GetYear(friends[i]);
      YearsOfPrefix(friends, i);
      friendMap := IncrementDict(friendMap, year);
    }
    assert YearsOf(friends)[..|friends|] == YearsOf(friends);
    assert friendMap.entries == YearHistogram(friends);
    byYear := PrintDict(friendMap.entries, DefaultEndIndex);
  }

  /**
   * `parse_timeline`: each comment is a song when its text holds the song
   * marker and a post otherwise; the meta timestamps give a year histogram.
   */
  method ParseTimeline(comments: seq<string>, metas: seq<string>)
    returns (posts: nat, songs: nat, activity: seq<Item>)
    ensures songs == |Containing(comments, SongMarker)|
    ensures posts + songs == |comments|
    ensures IsRanking(activity, YearHistogram(metas), DefaultEndIndex)
  {
    posts, songs := 0, 0;
    for i := 0 to |comments|
      invariant songs == |Containing(comments[..i], SongMarker)|
      invariant posts + songs == i
    {
      ContainingPrefix(comments, i, SongMarker);
      if Contains(comments[i], SongMarker) {
        songs := songs + 1;
      } else {
        posts := posts + 1;
      }
    }
    assert comments[..|comments|] == comments;
    assert songs == |Containing(comments, SongMarker)|;

    var metadataMap := new Dict();
    for i := 0 to |metas|
      invariant fresh(metadataMap)
      invariant metadataMap.entries == Tally(map[], YearsOf(metas)[..i])
    {
      var year := GetYear(metas[i]);
      YearsOfPrefix(metas, i);
      metadataMap := IncrementDict(metadataMap, year);
    }
    assert YearsOf(metas)[..|metas|] == YearsOf(metas);
    assert metadataMap.entries == YearHistogram(metas);
    activity := PrintDict(metadataMap.entries, DefaultEndIndex);
  }

  /**
   * The user names of an album's comments that survive conversion to a byte
   * string, in order; `None` stands for a name whose conversion fails.
   */
  function Converted(users: seq<Option<string>>): seq<string>
    decreases |users|
  {
    if users == [] then []
    else
      var last := users[|users| - 1];
      Converted(users[..|users| - 1]) + (if last.Some? then [last.value] else [])
  }

  /** A name is kept once for each comment that carries it and converts. */
  lemma {:induction false} ConvertedCount(users: seq<Option<string>>, k: string)
    ensures multiset(Converted(users))[k] == multiset(users)[Some(k)]
    decreases |users|
  {
    if users != [] {
      var init := users[..|users| - 1];
      assert users == init + [users[|users| - 1]];
      ConvertedCount(init, k);
    }
  }

  /**
   * `parse_photo_album`: increments the count of each comment's user in the
   * dictionary it is given and returns that same dictionary; a comment whose
   * user name fails to convert is skipped.
   */
  method ParsePhotoAlbum(users: seq<Option<string>>, commentCounts: Dict) returns (r: Dict)
    modifies commentCounts
    ensures r == commentCounts
    ensures r.entries == Tally(old(commentCounts.entries), Converted(users))
  {
    r := commentCounts;
    for i := 0 to |users|
      invariant r == commentCounts
      invariant r.entries == Tally(old(commentCounts.entries), Converted(users[..i]))
    {
      assert users[..i + 1][..i] == users[..i];
      match users[i]
      case None =>
        assert Converted(users[..i + 1]) == Converted(users[..i]);
      case Some(user) =>
        ghost var done := Converted(users[..i]);
        assert Converted(users[..i + 1]) == done + [user];
        assert (done + [user])[..|done|] == done;
        r := IncrementDict(r, user);
    }
    assert users[..|users|] == users;
  }

  /**
   * After one album, each user's count has grown by the number of that
   * user's comments whose name converts; comments that fail add nothing.
   */
  lemma AlbumCounts(m: map<string, int>, users: seq<Option<string>>, k: string)
    ensures CountOf(Tally(m, Converted(users)), k) == CountOf(m, k) + multiset(users)[Some(k)]
  {
    TallyCountOf(m, Converted(users), k);
    ConvertedCount(users, k);
  }

  /** The number of files listed in every directory of `walk`. */
  function SumLengths(walk: seq<seq<string>>): nat
    decreases |walk|
  {
    if walk == [] then 0 else SumLengths(walk[..|walk| - 1]) + |walk[|walk| - 1]|
  }

  /** Summing the lengths can start from the first directory as well as from the last. */
  lemma {:induction false} SumLengthsCons(first: seq<string>, rest: seq<seq<string>>)
    ensures SumLengths([first] + rest) == |first| + SumLengths(rest)
    decreases |rest|
  {
    if rest != [] {
      var init := rest[..|rest| - 1];
      assert ([first] + rest)[..|rest|] == [first] + init;
      SumLengthsCons(first, init);
    }
  }

  /** Photos: the files of every directory of the walk but the first (the top level). */
  function PhotoCount(walk: seq<seq<string>>): (r: nat)
    ensures walk != [] ==> r + |walk[0]| == SumLengths(walk)
    ensures walk == [] ==> r == 0
  {
    if walk == [] then 0
    else
      assert walk == [walk[0]] + walk[1..];
      SumLengthsCons(walk[0], walk[1..]);
      SumLengths(walk[1..])
  }

  /** The album documents: the top-level file names holding ".html", in walk order. */
  function AlbumFiles(walk: seq<seq<string>>): (r: seq<string>)
    ensures forall f :: f in r <==> walk != [] && f in walk[0] && Contains(f, HtmlMarker)
    ensures walk != [] ==> |r| <= |walk[0]|
  {
    if walk == [] then [] else Containing(walk[0], HtmlMarker)
  }

  /** The converted commenter names of `albums`, album after album. */
  function Commenters(albums: seq<string>, album: string -> seq<Option<string>>): seq<string>
    decreases |albums|
  {
    if albums == [] then []
    else Commenters(albums[..|albums| - 1], album) + Converted(album(albums[|albums| - 1]))
  }

  /** The comment counts threaded through every album document. */
  function CommentCounts(walk: seq<seq<string>>, album: string -> seq<Option<string>>): map<string, int>
  {
    Tally(map[], Commenters(AlbumFiles(walk), album))
  }

  /** The comment count the photos report gives is the number of distinct commenters. */
  lemma DistinctCommenters(walk: seq<seq<string>>, album: string -> seq<Option<string>>)
    ensures |CommentCounts(walk, album)| == |set k | k in Commenters(AlbumFiles(walk), album)|
    ensures Positive(CommentCounts(walk, album))
  {
    Histogram(Commenters(AlbumFiles(walk), album));
  }

  datatype PhotosReport = PhotosReport(photoCount: nat, commentCount: nat, topCommenters: seq<Item>)

  /** How `parse_photos` ends. */
  datatype PhotosOutcome =
    | NoPhotos                    // there is no photos directory: nothing is reported
    | DivisionByZero              // no photo files: the average divides by zero before anything is reported
    | Reported(report: PhotosReport)

  /**
   * `parse_photos`: counts the photo files below the top level, threads the
   * comment counts through every album document, and reports the photo count,
   * the number of distinct commenters and the top ten commenters. `walk` is
   * the directory walk of the photos directory and `album` gives each album
   * document's comment user names.
   */
  method ParsePhotos(photosExist: bool, walk: seq<seq<string>>, album: string -> seq<Option<string>>)
    returns (outcome: PhotosOutcome)
    ensures !photosExist ==> outcome == NoPhotos
    ensures photosExist && PhotoCount(walk) == 0 ==> outcome == DivisionByZero
    ensures photosExist && PhotoCount(walk) > 0 ==>
              && outcome.Reported?
              && outcome.report.photoCount == PhotoCount(walk)
              && outcome.report.commentCount == |CommentCounts(walk, album)|
              && IsRanking(outcome.report.topCommenters, CommentCounts(walk, album), TopCommenters)
  {
    if !photosExist {
      return NoPhotos;
    }

    var photoCount := 0;
    var photoAlbums: seq<string> := [];
    for i := 0 to |walk|
      invariant i > 0 ==> photoCount == SumLengths(walk[1..i]) && photoAlbums == walk[0]
      invariant i == 0 ==> photoCount == 0 && photoAlbums == []
    {
      if i == 0 {
        photoAlbums := walk[i];
      } else {
        assert walk[1..i + 1][..i - 1] == walk[1..i];
        photoCount := photoCount + |walk[i]|;
      }
    }
    assert walk != [] ==> walk[1..|walk|] == walk[1..];
    assert photoCount == PhotoCount(walk);

    photoAlbums := Containing(photoAlbums, HtmlMarker);
    assert photoAlbums == AlbumFiles(walk);
    var commentCounts := new Dict();
    for j := 0 to |photoAlbums|
      invariant fresh(commentCounts)
      invariant commentCounts.entries == Tally(map[], Commenters(photoAlbums[..j], album))
    {
      assert photoAlbums[..j + 1][..j] == photoAlbums[..j];
      TallyAppend(map[], Commenters(photoAlbums[..j], album), Converted(album(photoAlbums[j])));
      commentCounts := ParsePhotoAlbum(album(photoAlbums[j]), commentCounts);
    }
    assert photoAlbums[..|photoAlbums|] == photoAlbums;
    assert commentCounts.entries == CommentCounts(walk, album);

    var totalCommentCount := |commentCounts.entries|;
    if photoCount == 0 {
      return DivisionByZero;
    }
    var top := PrintDict(commentCounts.entries, TopCommenters);
    outcome := Reported(PhotosReport(photoCount, totalCommentCount, top));
  }
}
