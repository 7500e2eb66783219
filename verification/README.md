# Facebook data analyzer: the counting and ranking kernel in Dafny

This project models the counting and ranking kernel of `facebook.py`. That script
walks an unzipped export of a social-media account and prints summary statistics.
The model covers these parts:

- **`increment_dict`**: the label-to-count dictionary and its single in-place
  update. The module is `Counts`; the dictionary is the class `Counts.Dict`.
- **`get_year`**: the scanner for `, [0-9]{4}` with the fallback year `"2018"`
  (module `Years`).
- **The ranking step of `print_dict`**: `sorted(items, key=count, reverse=True)[:end_index]`
  (module `Ranking`).
- **The counting loops** of `parse_friends_list`, `parse_timeline`,
  `parse_photo_album` and `parse_photos` (module `Facebook`). They use the
  substring test and order-preserving filter from module `Text`.

Documents the markup parser would read are inputs:

- the friends list and the timeline are sequences of node texts;
- an album document is the sequence of its comments' user names;
- the photos directory walk is the sequence of each visited directory's file names;
- whether a directory exists is a boolean.

A user name's conversion to a byte string (`str(user)`) is given as an
`Option`: `None` marks a name whose conversion fails.

The histogram that repeated increments build from `{}` is `Counts.Tally`. Its
sum of counts is `Counts.Total`. What `print_dict` prints is characterised by
`Ranking.IsRanking`:

- `min(end_index, len(d))` entries;
- each entry is a key of the dictionary with its stored count, and no key appears twice;
- counts never increase along the list;
- no key left out has a larger count than one that is printed.

The order of `dict.items()` is not fixed (`Ranking.Items` picks keys
arbitrarily). The sort is stable, as Python's `sorted` is; because the
items arrive in an arbitrary order, the model specifies no order among equal
counts.

The model follows the code as written:

- A timeline comment is a song when its text contains `"a song by"`, and a post
  otherwise.
- A text without a date gets the year `"2018"`; no error is raised.
- The photos report's "Number of Comments" is the number of distinct
  commenters (`len(comment_counts)`), kept literally.
- With no photo files, the unguarded float division raises before anything is
  printed. This is the `DivisionByZero` outcome of `Facebook.ParsePhotos`.

## Model

| member | source | states |
|---|---|---|
| `Years.FindYear` | facebook.py:163 | the index found is a match of `, [0-9]{4}` at or after the start, and no earlier index matches; `None` only when no index matches |
| `Years.GetYear` | facebook.py:155-164 | the result is always four ASCII digits, whether a date was found or not |
| `Years.GetYearLeftmost` | facebook.py:163-164 | the year is the four characters after the leftmost match of `, [0-9]{4}`, and exactly `"2018"` when the text has no match |
| `Years.GetYearDayMonthYear` | facebook.py:159-160 | `"May 19, 2007"` gives `"2007"` |
| `Years.GetYearDocExample` | facebook.py:161 | `"Friday, January 7, 2011 at 4:25pm UTC+11"` gives `"2011"`: the comma after the weekday is not followed by digits |
| `Years.GetYearDateTime` | facebook.py:163-164 | `"Jan 7, 2011, 4:25 PM"` gives `"2011"`: a date followed by a time gives the date's year |
| `Years.GetYearTwoDates` | facebook.py:163-164 | `"May 19, 2007, Jan 7, 2011"` gives `"2007"`: of two matches, only the leftmost counts |
| `Years.GetYearExtraDigits` | facebook.py:163-164 | `", 20112"` gives `"2011"`: digits after the fourth are ignored |
| `Years.GetYearNoDate` | facebook.py:164 | a text without the pattern gives the fallback `"2018"` |
| `Counts.Dict.constructor` | facebook.py:92 | a new dictionary is empty |
| `Counts.Incremented` | facebook.py:147-150 | the key set gains `key`; `key` goes from absent to 1 or from n to n+1; every other key keeps its count |
| `Counts.IncrementDict` | facebook.py:143-152 | updates the given dictionary in place to `Incremented` of its old contents and returns that same dictionary |
| `Counts.TotalRemove` | facebook.py:143-152 | the sum of a dictionary's counts is any one key's count plus the sum over the others |
| `Counts.TotalIncremented` | facebook.py:147-150 | one increment raises the sum of all counts by exactly 1 |
| `Counts.TallyAppend` | facebook.py:47-48 | incrementing the keys of `a` and then those of `b` equals incrementing the keys of `a + b` from the same dictionary |
| `Counts.TallyTotal` | facebook.py:143-152 | after any sequence of increments, the sum of counts has grown by the number of increments |
| `Counts.TallyCountOf` | facebook.py:143-152 | each key's count grows by the number of times that key was incremented; keys never incremented keep their counts |
| `Counts.TallyKeys` | facebook.py:143-152 | after increments, the keys are the old keys plus the incremented labels |
| `Counts.TallyPositive` | facebook.py:147-150 | increments keep every count at least 1 |
| `Counts.Histogram` | facebook.py:143-152 | starting from `{}`, the counts sum to the number of increments, all are at least 1, the keys are exactly the labels, and each count is that label's number of occurrences |
| `Text.Containing` | facebook.py:46 | keeps exactly the texts that contain the pattern and is no longer than its input |
| `Text.ContainingAppend` | facebook.py:46 | filtering a concatenation is the concatenation of the filtered parts, so the filter keeps the original order |
| `Ranking.Items` | facebook.py:136 | `dict.items()` lists every entry of the dictionary exactly once, with its stored count, in some order |
| `Ranking.Insert` | facebook.py:136-138 | inserting into a list sorted by non-increasing count gives a sorted list holding the same items plus the new one |
| `Ranking.SortByCount` | facebook.py:136-138 | the result is sorted by non-increasing count and is a permutation of the input |
| `Ranking.InsertDistinct` | facebook.py:136-138 | inserting an item whose label is new keeps labels distinct |
| `Ranking.SortDistinct` | facebook.py:136-138 | sorting items with distinct labels keeps them distinct |
| `Ranking.PrefixOutranksRest` | facebook.py:139 | a prefix of the sorted entries has counts at least as large as any label left out |
| `Ranking.Ranked` | facebook.py:136-139 | the body is a stable sort by count, largest first; the contract gives that the result is cut to `min(n, len(items))` entries, all drawn from the items; `Ranking.RankedIsRanking` gives its meaning for a dictionary |
| `Ranking.RankedIsRanking` | facebook.py:136-139 | sorting any enumeration of a dictionary's items and slicing to `n` gives a ranking of that dictionary: `min(n, len)` distinct entries with their stored counts, non-increasing, none left out larger |
| `Ranking.PrintDict` | facebook.py:132-140 | the entries printed are a ranking of the dictionary cut at `end_index` |
| `Facebook.YearHistogramFacts` | facebook.py:121-124 | a year histogram's counts sum to the number of texts, all are at least 1, and every year label is four digits |
| `Facebook.ParseFriendsList` | facebook.py:85-99 | the printed list is the full ranking of the histogram of every friend entry's year |
| `Facebook.ParseTimeline` | facebook.py:102-129 | the songs are the comments containing `"a song by"`; posts plus songs equals the number of comments; the printed activity is the full ranking of the year histogram of every meta node |
| `Facebook.ConvertedCount` | facebook.py:75-80 | a user name survives once for each comment that carries it and converts |
| `Facebook.ParsePhotoAlbum` | facebook.py:60-82 | updates the given dictionary in place, incrementing it once per comment whose user name converts and skipping the others, and returns that same dictionary |
| `Facebook.AlbumCounts` | facebook.py:73-82 | after an album, a user's count has grown by the number of that user's converting comments; failing comments add nothing |
| `Facebook.DistinctCommenters` | facebook.py:50 | the comment count reported is the number of distinct commenters, and every commenter's count is at least 1 |
| `Facebook.PhotoCount` | facebook.py:39-44 | `photo_count` after the walk: the files of every walked directory together, less those of the first (top-level) directory; 0 for an empty walk |
| `Facebook.AlbumFiles` | facebook.py:42-46 | the album list holds exactly the first walked directory's file names that contain `".html"`, and no more names than that directory has |
| `Facebook.ParsePhotos` | facebook.py:21-57 | reports nothing without a photos directory. With no photo files it stops with a division by zero. Otherwise it reports: the number of files in every walked directory but the first; the number of distinct commenters across the `.html` albums of the top level, in order; the top ten commenters ranked |

## Left out

- `parse_videos` (facebook.py:10-18) is not part of this model. It only prints the length of one directory listing.
- Filesystem access (`os.path.exists`, `os.walk`, `codecs.open`) is left out. The model takes its results as inputs: a directory-exists flag, a walk as a sequence of file-name lists, and album documents as a function from file name to comment user names.
- Markup parsing and node selection (`BeautifulSoup`, `findAll`, `.text`, `findAll('ul')[1]`, the first `user` span of a comment) are left out. Their results are the input sequences. A failure inside the parser, such as a comment with no user span, is not modelled.
- The conversion `str(user)` is given as an `Option` per comment. The model does not decide which Unicode names fail to convert.
- `Facebook.ParsePhotos`: the average comments per photo (float division, facebook.py:51) is not computed. Only its failure when the photo count is 0 is modelled.
- Console output (`print` and the ` - key: count` formatting) is left out. The reports return the values and ranked entries that would be printed.
- The `__main__` runner (facebook.py:167-171) is left out. If `parse_photos` raises, the later reports never run, and the model does not show this.
- `print_dict`'s `sort_index` argument (facebook.py:132, 137) is not modelled. The model ranks by count only, because every call uses the default `sort_index=1`.
- `Ranking.PrintDict` does not fix the order among equal counts, because Python 2 dictionary iteration order is arbitrary.
- `Counts.IncrementDict`: keys are modelled as strings and counts as unbounded integers, which covers every call in the script.
