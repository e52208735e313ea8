# spotify-new-release-notifications: a Dafny model of the release diff

`spotify-check.py` is a periodic job. It reads a stored last-check date, lists
the artists the Spotify account follows, and fetches each artist's albums and
singles. It keeps the releases dated strictly after the last-check day and
splits them into an albums bucket and a singles bucket. Each bucket is sorted
newest first. If anything is new, the job mails a digest with a Spotify web
link and a Lyrion Music Server (LMS) deep link for each release. Last, it
writes today's date as the new last-check date.

This project models the deterministic core of that job as pure Dafny
functions over immutable datatypes:

- `dates.dfy` (`Dates`): calendar dates with a validity predicate, and
  `strftime`/`strptime` over the fixed-width `YYYY-MM-DD`, `YYYY-MM` and
  `YYYY` forms. It also holds the precision normaliser: a `day` date is
  parsed whole, a `month` date is anchored to day 1, a `year` date to
  January 1, an unknown precision is skipped, and a malformed string raises.
- `digits.dfy` (`Digits`): zero-padded decimal fields and their values.
- `watermark.dfy` (`Watermark`): the last-check file text. It is written
  with `strftime('%Y-%m-%d')` and read with `strptime` after `strip()`.
- `quote.dfy` (`Quote`): `urllib.parse.quote` with its default `safe='/'`.
  The string is UTF-8 encoded; unreserved bytes (section 2.3 of RFC 3986) and
  `/` are copied; every other byte becomes an upper-case `%XX` triple. Also
  here: the LMS link built by `generate_lms_link`, and a percent-decoder
  following section 2.1 of RFC 3986 that serves as its inverse.
- `releases.dfy` (`Releases`): the six-field release tuple, Python's tuple
  and string ordering, and `list.sort(reverse=True)` as an insertion sort.
- `pagination.dfy` (`Pagination`): the `next`-cursor loop of
  `get_followed_artists`, run over an abstract sequence of pages.
- `diff.dfy` (`Diff`): `get_new_releases`. Each followed artist is paired
  with its one page of albums. Each release is normalised, filtered against
  the watermark day and classified. Both buckets are then sorted.
- `job.dfy` (`Job`): `main` after authentication. It chooses the last-check
  instant, runs the diff, decides whether to notify, and produces the text
  written back as the watermark.

The network, the clock and the files are inputs. The followed-artist listing
is a sequence of pages. The per-artist album listing is a function from
artist id to that artist's items. The stored watermark is an optional
string. "Today" and the 30-day fallback instant are parameters. An exception
the source does not catch is a `Failure`. A run that fails writes no
watermark.

The model follows the code on four points that are easy to misread:

- Sort order: the buckets are sorted by the whole tuple (date, artist name,
  title, web link, LMS link, album type). Date alone is not the key.
  Tuples that compare equal are identical, so the sorted result is unique
  (`Releases.SortedUnique`).
- Album listing: each artist's albums are fetched as one page of at most 50
  entries. There is no pagination.
- Malformed dates: a date string that `strptime` rejects, under a known
  precision, raises an uncaught `ValueError`. That ends the run before the
  watermark is written. It is not skipped.
- Failed runs: the watermark is advanced only when the run reaches its last
  step. Any earlier exception leaves the stored date unchanged, and that
  includes a failed mail delivery.

## Model

| member | source | states |
|---|---|---|
| Dates.ParseDay | spotify-check.py:58-59 | a successfully parsed `%Y-%m-%d` string is a valid date |
| Dates.ParseMonth | spotify-check.py:61-62 | a successfully parsed `%Y-%m` string is a valid date |
| Dates.ParseYear | spotify-check.py:64-65 | a successfully parsed `%Y` string is a valid date |
| Dates.Normalize | spotify-check.py:54-69 | the precision is reported unknown exactly when it is not `day`, `month` or `year`; a normalised date is valid; a `month` date has day 1; a `year` date is January 1 |
| Dates.NormalizeDay | spotify-check.py:57-59 | the `YYYY-MM-DD` rendering of any valid date normalises, at day precision, to that same date |
| Dates.NormalizeMonth | spotify-check.py:60-62 | the `YYYY-MM` rendering of any valid date normalises to day 1 of its month |
| Dates.NormalizeYear | spotify-check.py:63-65 | the `YYYY` rendering of any valid date normalises to January 1 of its year |
| Dates.NormalizeExact | spotify-check.py:57-65 | the converse: a string that normalises at all is exactly the canonical rendering of the date it gives |
| Watermark.Read | spotify-check.py:151-154 | a readable last-check file yields a valid date at midnight |
| Watermark.StripPadded | spotify-check.py:154 | `strip()` removes any white space around text whose ends are not white space, and nothing else |
| Watermark.Write | spotify-check.py:175-177 | the written text; `ReadWrite` states that it reads back as the same day |
| Watermark.ReadWrite | spotify-check.py:175-177 | the text written for today's date, with any white space around it, reads back as today at midnight |
| Quote.EncodeChar | spotify-check.py:13 | each character becomes 1 to 4 UTF-8 bytes; an ASCII character becomes one byte equal to its code |
| Quote.Utf8Ascii | spotify-check.py:13 | for an ASCII URI the bytes `quote` escapes are exactly the URI's character codes |
| Quote.QuoteBytes | spotify-check.py:13 | the output consists only of unreserved characters, `/` and upper-case `%XX` triples for unsafe bytes; its length is between 1 and 3 times the input length |
| Quote.Quote | spotify-check.py:13 | `quote` of a string is in that canonical encoded form |
| Quote.DecodeQuoteBytes | spotify-check.py:13 | percent-decoding what `quote` wrote gives back exactly the bytes it was given |
| Quote.QuoteCanonical | spotify-check.py:13 | any canonical encoded string that decodes to some bytes is the string `quote` writes for them |
| Quote.QuoteIff | spotify-check.py:13 | `quote` and percent-decoding are inverse bijections between byte strings and canonical encoded strings |
| Quote.EncodedHasNoAmpersand | spotify-check.py:13-14 | an encoded URI never contains `&`, so it cannot end the `p2` query parameter early |
| Quote.LmsLink | spotify-check.py:12-14 | `generate_lms_link`; its shape and the recoverability of the URI are stated by `LinkCarriesUri` |
| Quote.LinkCarriesUri | spotify-check.py:12-14 | the LMS link is the server, the fixed `/status.html?p0=playlist&p1=play&p2=` path, the `p2` value and `&player=` with the player id; the `p2` value runs to the next `&` and decodes to the UTF-8 bytes of the URI |
| Releases.LeqTotal | spotify-check.py:84-85 | any two release tuples are comparable |
| Releases.LeqAntisymmetric | spotify-check.py:84-85 | tuples that compare both ways are identical |
| Releases.LeqTransitive | spotify-check.py:84-85 | tuple comparison (first differing field decides) is transitive |
| Releases.Insert | spotify-check.py:84-85 | inserting into a newest-first list keeps it sorted and adds exactly that release |
| Releases.SortDesc | spotify-check.py:84-85 | `sort(reverse=True)` returns a permutation of its input, sorted newest first by the whole tuple |
| Releases.SortedUnique | spotify-check.py:84-85 | two sorted permutations of the same releases are equal, so the sort has one possible result |
| Releases.SortedByDate | spotify-check.py:83-85 | in a sorted bucket `date[i] >= date[j]` whenever `i < j` |
| Pagination.LastPage | spotify-check.py:42 | the loop stops at the first page whose `next` is `None` or empty; every earlier page has a `next` cursor |
| Pagination.Followed | spotify-check.py:38-45 | the artists the listing yields; `FollowedArtists` states that the loop returns exactly this |
| Pagination.FollowedArtists | spotify-check.py:38-45 | the loop fetches exactly the pages up to and including the first without `next` and returns their items concatenated in order |
| Diff.Candidates | spotify-check.py:50-53 | the nested loop's visiting order; its properties are stated by `CandidatesMembers`, `CandidatesOne` and `CandidatesAppend` |
| Diff.CandidatesMembers | spotify-check.py:50-53 | every pair comes from a followed artist's own album page, and every item of every followed artist's page is paired with that artist |
| Diff.CandidatesOne | spotify-check.py:51-53 | one artist contributes exactly its album page, in listing order, each item once, paired with that artist |
| Diff.CandidatesAppend | spotify-check.py:50 | the outer loop runs over the artists in order: the listing for `a1 + a2` is the listing for `a1` followed by the listing for `a2` |
| Diff.MakeRelease | spotify-check.py:72-77 | the release tuple; `CollectMembers` states which tuples reach the buckets and `LinkCarriesUri` what its LMS link holds |
| Diff.Place | spotify-check.py:78-81 | the bucket choice; `CollectOne` states that a new release lands in exactly one bucket, chosen by `album_type == "album"` |
| Diff.Collect | spotify-check.py:48-82 | every collected album has type `album` and every single another type, all dated strictly after the watermark day, at most one per listed release |
| Diff.GetNewReleases | spotify-check.py:48-87 | the result raises iff the loop raised; otherwise each bucket is sorted newest first, is a permutation of the releases appended to it, and holds only releases dated after the watermark day |
| Diff.CollectAppend | spotify-check.py:50-81 | the loop is a left-to-right pass: buckets over `xs + ys` are those over `xs` followed by those over `ys`, and the first error wins |
| Diff.CollectOne | spotify-check.py:54-81 | one release on its own: if it is dated strictly after the watermark day it lands in exactly one bucket, `albums` iff its type is exactly `album`; if its precision is not `day`, `month` or `year`, or it is dated on or before the watermark day, it lands in neither; a malformed date under a known precision raises with that release's name and date |
| Diff.UnknownPrecisionSkipped | spotify-check.py:66-69 | inserting a release of unknown precision anywhere in the listing changes nothing |
| Diff.CollectFailure | spotify-check.py:57-65 | the diff raises iff some release has a known precision but an unparseable date, and the error is that of the first such release |
| Diff.CollectMembers | spotify-check.py:71-81 | a tuple is in `albums` (resp. `singles`) iff some listed release of type `album` (resp. another type) has a normalised date strictly after the watermark day and yields that tuple |
| Diff.WatermarkDayExcluded | spotify-check.py:71 | a release dated on or before the watermark day is in neither bucket |
| Diff.CollectMonotone | spotify-check.py:71 | a later watermark gives sub-multisets of both buckets and does not change whether the diff raises |
| Diff.NewReleasesMonotone | spotify-check.py:71-85 | a later watermark never enlarges either sorted bucket |
| Diff.BucketsByDate | spotify-check.py:83-85 | the returned buckets have non-increasing dates |
| Diff.ExampleDigest | spotify-check.py:48-87 | watermark 2024-01-01, an album of 2024-01-15 and a single of 2023-12-01: the albums bucket holds just the album and the singles bucket is empty |
| Job.LastCheck | spotify-check.py:151-158 | without a stored file the fallback instant is used; a stored file gives a valid date at midnight or the ValueError of an unreadable file |
| Job.Run | spotify-check.py:148-178 | a run fails exactly when the watermark file is unreadable or the diff raises; a completed run reports exactly the diff of the followed artists from all pages against the last-check instant, writes today's date, notifies iff either bucket is non-empty, and reports only releases dated after the last-check day |
| Job.ReadBack | spotify-check.py:175-177 | the next run reads the written watermark back as that day at midnight |
| Job.RerunReportsOnlyLater | spotify-check.py:151-178 | after a completed run, the next run cannot fail on the watermark file and reports only releases dated strictly after the earlier run's day |
| Job.ImmediateRerunQuiet | spotify-check.py:164-178 | re-running at once over a catalog with nothing dated after today finds no new release and sends no notification |

## Left out

- Authentication (`get_spotify_client`, lines 17-35): the OAuth flow, the credential cache and the interactive `input()` belong to a library and a console that are not modelled.
- The catalog calls (`current_user_followed_artists`, `next`, `artist_albums`): their responses are inputs. The server-side `album_type='album,single'` filter is the catalog's job. The model classifies whatever type the listing reports.
- `send_email` (lines 90-145): the text and HTML assembly, MIME, STARTTLS, login and SMTP delivery, and the console fallback. `Job.Run` records only whether a notification is due.
- `print` logging throughout.
- `datetime.now()` and `timedelta(days=30)`: today's date and the fallback instant are parameters. The time of day of an `Instant` is an abstract number that only `.date()` discards.
- Exceptions other than date parsing: network errors, missing record fields and mail failures. A release record is assumed to carry every field it is read for.
- Dates.ParseDay: accepts only the zero-padded `YYYY-MM-DD` form. `strptime` also takes unpadded months and days (`2024-1-5`), a space-padded day (`2024-01- 5`) and non-ASCII decimal digits.
- Dates.ParseMonth: accepts only `YYYY-MM`, for the same reason.
- Dates.ParseYear: accepts only four ASCII digits; `strptime` also accepts non-ASCII decimal digits.
- Dates.Format: pads years below 1000 to four digits. Python's `strftime('%Y')` pads such years in a platform-dependent way. The model covers years 1 to 9999.
- Watermark.Read: `strip()` is modelled for ASCII white space only. Python also strips non-ASCII white space.
- Quote.PercentDecode: this is a reference decoder (section 2.1 of RFC 3986) that serves as the inverse of `quote`. It does not model `urllib.parse.unquote`, which the job never calls.
