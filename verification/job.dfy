/** One run of `main`, with the clock, the catalog and the files as inputs:
    read the watermark, list followed artists, diff their releases, notify if
    anything is new, and write today's date as the new watermark. */
module Job {
  import opened Wrappers
  import opened Dates
  import opened Releases
  import opened Diff
  import Watermark
  import Pagination

  /** The uncaught exceptions that end a run before the watermark is written. */
  datatype Crash =
    | UnreadableWatermark(text: string)
    | BadReleaseDate(error: DiffError)

  /** What a completed run produced: the digest, whether a notification was
      sent, and the text written to the last-check file. */
  datatype Report = Report(digest: Digest, notified: bool, watermark: string)

  /** The last-check instant: the stored date when the file exists, otherwise
      `fallback` (the clock reading minus 30 days, computed by the caller). */
  function LastCheck(stored: Option<string>, fallback: Instant): (r: Result<Instant, Crash>)
    ensures stored.None? ==> r == Success(fallback)
    ensures stored.Some? && r.Success? ==> r.value.timeOfDay == 0 && Valid(r.value.date)
    ensures stored.Some? && r.Failure? ==> r.error == UnreadableWatermark(stored.value)
  {
    match stored
    case None => Success(fallback)
    case Some(text) =>
      match Watermark.Read(text)
      case Some(i) => Success(i)
      case None => Failure(UnreadableWatermark(text))
  }

  /** `main` after authentication. `today` is the date of the clock reading
      taken when the watermark is written. */
  function Run(cfg: LmsConfig, stored: Option<string>, fallback: Instant, today: Date,
               pages: seq<Pagination.Page<Artist>>, albumsOf: string -> seq<AlbumItem>): (r: Result<Report, Crash>)
    requires Valid(today)
    requires Pagination.Terminates(pages)
    ensures r.Failure? <==>
              || LastCheck(stored, fallback).Failure?
              || GetNewReleases(cfg, Pagination.Followed(pages), albumsOf, LastCheck(stored, fallback).value).Failure?
    ensures r.Success? ==>
              GetNewReleases(cfg, Pagination.Followed(pages), albumsOf, LastCheck(stored, fallback).value)
              == Success(r.value.digest)
    ensures r.Success? ==> r.value.watermark == Watermark.Write(today)
    ensures r.Success? ==> (r.value.notified <==> |r.value.digest.albums| + |r.value.digest.singles| > 0)
    ensures r.Success? ==> LastCheck(stored, fallback).Success?
    ensures r.Success? ==> forall x :: x in r.value.digest.albums || x in r.value.digest.singles ==>
              Before(LastCheck(stored, fallback).value.date, x.date)
  {
    match LastCheck(stored, fallback)
    case Failure(e) => Failure(e)
    case Success(last) =>
      var artists := Pagination.Followed(pages);
      match GetNewReleases(cfg, artists, albumsOf, last)
      case Failure(e) => Failure(BadReleaseDate(e))
      case Success(d) =>
        Success(Report(d, |d.albums| + |d.singles| > 0, Watermark.Write(today)))
  }

  /** The watermark a run writes is read back by the next run as that day at midnight. */
  lemma ReadBack(today: Date, fallback: Instant)
    requires Valid(today)
    ensures LastCheck(Some(Watermark.Write(today)), fallback) == Success(Instant(today, 0))
  {
    var w := Watermark.Write(today);
    Watermark.ReadWrite(today, "", "");
    assert "" + w + "" == w;
  }

  /** A run after a completed run reads back the watermark it wrote, and
      reports only releases dated strictly after that run's day. */
  lemma RerunReportsOnlyLater(cfg: LmsConfig, stored: Option<string>, fallback: Instant, today: Date,
                              pages: seq<Pagination.Page<Artist>>, albumsOf: string -> seq<AlbumItem>,
                              fallback2: Instant, today2: Date,
                              pages2: seq<Pagination.Page<Artist>>, albumsOf2: string -> seq<AlbumItem>)
    requires Valid(today) && Valid(today2)
    requires Pagination.Terminates(pages) && Pagination.Terminates(pages2)
    requires Run(cfg, stored, fallback, today, pages, albumsOf).Success?
    ensures var w := Run(cfg, stored, fallback, today, pages, albumsOf).value.watermark;
            var r2 := Run(cfg, Some(w), fallback2, today2, pages2, albumsOf2);
            && (r2.Failure? ==> r2.error.BadReleaseDate?)
            && (r2.Success? ==> forall x :: x in r2.value.digest.albums || x in r2.value.digest.singles ==>
                  Before(today, x.date))
  {
    var r1 := Run(cfg, stored, fallback, today, pages, albumsOf);
    assert r1.value.watermark == Watermark.Write(today);
    ReadBack(today, fallback2);
  }

  /** An immediate re-run over a catalog with nothing dated after today finds
      no new release and sends no notification. */
  lemma ImmediateRerunQuiet(cfg: LmsConfig, stored: Option<string>, fallback: Instant, today: Date,
                            pages: seq<Pagination.Page<Artist>>, albumsOf: string -> seq<AlbumItem>,
                            fallback2: Instant)
    requires Valid(today)
    requires Pagination.Terminates(pages)
    requires Run(cfg, stored, fallback, today, pages, albumsOf).Success?
    requires forall c :: c in Candidates(Pagination.Followed(pages), albumsOf) && NormalizedOf(c).Dated? ==>
               !Before(today, NormalizedOf(c).date)
    ensures var w := Run(cfg, stored, fallback, today, pages, albumsOf).value.watermark;
            var r2 := Run(cfg, Some(w), fallback2, today, pages, albumsOf);
            r2.Success? && r2.value.digest == Digest([], []) && !r2.value.notified
  {
    var r1 := Run(cfg, stored, fallback, today, pages, albumsOf);
    assert r1.value.watermark == Watermark.Write(today);
    ReadBack(today, fallback2);
    var last := Instant(today, 0);
    var artists := Pagination.Followed(pages);
    var cs := Candidates(artists, albumsOf);
    CollectFailure(cfg, LastCheck(stored, fallback).value, cs);
    CollectFailure(cfg, last, cs);
    var d := Collect(cfg, last, cs).value;
    if |d.albums| > 0 {
      CollectMembers(cfg, last, cs, d.albums[0]);
      assert false;
    }
    if |d.singles| > 0 {
      CollectMembers(cfg, last, cs, d.singles[0]);
      assert false;
    }
    assert multiset(d.albums) == multiset{};
    assert multiset(d.singles) == multiset{};
  }
}
