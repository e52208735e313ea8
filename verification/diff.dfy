/** The release diff of `get_new_releases`: normalise each release date, drop
    releases not newer than the watermark, split the rest into albums and
    singles, and sort each bucket newest first. */
module Diff {
  import opened Wrappers
  import opened Dates
  import opened Releases
  import Quote

  /** A followed artist as the catalog lists it. */
  datatype Artist = Artist(id: string, name: string)

  /** One entry of an artist's album listing. */
  datatype AlbumItem = AlbumItem(
    id: string,
    name: string,
    releaseDate: string,
    precision: string,
    albumType: string)

  /** The configured LMS server base URL and player id. */
  datatype LmsConfig = LmsConfig(server: string, player: string)

  /** One listed release together with the artist it was listed under. */
  datatype Candidate = Candidate(artist: Artist, item: AlbumItem)

  /** The two buckets of new releases. */
  datatype Digest = Digest(albums: seq<Release>, singles: seq<Release>)

  /** The ValueError `strptime` raises for a date it cannot parse; it is not
      caught, so it ends the whole diff. */
  datatype DiffError = MalformedDate(album: string, raw: string)

  function SpotifyUri(albumId: string): string {
    "spotify:album:" + albumId
  }

  function WebLink(albumId: string): string {
    "https://open.spotify.com/album/" + albumId
  }

  /** The tuple recorded for a kept release with normalised date `date`. */
  function MakeRelease(cfg: LmsConfig, c: Candidate, date: Date): Release {
    Release(
      date,
      c.artist.name,
      c.item.name,
      WebLink(c.item.id),
      Quote.LmsLink(cfg.server, cfg.player, SpotifyUri(c.item.id)),
      c.item.albumType)
  }

  /** The date a candidate normalises to, by its declared precision. */
  function NormalizedOf(c: Candidate): Normalized {
    Normalize(c.item.releaseDate, c.item.precision)
  }

  /** What one pass of the inner loop does with a candidate. */
  datatype Verdict =
    | Skipped              // unknown precision: reported, loop continues
    | Seen                 // dated on or before the watermark day
    | New(release: Release)
    | Raises(error: DiffError)

  function Judge(cfg: LmsConfig, last: Instant, c: Candidate): Verdict {
    match NormalizedOf(c)
    case UnknownPrecision => Skipped
    case Malformed => Raises(MalformedDate(c.item.name, c.item.releaseDate))
    case Dated(d) => if Before(last.date, d) then New(MakeRelease(cfg, c, d)) else Seen
  }

  /** The listing pairs every followed artist, in order, with its one page of
      albums (the album listing is not paginated). */
  function Candidates(artists: seq<Artist>, albumsOf: string -> seq<AlbumItem>): seq<Candidate> {
    if |artists| == 0 then []
    else
      var items := albumsOf(artists[0].id);
      seq(|items|, i requires 0 <= i < |items| => Candidate(artists[0], items[i]))
      + Candidates(artists[1..], albumsOf)
  }

  /** Membership in the listing, both ways: every pair comes from a followed
      artist's own album page, and every item of every followed artist's page
      is paired with that artist. */
  lemma {:induction false} CandidatesMembers(artists: seq<Artist>, albumsOf: string -> seq<AlbumItem>)
    ensures forall k :: 0 <= k < |Candidates(artists, albumsOf)| ==>
              && Candidates(artists, albumsOf)[k].artist in artists
              && Candidates(artists, albumsOf)[k].item in albumsOf(Candidates(artists, albumsOf)[k].artist.id)
    ensures forall a, it :: a in artists && it in albumsOf(a.id) ==> Candidate(a, it) in Candidates(artists, albumsOf)
  {
    if |artists| > 0 {
      CandidatesMembers(artists[1..], albumsOf);
      var items := albumsOf(artists[0].id);
      var head := seq(|items|, i requires 0 <= i < |items| => Candidate(artists[0], items[i]));
      var rest := Candidates(artists[1..], albumsOf);
      var cs := head + rest;
      assert Candidates(artists, albumsOf) == cs;
      forall k | 0 <= k < |cs|
        ensures cs[k].artist in artists && cs[k].item in albumsOf(cs[k].artist.id)
      {
        if k < |head| {
          assert cs[k] == Candidate(artists[0], items[k]);
          assert items[k] in items;
        } else {
          var c := rest[k - |head|];
          assert cs[k] == c;
          assert c.artist in artists[1..] && c.item in albumsOf(c.artist.id);
        }
      }
      forall a, it | a in artists && it in albumsOf(a.id)
        ensures Candidate(a, it) in cs
      {
        if a == artists[0] {
          var i :| 0 <= i < |items| && items[i] == it;
          assert cs[i] == Candidate(a, it);
        } else {
          assert a in artists[1..];
          assert Candidate(a, it) in rest;
        }
      }
    }
  }

  /** One artist contributes its album page in listing order, each item
      once, paired with that artist. */
  lemma CandidatesOne(a: Artist, albumsOf: string -> seq<AlbumItem>)
    ensures |Candidates([a], albumsOf)| == |albumsOf(a.id)|
    ensures forall i :: 0 <= i < |albumsOf(a.id)| ==>
              Candidates([a], albumsOf)[i] == Candidate(a, albumsOf(a.id)[i])
  {
    assert [a][1..] == [];
    assert Candidates([a][1..], albumsOf) == [];
  }

  /** The outer loop runs over the artists in order: the listing for
      `a1 + a2` is the listing for `a1` followed by the listing for `a2`. */
  lemma {:induction false} CandidatesAppend(a1: seq<Artist>, a2: seq<Artist>, albumsOf: string -> seq<AlbumItem>)
    ensures Candidates(a1 + a2, albumsOf) == Candidates(a1, albumsOf) + Candidates(a2, albumsOf)
  {
    if |a1| == 0 {
      assert a1 + a2 == a2;
    } else {
      assert (a1 + a2)[0] == a1[0];
      assert (a1 + a2)[1..] == a1[1..] + a2;
      CandidatesAppend(a1[1..], a2, albumsOf);
      CandidatesOne(a1[0], albumsOf);
      var items := albumsOf(a1[0].id);
      var head := seq(|items|, i requires 0 <= i < |items| => Candidate(a1[0], items[i]));
      assert Candidates(a1 + a2, albumsOf) == head + Candidates(a1[1..] + a2, albumsOf);
      assert Candidates(a1, albumsOf) == head + Candidates(a1[1..], albumsOf);
    }
  }

  /** Appends a kept release to the bucket its album type selects. */
  function Place(r: Release, d: Digest): Digest {
    if r.albumType == "album" then Digest([r] + d.albums, d.singles)
    else Digest(d.albums, [r] + d.singles)
  }

  /** The nested loop before sorting: the buckets in the order releases were
      appended, or the first error raised. */
  function Collect(cfg: LmsConfig, last: Instant, cs: seq<Candidate>): (r: Result<Digest, DiffError>)
    ensures r.Success? ==> forall x :: x in r.value.albums ==>
              x.albumType == "album" && Before(last.date, x.date)
    ensures r.Success? ==> forall x :: x in r.value.singles ==>
              x.albumType != "album" && Before(last.date, x.date)
    ensures r.Success? ==> |r.value.albums| + |r.value.singles| <= |cs|
  {
    if |cs| == 0 then Success(Digest([], []))
    else
      match Judge(cfg, last, cs[0])
      case Raises(e) => Failure(e)
      case Skipped => Collect(cfg, last, cs[1..])
      case Seen => Collect(cfg, last, cs[1..])
      case New(x) =>
        match Collect(cfg, last, cs[1..])
        case Failure(e) => Failure(e)
        case Success(d) => Success(Place(x, d))
  }

  /** `get_new_releases`: the collected buckets, each sorted newest first. */
  function GetNewReleases(cfg: LmsConfig, artists: seq<Artist>, albumsOf: string -> seq<AlbumItem>,
                          last: Instant): (r: Result<Digest, DiffError>)
    ensures r.Success? <==> Collect(cfg, last, Candidates(artists, albumsOf)).Success?
    ensures r.Success? ==>
              var d := Collect(cfg, last, Candidates(artists, albumsOf)).value;
              && SortedDesc(r.value.albums) && multiset(r.value.albums) == multiset(d.albums)
              && SortedDesc(r.value.singles) && multiset(r.value.singles) == multiset(d.singles)
    ensures r.Failure? ==> r == Collect(cfg, last, Candidates(artists, albumsOf))
    ensures r.Success? ==> forall x :: x in r.value.albums || x in r.value.singles ==> Before(last.date, x.date)
  {
    match Collect(cfg, last, Candidates(artists, albumsOf))
    case Failure(e) => Failure(e)
    case Success(d) =>
      var albums := SortDesc(d.albums);
      var singles := SortDesc(d.singles);
      assert forall x :: x in albums ==> x in multiset(d.albums);
      assert forall x :: x in singles ==> x in multiset(d.singles);
      Success(Digest(albums, singles))
  }

  // ---------------------------------------------------------------------------
  // Properties of the diff

  /** Joins the buckets of two consecutive stretches of the loop. */
  function Join(a: Result<Digest, DiffError>, b: Result<Digest, DiffError>): Result<Digest, DiffError> {
    match a
    case Failure(e) => Failure(e)
    case Success(d1) =>
      match b
      case Failure(e) => Failure(e)
      case Success(d2) => Success(Digest(d1.albums + d2.albums, d1.singles + d2.singles))
  }

  /** The loop is a left-to-right pass: the result over `xs + ys` is the
      result over `xs` followed by the result over `ys`, and the first error
      raised wins. */
  lemma {:induction false} CollectAppend(cfg: LmsConfig, last: Instant, xs: seq<Candidate>, ys: seq<Candidate>)
    ensures Collect(cfg, last, xs + ys) == Join(Collect(cfg, last, xs), Collect(cfg, last, ys))
  {
    if |xs| == 0 {
      assert xs + ys == ys;
      match Collect(cfg, last, ys)
      case Failure(_) =>
      case Success(d) =>
        assert d.albums == [] + d.albums && d.singles == [] + d.singles;
    } else {
      assert (xs + ys)[0] == xs[0];
      assert (xs + ys)[1..] == xs[1..] + ys;
      CollectAppend(cfg, last, xs[1..], ys);
      match Judge(cfg, last, xs[0])
      case Raises(_) =>
      case Skipped =>
      case Seen =>
      case New(x) =>
        match Collect(cfg, last, xs[1..])
        case Failure(_) =>
        case Success(d1) =>
          match Collect(cfg, last, ys)
          case Failure(_) =>
          case Success(d2) =>
            assert [x] + (d1.albums + d2.albums) == ([x] + d1.albums) + d2.albums;
            assert [x] + (d1.singles + d2.singles) == ([x] + d1.singles) + d2.singles;
    }
  }

  /** One release on its own: a new one lands in exactly one bucket, chosen
      by `album_type == "album"`; one of unknown precision, or dated on or
      before the watermark day, lands in neither; a malformed date raises. */
  lemma CollectOne(cfg: LmsConfig, last: Instant, c: Candidate)
    ensures NormalizedOf(c).Dated? && Before(last.date, NormalizedOf(c).date) && c.item.albumType == "album" ==>
              Collect(cfg, last, [c]) == Success(Digest([MakeRelease(cfg, c, NormalizedOf(c).date)], []))
    ensures NormalizedOf(c).Dated? && Before(last.date, NormalizedOf(c).date) && c.item.albumType != "album" ==>
              Collect(cfg, last, [c]) == Success(Digest([], [MakeRelease(cfg, c, NormalizedOf(c).date)]))
    ensures !KnownPrecision(c.item.precision) ==> Collect(cfg, last, [c]) == Success(Digest([], []))
    ensures NormalizedOf(c).Dated? && !Before(last.date, NormalizedOf(c).date) ==>
              Collect(cfg, last, [c]) == Success(Digest([], []))
    ensures NormalizedOf(c).Malformed? ==>
              Collect(cfg, last, [c]) == Failure(MalformedDate(c.item.name, c.item.releaseDate))
  {
    assert [c][1..] == [];
    assert Collect(cfg, last, [c][1..]) == Success(Digest([], []));
    var v := Judge(cfg, last, c);
    if v.New? {
      assert [v.release] + [] == [v.release];
    }
  }

  /** A release with an unknown precision is skipped and the loop goes on:
      the result is as if it had not been listed. */
  lemma UnknownPrecisionSkipped(cfg: LmsConfig, last: Instant, xs: seq<Candidate>, c: Candidate, ys: seq<Candidate>)
    requires !KnownPrecision(c.item.precision)
    ensures Collect(cfg, last, xs + [c] + ys) == Collect(cfg, last, xs + ys)
  {
    CollectAppend(cfg, last, xs + [c], ys);
    CollectAppend(cfg, last, xs, [c]);
    CollectAppend(cfg, last, xs, ys);
    CollectOne(cfg, last, c);
    match Collect(cfg, last, xs)
    case Failure(_) =>
    case Success(d) =>
      assert d.albums + [] == d.albums && d.singles + [] == d.singles;
  }

  /** The diff raises exactly when some listed release has a known precision
      but a date string the parser rejects, and the error is that of the
      first such release. */
  lemma {:induction false} CollectFailure(cfg: LmsConfig, last: Instant, cs: seq<Candidate>)
    ensures Collect(cfg, last, cs).Failure? <==> exists k :: 0 <= k < |cs| && NormalizedOf(cs[k]).Malformed?
    ensures Collect(cfg, last, cs).Failure? ==>
              exists k :: && 0 <= k < |cs| && NormalizedOf(cs[k]).Malformed?
                          && (forall j :: 0 <= j < k ==> !NormalizedOf(cs[j]).Malformed?)
                          && Collect(cfg, last, cs).error == MalformedDate(cs[k].item.name, cs[k].item.releaseDate)
  {
    if |cs| > 0 {
      CollectFailure(cfg, last, cs[1..]);
      if NormalizedOf(cs[0]).Malformed? {
      } else {
        assert forall k :: 1 <= k < |cs| ==> cs[k] == cs[1..][k - 1];
        if Collect(cfg, last, cs).Failure? {
          var k :| && 0 <= k < |cs[1..]| && NormalizedOf(cs[1..][k]).Malformed?
                   && (forall j :: 0 <= j < k ==> !NormalizedOf(cs[1..][j]).Malformed?)
                   && Collect(cfg, last, cs[1..]).error == MalformedDate(cs[1..][k].item.name, cs[1..][k].item.releaseDate);
          assert forall j :: 0 <= j < k + 1 ==> !NormalizedOf(cs[j]).Malformed?;
        }
      }
    }
  }

  /** Bucket membership, stated release by release: a tuple is in the albums
      bucket iff some listed release of type "album" normalises to a date
      strictly after the watermark day and yields that tuple, and in the
      singles bucket iff the same holds with any other type. */
  lemma {:induction false} CollectMembers(cfg: LmsConfig, last: Instant, cs: seq<Candidate>, x: Release)
    requires Collect(cfg, last, cs).Success?
    ensures x in Collect(cfg, last, cs).value.albums <==>
              exists k :: && 0 <= k < |cs| && NormalizedOf(cs[k]) == Dated(x.date)
                          && Before(last.date, x.date) && cs[k].item.albumType == "album"
                          && x == MakeRelease(cfg, cs[k], x.date)
    ensures x in Collect(cfg, last, cs).value.singles <==>
              exists k :: && 0 <= k < |cs| && NormalizedOf(cs[k]) == Dated(x.date)
                          && Before(last.date, x.date) && cs[k].item.albumType != "album"
                          && x == MakeRelease(cfg, cs[k], x.date)
  {
    if |cs| > 0 {
      CollectMembers(cfg, last, cs[1..], x);
      assert forall k :: 1 <= k < |cs| ==> cs[k] == cs[1..][k - 1];
      var v := Judge(cfg, last, cs[0]);
      if v.New? && x == v.release {
        assert NormalizedOf(cs[0]) == Dated(x.date);
      }
      if exists k :: 0 <= k < |cs| && NormalizedOf(cs[k]) == Dated(x.date)
                     && Before(last.date, x.date) && x == MakeRelease(cfg, cs[k], x.date) {
        var k :| 0 <= k < |cs| && NormalizedOf(cs[k]) == Dated(x.date)
                 && Before(last.date, x.date) && x == MakeRelease(cfg, cs[k], x.date);
        if k > 0 {
          assert cs[1..][k - 1] == cs[k];
        }
      }
    }
  }

  /** A release dated exactly on the watermark day, or before it, is never reported. */
  lemma WatermarkDayExcluded(cfg: LmsConfig, last: Instant, cs: seq<Candidate>, x: Release)
    requires Collect(cfg, last, cs).Success?
    requires !Before(last.date, x.date)
    ensures x !in Collect(cfg, last, cs).value.albums
    ensures x !in Collect(cfg, last, cs).value.singles
  {
  }

  /** Moving the watermark later never adds a release to either bucket and
      does not change whether the diff raises. */
  lemma {:induction false} CollectMonotone(cfg: LmsConfig, early: Instant, late: Instant, cs: seq<Candidate>)
    requires !Before(late.date, early.date)
    ensures Collect(cfg, late, cs).Success? == Collect(cfg, early, cs).Success?
    ensures Collect(cfg, late, cs).Success? ==>
              && multiset(Collect(cfg, late, cs).value.albums) <= multiset(Collect(cfg, early, cs).value.albums)
              && multiset(Collect(cfg, late, cs).value.singles) <= multiset(Collect(cfg, early, cs).value.singles)
  {
    if |cs| > 0 {
      CollectMonotone(cfg, early, late, cs[1..]);
      MonotoneStep(cfg, early, late, cs);
    }
  }

  /** The step of `CollectMonotone`: given the claim for the rest of the
      listing, it holds with the first release put back in front. */
  lemma MonotoneStep(cfg: LmsConfig, early: Instant, late: Instant, cs: seq<Candidate>)
    requires !Before(late.date, early.date) && |cs| > 0
    requires Collect(cfg, late, cs[1..]).Success? == Collect(cfg, early, cs[1..]).Success?
    requires Collect(cfg, late, cs[1..]).Success? ==>
               && multiset(Collect(cfg, late, cs[1..]).value.albums) <= multiset(Collect(cfg, early, cs[1..]).value.albums)
               && multiset(Collect(cfg, late, cs[1..]).value.singles) <= multiset(Collect(cfg, early, cs[1..]).value.singles)
    ensures Collect(cfg, late, cs).Success? == Collect(cfg, early, cs).Success?
    ensures Collect(cfg, late, cs).Success? ==>
              && multiset(Collect(cfg, late, cs).value.albums) <= multiset(Collect(cfg, early, cs).value.albums)
              && multiset(Collect(cfg, late, cs).value.singles) <= multiset(Collect(cfg, early, cs).value.singles)
  {
    var c := cs[0];
    var re := Collect(cfg, early, cs[1..]);
    var rl := Collect(cfg, late, cs[1..]);
    match NormalizedOf(c)
    case UnknownPrecision =>
      assert Collect(cfg, early, cs) == re && Collect(cfg, late, cs) == rl;
    case Malformed =>
    case Dated(d) =>
      var x := MakeRelease(cfg, c, d);
      if Before(late.date, d) {
        BeforeTotal(early.date, late.date);
        if early.date != late.date {
          BeforeTransitive(early.date, late.date, d);
        }
        if rl.Success? {
          assert Collect(cfg, late, cs) == Success(Place(x, rl.value));
          assert Collect(cfg, early, cs) == Success(Place(x, re.value));
          PlaceMultiset(x, rl.value);
          PlaceMultiset(x, re.value);
        }
      } else if Before(early.date, d) {
        if rl.Success? {
          assert Collect(cfg, late, cs) == rl;
          assert Collect(cfg, early, cs) == Success(Place(x, re.value));
          PlaceMultiset(x, re.value);
        }
      } else {
        assert Collect(cfg, early, cs) == re && Collect(cfg, late, cs) == rl;
      }
  }

  lemma PlaceMultiset(x: Release, d: Digest)
    ensures x.albumType == "album" ==>
              && multiset(Place(x, d).albums) == multiset(d.albums) + multiset{x}
              && Place(x, d).singles == d.singles
    ensures x.albumType != "album" ==>
              && multiset(Place(x, d).singles) == multiset(d.singles) + multiset{x}
              && Place(x, d).albums == d.albums
  {
  }

  /** The same for the sorted buckets `get_new_releases` returns: a later
      watermark never enlarges either of them. */
  lemma NewReleasesMonotone(cfg: LmsConfig, artists: seq<Artist>, albumsOf: string -> seq<AlbumItem>,
                            early: Instant, late: Instant)
    requires !Before(late.date, early.date)
    ensures GetNewReleases(cfg, artists, albumsOf, late).Success?
            == GetNewReleases(cfg, artists, albumsOf, early).Success?
    ensures GetNewReleases(cfg, artists, albumsOf, late).Success? ==>
              var l := GetNewReleases(cfg, artists, albumsOf, late).value;
              var e := GetNewReleases(cfg, artists, albumsOf, early).value;
              && multiset(l.albums) <= multiset(e.albums) && |l.albums| <= |e.albums|
              && multiset(l.singles) <= multiset(e.singles) && |l.singles| <= |e.singles|
  {
    var cs := Candidates(artists, albumsOf);
    CollectMonotone(cfg, early, late, cs);
    var rl := GetNewReleases(cfg, artists, albumsOf, late);
    var re := GetNewReleases(cfg, artists, albumsOf, early);
    if rl.Success? {
      var dl := Collect(cfg, late, cs).value;
      var de := Collect(cfg, early, cs).value;
      assert multiset(rl.value.albums) == multiset(dl.albums);
      assert multiset(re.value.albums) == multiset(de.albums);
      assert multiset(rl.value.singles) == multiset(dl.singles);
      assert multiset(re.value.singles) == multiset(de.singles);
      SubMultisetSize(rl.value.albums, re.value.albums);
      SubMultisetSize(rl.value.singles, re.value.singles);
    }
  }

  lemma SubMultisetSize(a: seq<Release>, b: seq<Release>)
    requires multiset(a) <= multiset(b)
    ensures |a| <= |b|
  {
    assert |multiset(a)| == |a| && |multiset(b)| == |b|;
    assert multiset(b) == multiset(a) + (multiset(b) - multiset(a));
  }

  /** Each returned bucket lists its releases newest first: dates never
      increase along the bucket. */
  lemma BucketsByDate(cfg: LmsConfig, artists: seq<Artist>, albumsOf: string -> seq<AlbumItem>, last: Instant)
    requires GetNewReleases(cfg, artists, albumsOf, last).Success?
    ensures var d := GetNewReleases(cfg, artists, albumsOf, last).value;
            && (forall i, j :: 0 <= i < j < |d.albums| ==> !Before(d.albums[i].date, d.albums[j].date))
            && (forall i, j :: 0 <= i < j < |d.singles| ==> !Before(d.singles[i].date, d.singles[j].date))
  {
    var d := GetNewReleases(cfg, artists, albumsOf, last).value;
    SortedByDate(d.albums);
    SortedByDate(d.singles);
  }

  /** A worked case: watermark 2024-01-01, one artist with a day-precision
      album of 2024-01-15 and a single of 2023-12-01. Only the album is new. */
  lemma ExampleDigest(cfg: LmsConfig)
    ensures var artist := Artist("a", "A");
            var album := AlbumItem("x", "New", "2024-01-15", "day", "album");
            var single := AlbumItem("y", "Old", "2023-12-01", "day", "single");
            var albumsOf := (id: string) => [album, single];
            GetNewReleases(cfg, [artist], albumsOf, Instant(Date(2024, 1, 1), 0))
            == Success(Digest([MakeRelease(cfg, Candidate(artist, album), Date(2024, 1, 15))], []))
  {
    var artist := Artist("a", "A");
    var album := AlbumItem("x", "New", "2024-01-15", "day", "album");
    var single := AlbumItem("y", "Old", "2023-12-01", "day", "single");
    var albumsOf := (id: string) => [album, single];
    var cs := Candidates([artist], albumsOf);
    assert albumsOf(artist.id) == [album, single];
    assert [artist][1..] == [];
    assert Candidates([artist][1..], albumsOf) == [];
    var items := albumsOf(artist.id);
    var pairs := seq(|items|, i requires 0 <= i < |items| => Candidate(artist, items[i]));
    assert cs == pairs + [];
    assert pairs[0] == Candidate(artist, album) && pairs[1] == Candidate(artist, single);
    assert cs == [Candidate(artist, album), Candidate(artist, single)];
    var last := Instant(Date(2024, 1, 1), 0);
    var r := MakeRelease(cfg, Candidate(artist, album), Date(2024, 1, 15));
    ExampleDates();
    assert Judge(cfg, last, cs[0]) == New(r);
    assert Judge(cfg, last, cs[1]) == Seen;
    assert cs[1..][1..] == [];
    assert Collect(cfg, last, cs[1..]) == Success(Digest([], []));
    assert Place(r, Digest([], [])) == Digest([r], []);
    assert Collect(cfg, last, cs) == Success(Digest([r], []));
    assert SortDesc([r]) == [r];
  }

  lemma ExampleDates()
    ensures Normalize("2024-01-15", "day") == Dated(Date(2024, 1, 15))
    ensures Normalize("2023-12-01", "day") == Dated(Date(2023, 12, 1))
  {
    ExampleNewDate();
    ExampleOldDate();
  }

  lemma ExampleNewDate()
    ensures Normalize("2024-01-15", "day") == Dated(Date(2024, 1, 15))
  {
    var s := "2024-01-15";
    assert s[..4] == "2024" && s[5..7] == "01" && s[8..] == "15";
    assert "2024"[..3] == "202" && "202"[..2] == "20" && "20"[..1] == "2" && "2"[..0] == "";
    assert Digits.Value("2024") == 2024;
    assert "01"[..1] == "0" && "0"[..0] == "";
    assert Digits.Value("01") == 1;
    assert "15"[..1] == "1" && "1"[..0] == "";
    assert Digits.Value("15") == 15;
  }

  lemma ExampleOldDate()
    ensures Normalize("2023-12-01", "day") == Dated(Date(2023, 12, 1))
  {
    var s := "2023-12-01";
    assert s[..4] == "2023" && s[5..7] == "12" && s[8..] == "01";
    assert "2023"[..3] == "202" && "202"[..2] == "20" && "20"[..1] == "2" && "2"[..0] == "";
    assert Digits.Value("2023") == 2023;
    assert "12"[..1] == "1" && "1"[..0] == "";
    assert Digits.Value("12") == 12;
    assert "01"[..1] == "0" && "0"[..0] == "";
    assert Digits.Value("01") == 1;
  }
}
