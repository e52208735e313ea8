/** The release record `get_new_releases` builds, Python's ordering of such
    tuples, and `list.sort(reverse=True)` over them. */
module Releases {
  import opened Dates

  /** The tuple `(release_date, artist name, album name, web link, LMS link,
      album_type)`, in that field order. */
  datatype Release = Release(
    date: Date,
    artist: string,
    title: string,
    link: string,
    lmsLink: string,
    albumType: string)

  /** Python's `a <= b` on strings: code point by code point, a proper
      prefix first. */
  predicate StrLeq(a: string, b: string)
    decreases |a|
  {
    |a| == 0 || (|b| > 0 && (a[0] < b[0] || (a[0] == b[0] && StrLeq(a[1..], b[1..]))))
  }

  lemma {:induction false} StrLeqTotal(a: string, b: string)
    ensures StrLeq(a, b) || StrLeq(b, a)
    decreases |a|
  {
    if |a| > 0 && |b| > 0 && a[0] == b[0] {
      StrLeqTotal(a[1..], b[1..]);
    }
  }

  lemma {:induction false} StrLeqAntisymmetric(a: string, b: string)
    requires StrLeq(a, b) && StrLeq(b, a)
    ensures a == b
    decreases |a|
  {
    if |a| > 0 {
      StrLeqAntisymmetric(a[1..], b[1..]);
      assert a == [a[0]] + a[1..] && b == [b[0]] + b[1..];
    }
  }

  lemma {:induction false} StrLeqTransitive(a: string, b: string, c: string)
    requires StrLeq(a, b) && StrLeq(b, c)
    ensures StrLeq(a, c)
    decreases |a|
  {
    if |a| > 0 && a[0] == b[0] && b[0] == c[0] {
      StrLeqTransitive(a[1..], b[1..], c[1..]);
    }
  }

  /** Python's `a <= b` on release tuples: the first field that differs decides. */
  predicate Leq(a: Release, b: Release) {
    if a.date != b.date then Before(a.date, b.date)
    else if a.artist != b.artist then StrLeq(a.artist, b.artist)
    else if a.title != b.title then StrLeq(a.title, b.title)
    else if a.link != b.link then StrLeq(a.link, b.link)
    else if a.lmsLink != b.lmsLink then StrLeq(a.lmsLink, b.lmsLink)
    else StrLeq(a.albumType, b.albumType)
  }

  lemma LeqTotal(a: Release, b: Release)
    ensures Leq(a, b) || Leq(b, a)
  {
    BeforeTotal(a.date, b.date);
    StrLeqTotal(a.artist, b.artist);
    StrLeqTotal(a.title, b.title);
    StrLeqTotal(a.link, b.link);
    StrLeqTotal(a.lmsLink, b.lmsLink);
    StrLeqTotal(a.albumType, b.albumType);
  }

  lemma LeqAntisymmetric(a: Release, b: Release)
    requires Leq(a, b) && Leq(b, a)
    ensures a == b
  {
    BeforeTotal(a.date, b.date);
    if a.date == b.date && a.artist == b.artist && a.title == b.title
       && a.link == b.link && a.lmsLink == b.lmsLink {
      StrLeqAntisymmetric(a.albumType, b.albumType);
    } else if a.date == b.date && a.artist == b.artist && a.title == b.title && a.link == b.link {
      StrLeqAntisymmetric(a.lmsLink, b.lmsLink);
    } else if a.date == b.date && a.artist == b.artist && a.title == b.title {
      StrLeqAntisymmetric(a.link, b.link);
    } else if a.date == b.date && a.artist == b.artist {
      StrLeqAntisymmetric(a.title, b.title);
    } else if a.date == b.date {
      StrLeqAntisymmetric(a.artist, b.artist);
    }
  }

  lemma {:induction false} StrLeqReflexive(a: string)
    ensures StrLeq(a, a)
    decreases |a|
  {
    if |a| > 0 {
      StrLeqReflexive(a[1..]);
    }
  }

  /** One field of a tuple comparison: where the field differs in either
      step, it differs between the ends too, in the same direction. */
  lemma StrStep(x: string, y: string, z: string)
    requires x != y ==> StrLeq(x, y)
    requires y != z ==> StrLeq(y, z)
    requires x != y || y != z
    ensures x != z && StrLeq(x, z)
  {
    StrLeqReflexive(y);
    StrLeqTransitive(x, y, z);
    if x == z {
      StrLeqAntisymmetric(x, y);
    }
  }

  lemma LeqTransitive(a: Release, b: Release, c: Release)
    requires Leq(a, b) && Leq(b, c)
    ensures Leq(a, c)
  {
    if a.date != b.date || b.date != c.date {
      if a.date != b.date && b.date != c.date {
        BeforeTransitive(a.date, b.date, c.date);
      }
      BeforeTotal(a.date, c.date);
    } else if a.artist != b.artist || b.artist != c.artist {
      StrStep(a.artist, b.artist, c.artist);
    } else if a.title != b.title || b.title != c.title {
      StrStep(a.title, b.title, c.title);
    } else if a.link != b.link || b.link != c.link {
      StrStep(a.link, b.link, c.link);
    } else if a.lmsLink != b.lmsLink || b.lmsLink != c.lmsLink {
      StrStep(a.lmsLink, b.lmsLink, c.lmsLink);
    } else {
      StrLeqTransitive(a.albumType, b.albumType, c.albumType);
    }
  }

  /** Newest first: no release is ordered below a later one. */
  predicate SortedDesc(s: seq<Release>) {
    forall i, j :: 0 <= i < j < |s| ==> Leq(s[j], s[i])
  }

  /** Inserts `r` into a list sorted newest first, keeping it sorted. */
  function Insert(r: Release, s: seq<Release>): (t: seq<Release>)
    requires SortedDesc(s)
    ensures SortedDesc(t)
    ensures multiset(t) == multiset(s) + multiset{r}
    ensures |t| == |s| + 1
  {
    if |s| == 0 then [r]
    else if Leq(s[0], r) then
      InsertFront(r, s);
      [r] + s
    else
      LeqTotal(s[0], r);
      var rest := Insert(r, s[1..]);
      InsertBehind(r, s, rest);
      assert s == [s[0]] + s[1..];
      [s[0]] + rest
  }

  lemma InsertFront(r: Release, s: seq<Release>)
    requires SortedDesc(s) && |s| > 0 && Leq(s[0], r)
    ensures SortedDesc([r] + s)
  {
    var t := [r] + s;
    forall i, j | 0 <= i < j < |t|
      ensures Leq(t[j], t[i])
    {
      if i == 0 && j > 1 {
        LeqTransitive(t[j], s[0], r);
      }
    }
  }

  lemma InsertBehind(r: Release, s: seq<Release>, rest: seq<Release>)
    requires SortedDesc(s) && |s| > 0 && Leq(r, s[0])
    requires SortedDesc(rest) && multiset(rest) == multiset(s[1..]) + multiset{r}
    ensures SortedDesc([s[0]] + rest)
  {
    var t := [s[0]] + rest;
    forall j | 0 <= j < |rest|
      ensures Leq(rest[j], s[0])
    {
      assert rest[j] in multiset(rest);
      if rest[j] != r {
        assert rest[j] in multiset(s[1..]);
        var k :| 0 <= k < |s[1..]| && s[1..][k] == rest[j];
        assert s[k + 1] == rest[j];
      }
    }
    forall i, j | 0 <= i < j < |t|
      ensures Leq(t[j], t[i])
    {
      if i == 0 {
        assert t[j] == rest[j - 1];
      } else {
        assert t[i] == rest[i - 1] && t[j] == rest[j - 1];
      }
    }
  }

  /** `list.sort(reverse=True)` on release tuples. */
  function SortDesc(s: seq<Release>): (t: seq<Release>)
    ensures SortedDesc(t)
    ensures multiset(t) == multiset(s)
    ensures |t| == |s|
  {
    if |s| == 0 then []
    else
      assert s == [s[0]] + s[1..];
      Insert(s[0], SortDesc(s[1..]))
  }

  /** A sorted sequence starts with an element above all its others. */
  lemma HeadIsGreatest(s: seq<Release>, x: Release)
    requires SortedDesc(s) && x in multiset(s)
    ensures Leq(x, s[0])
  {
    var k :| 0 <= k < |s| && s[k] == x;
    if k == 0 {
      LeqTotal(x, x);
    }
  }

  /** Two sorted arrangements of the same releases are the same sequence:
      tuples that compare equal are identical, so the order is total and
      `sort(reverse=True)` has exactly one possible result. */
  lemma {:induction false} SortedUnique(a: seq<Release>, b: seq<Release>)
    requires SortedDesc(a) && SortedDesc(b)
    requires multiset(a) == multiset(b)
    ensures a == b
    decreases |a|
  {
    if |a| > 0 {
      assert |b| == |a| by {
        assert |multiset(a)| == |a| && |multiset(b)| == |b|;
      }
      assert a[0] in multiset(b);
      assert b[0] in multiset(a);
      HeadIsGreatest(b, a[0]);
      HeadIsGreatest(a, b[0]);
      LeqAntisymmetric(a[0], b[0]);
      assert a == [a[0]] + a[1..] && b == [b[0]] + b[1..];
      assert multiset(a) == multiset{a[0]} + multiset(a[1..]);
      assert multiset(b) == multiset{b[0]} + multiset(b[1..]);
      assert multiset(a[1..]) == multiset(a) - multiset{a[0]};
      assert multiset(b[1..]) == multiset(b) - multiset{b[0]};
      SortedUnique(a[1..], b[1..]);
    } else {
      assert |multiset(b)| == 0;
    }
  }

  /** In a sorted bucket dates never increase: `date[i] >= date[j]` for `i < j`. */
  lemma SortedByDate(s: seq<Release>)
    requires SortedDesc(s)
    ensures forall i, j :: 0 <= i < j < |s| ==> !Before(s[i].date, s[j].date)
  {
    forall i, j | 0 <= i < j < |s|
      ensures !Before(s[i].date, s[j].date)
    {
      assert Leq(s[j], s[i]);
      BeforeTotal(s[i].date, s[j].date);
    }
  }
}
