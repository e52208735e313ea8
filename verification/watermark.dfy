/** The persisted last-check date: written with `strftime('%Y-%m-%d')`,
    read back with `strptime` of the stripped file contents. */
module Watermark {
  import opened Wrappers
  import opened Dates

  /** The ASCII characters `str.strip()` removes. */
  predicate IsSpace(c: char) {
    // space, tab, line feed, vertical tab, form feed, carriage return,
    // and the four information separators U+001C to U+001F
    c == ' ' || 9 <= c as int <= 13 || 0x1C <= c as int <= 0x1F
  }

  predicate AllSpace(s: string) {
    forall i :: 0 <= i < |s| ==> IsSpace(s[i])
  }

  /** The number of white-space characters `s` starts with. */
  function LeadingSpace(s: string): (k: nat)
    ensures k <= |s| && AllSpace(s[..k])
    ensures k < |s| ==> !IsSpace(s[k])
  {
    if |s| > 0 && IsSpace(s[0]) then
      var k := LeadingSpace(s[1..]);
      assert s[..k + 1] == [s[0]] + s[1..][..k];
      k + 1
    else 0
  }

  /** Where the white space `s` ends with begins. */
  function TrailingSpace(s: string): (k: nat)
    ensures k <= |s| && AllSpace(s[k..])
    ensures k > 0 ==> !IsSpace(s[k - 1])
  {
    if |s| > 0 && IsSpace(s[|s| - 1]) then
      var k := TrailingSpace(s[..|s| - 1]);
      assert s[k..] == s[..|s| - 1][k..] + [s[|s| - 1]];
      k
    else |s|
  }

  function StripLeft(s: string): string {
    s[LeadingSpace(s)..]
  }

  function StripRight(s: string): string {
    s[..TrailingSpace(s)]
  }

  /** `str.strip()`: leading and trailing white space removed. */
  function Strip(s: string): string {
    StripRight(StripLeft(s))
  }

  /** The text `main` writes to the last-check file for the run's date. */
  function Write(today: Date): string
    requires Valid(today)
  {
    Format(today)
  }

  /** What `main` reads from an existing last-check file: the stored date at
      midnight, or None where `strptime` raises. */
  function Read(text: string): (r: Option<Instant>)
    ensures r.Some? ==> Valid(r.value.date) && r.value.timeOfDay == 0
  {
    match ParseDay(Strip(text))
    case Some(d) => Some(Instant(d, 0))
    case None => None
  }

  lemma {:induction false} StripLeftSpaces(w: string, s: string)
    requires AllSpace(w)
    requires |s| == 0 || !IsSpace(s[0])
    ensures LeadingSpace(w + s) == |w|
    ensures StripLeft(w + s) == s
  {
    if |w| > 0 {
      assert (w + s)[1..] == w[1..] + s;
      StripLeftSpaces(w[1..], s);
    } else {
      assert w + s == s;
    }
  }

  lemma {:induction false} StripRightSpaces(s: string, w: string)
    requires AllSpace(w)
    requires |s| == 0 || !IsSpace(s[|s| - 1])
    ensures TrailingSpace(s + w) == |s|
    ensures StripRight(s + w) == s
  {
    if |w| > 0 {
      assert (s + w)[..|s + w| - 1] == s + w[..|w| - 1];
      StripRightSpaces(s, w[..|w| - 1]);
    } else {
      assert s + w == s;
    }
  }

  /** Text whose ends are not white space survives `strip()` of any padding. */
  lemma StripPadded(w1: string, s: string, w2: string)
    requires AllSpace(w1) && AllSpace(w2)
    requires |s| > 0 && !IsSpace(s[0]) && !IsSpace(s[|s| - 1])
    ensures Strip(w1 + s + w2) == s
  {
    assert w1 + s + w2 == w1 + (s + w2);
    StripLeftSpaces(w1, s + w2);
    StripRightSpaces(s, w2);
  }

  /** The watermark round trip: the date written is the date read back, at
      midnight, even with white space (a trailing newline, say) around it. */
  lemma ReadWrite(today: Date, w1: string, w2: string)
    requires Valid(today)
    requires AllSpace(w1) && AllSpace(w2)
    ensures Read(w1 + Write(today) + w2) == Some(Instant(today, 0))
  {
    var s := Write(today);
    assert s[0] == Digits.Pad(today.year, 4)[0];
    assert s[|s| - 1] == Digits.Pad(today.day, 2)[1];
    StripPadded(w1, s, w2);
    NormalizeDay(today);
  }
}
