/** The fallback meeting link of index.js:613-617:
    `https://meet.google.com/<slug>-<Date.now() in base 36>`. The slug comes
    from `Math.random()` and is a parameter here. */
module MeetLink {

  const MeetPrefix := "https://meet.google.com/"

  /** The characters `toString(36)` writes: `0`-`9` then `a`-`z`. */
  predicate IsDigit36(c: char) {
    '0' <= c <= '9' || 'a' <= c <= 'z'
  }

  /** The character JavaScript's `toString(36)` uses for digit `d`. */
  function Digit(d: nat): (c: char)
    requires d < 36
    ensures IsDigit36(c)
  {
    if d < 10 then ('0' as int + d) as char else ('a' as int + d - 10) as char
  }

  /** The value of a base-36 digit character, -1 for any other character. */
  function DigitValue(c: char): (d: int)
    ensures -1 <= d < 36
    ensures d >= 0 ==> Digit(d) == c
    ensures d == -1 <==> !IsDigit36(c)
  {
    if '0' <= c <= '9' then c as int - '0' as int
    else if 'a' <= c <= 'z' then c as int - 'a' as int + 10
    else -1
  }

  /** `n.toString(36)` for a non-negative integer: most significant digit first,
      no leading zero. */
  function ToBase36(n: nat): (s: string)
    ensures |s| >= 1
    ensures forall i :: 0 <= i < |s| ==> IsDigit36(s[i])
    ensures |s| > 1 ==> s[0] != '0'
  {
    if n < 36 then [Digit(n)] else ToBase36(n / 36) + [Digit(n % 36)]
  }

  /** Reads a string of base-36 digits back as a number. */
  function FromBase36(s: string): nat
    requires forall i :: 0 <= i < |s| ==> IsDigit36(s[i])
  {
    if s == [] then 0
    else FromBase36(s[..|s| - 1]) * 36 + DigitValue(s[|s| - 1])
  }

  /** Base-36 rendering loses no information. */
  lemma {:induction false} Base36RoundTrip(n: nat)
    ensures FromBase36(ToBase36(n)) == n
  {
    var s := ToBase36(n);
    if n >= 36 {
      Base36RoundTrip(n / 36);
      assert s[..|s| - 1] == ToBase36(n / 36);
      assert DigitValue(s[|s| - 1]) == n % 36;
    } else {
      assert DigitValue(s[0]) == n;
    }
  }

  /** `generateMeetLink()` with its two sources of variation made explicit. */
  function GenerateMeetLink(slug: string, timestamp: nat): (link: string)
    ensures |link| > |MeetPrefix|
    ensures link[..|MeetPrefix|] == MeetPrefix
  {
    MeetPrefix + slug + "-" + ToBase36(timestamp)
  }

  /** Position of the last `-` in `s`, or -1. */
  function LastDash(s: string): (k: int)
    ensures -1 <= k < |s|
    ensures k >= 0 ==> s[k] == '-'
    ensures forall i :: k < i < |s| ==> s[i] != '-'
  {
    if s == [] then -1
    else if s[|s| - 1] == '-' then |s| - 1
    else LastDash(s[..|s| - 1])
  }

  /** The creation time a fallback link encodes: the base-36 number after its
      last dash. */
  function LinkTimestamp(link: string): (t: int)
    ensures t >= -1
  {
    var k := LastDash(link);
    var tail := link[k + 1..];
    if k >= 0 && tail != [] && forall i :: 0 <= i < |tail| ==> IsDigit36(tail[i])
    then FromBase36(tail)
    else -1
  }

  /** Whatever the random slug holds, the generated link gives back the time
      it was made at. */
  lemma FallbackLinkTimestamp(slug: string, timestamp: nat)
    ensures LinkTimestamp(GenerateMeetLink(slug, timestamp)) == timestamp
  {
    var digits := ToBase36(timestamp);
    var link := GenerateMeetLink(slug, timestamp);
    var k := |MeetPrefix| + |slug|;
    assert link[k] == '-';
    assert link[k + 1..] == digits;
    assert LastDash(link) == k;
    Base36RoundTrip(timestamp);
  }
}
