/**
 * The two display helpers shared by the tools: `format_rank_tier`, which turns
 * OpenDota's two-digit medal code (tier, then stars) into a label, and
 * `format_duration`, which writes seconds as `minutes:seconds`.
 */
module Formatting {
  import opened Options
  import opened Strings

  /** The medal names, indexed by tier. */
  const RankNames: seq<string> :=
    ["Unranked", "Herald", "Guardian", "Crusader", "Archon", "Legend", "Ancient", "Divine", "Immortal"]

  /** The label for tier `tier` with `stars` stars: the medal name, a space, the star digit. */
  function MedalLabel(tier: nat, stars: nat): (r: string)
    requires tier < |RankNames| && stars < 10
    ensures |r| == |RankNames[tier]| + 2
    ensures r[..|r| - 2] == RankNames[tier] && r[|r| - 2] == ' ' && r[|r| - 1] == DigitChar(stars)
  {
    RankNames[tier] + " " + IntToString(stars)
  }

  /**
   * `format_rank_tier` of the newer copy: "Unknown" for a missing or zero code and
   * for a tier outside Herald..Immortal, "Immortal" for every Immortal code, and
   * otherwise the medal and its stars.
   */
  function FormatRankTier(rankTier: Option<int>): (r: string)
    ensures r == "Unknown" <==> rankTier.None? || !(10 <= rankTier.value < 90)
    ensures r == "Immortal" <==> rankTier.Some? && 80 <= rankTier.value < 90
    ensures rankTier.Some? && 10 <= rankTier.value < 80 ==>
              r == MedalLabel(rankTier.value / 10, rankTier.value % 10)
  {
    if rankTier.None? || rankTier.value == 0 then "Unknown"
    else
      var tier := rankTier.value / 10;
      var stars := rankTier.value % 10;
      if tier < 1 || tier >= |RankNames| then "Unknown"
      else if tier == 8 then "Immortal"
      else MedalLabel(tier, stars)
  }

  /** The medal names from Herald to Divine are all different. */
  lemma MedalNamesDistinct(t1: nat, t2: nat)
    requires 1 <= t1 < 8 && 1 <= t2 < 8
    requires RankNames[t1] == RankNames[t2]
    ensures t1 == t2
  {
  }

  /** Each code from Herald 0 to Divine 9 gets a label of its own. */
  lemma RankLabelsInjective(a: int, b: int)
    requires 10 <= a < 80 && 10 <= b < 80
    requires FormatRankTier(Some(a)) == FormatRankTier(Some(b))
    ensures a == b
  {
    var r := FormatRankTier(Some(a));
    assert DigitChar(a % 10) == r[|r| - 1] == DigitChar(b % 10);
    assert RankNames[a / 10] == r[..|r| - 2] == RankNames[b / 10];
    MedalNamesDistinct(a / 10, b / 10);
  }

  /**
   * The cases of the unit tests of `format_rank_tier`. For code 53 the test
   * expects "Ancient 3", but tier 5 is Legend (Ancient is tier 6), so the code
   * gives "Legend 3" (`LegendIsNotAncient`).
   */
  lemma RankTierExamples()
    ensures FormatRankTier(None) == "Unknown"
    ensures FormatRankTier(Some(0)) == "Unknown"
    ensures FormatRankTier(Some(10)) == "Herald 0"
    ensures FormatRankTier(Some(21)) == "Guardian 1"
    ensures FormatRankTier(Some(80)) == "Immortal"
    ensures FormatRankTier(Some(99)) == "Unknown"
  {
    assert MedalLabel(1, 0) == RankNames[1] + " " + "0";
    assert MedalLabel(2, 1) == RankNames[2] + " " + "1";
  }

  lemma LegendIsNotAncient()
    ensures FormatRankTier(Some(53)) == "Legend 3" != "Ancient 3"
    ensures FormatRankTier(Some(63)) == "Ancient 3"
  {
    assert MedalLabel(5, 3) == RankNames[5] + " " + "3";
    assert MedalLabel(6, 3) == RankNames[6] + " " + "3";
  }

  /** A number below 100 as two decimal digits, zero-padded. */
  function ZeroPad2(n: nat): (s: string)
    requires n < 100
    ensures |s| == 2 && AllDigits(s) && ParseNat(s) == n
  {
    var s := [DigitChar(n / 10), DigitChar(n % 10)];
    assert s[..1] == [DigitChar(n / 10)] && s[..1][..0] == [];
    assert ParseNat(s[..1]) == n / 10;
    s
  }

  /**
   * `format_duration`: `divmod(seconds, 60)` (flooring, so a negative duration
   * gives a negative minute count and seconds in 0..59), then `minutes:ss`.
   */
  function FormatDuration(seconds: int): (r: string)
    ensures |r| >= 4 && r[|r| - 3] == ':'
    ensures '0' <= r[|r| - 2] <= '5' && IsDigit(r[|r| - 1])
  {
    var minutes := seconds / 60;
    var secs := seconds % 60;
    IntToString(minutes) + ":" + ZeroPad2(secs)
  }

  /** Reads `minutes:ss` back into seconds. */
  function ParseDuration(r: string): Option<int> {
    if |r| >= 4 && r[|r| - 3] == ':' && AllDigits(r[|r| - 2..]) then
      Some(ParseInt(r[..|r| - 3]) * 60 + ParseNat(r[|r| - 2..]))
    else None
  }

  /** `format_duration` loses nothing: the seconds can be read back from its text. */
  lemma DurationRoundTrip(seconds: int)
    ensures ParseDuration(FormatDuration(seconds)) == Some(seconds)
  {
    var r := FormatDuration(seconds);
    var minutes := seconds / 60;
    assert r[..|r| - 3] == IntToString(minutes);
    assert r[|r| - 2..] == ZeroPad2(seconds % 60);
    IntRoundTrip(minutes);
    assert minutes * 60 + seconds % 60 == seconds;
  }

  /** So different durations are written differently. */
  lemma DurationsDistinct(s: int, t: int)
    requires FormatDuration(s) == FormatDuration(t)
    ensures s == t
  {
    DurationRoundTrip(s);
    DurationRoundTrip(t);
  }

  /** The cases pinned down by the unit tests of `format_duration`. */
  lemma DurationExamples()
    ensures FormatDuration(65) == "1:05"
    ensures FormatDuration(3600) == "60:00"
    ensures FormatDuration(0) == "0:00"
  {
  }
}
