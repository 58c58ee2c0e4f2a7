/** Scoring of one search result against the requested song: keyword hints in the title,
    a preferred channel, overlap with the query's words, and popularity. */
module Scoring {
  import opened Karaoke
  import opened Text

  const PreferredChannels: seq<string> := ["Sing King", "Karaoke Version", "Karafun", "Karaoke"]

  /** One `if (…) score += points` step of the keyword rules. */
  function Rule(hit: bool, points: int): int {
    if hit then points else 0
  }

  /** The keyword score of a title: the sum of the eight independent rules on its lower-cased
      form, between -32 (every penalty, no bonus) and 70 (every bonus, no penalty). */
  function KeywordScore(title: string): (score: int)
    ensures -32 <= score <= 70
  {
    var t := Lower(title);
    Rule(Contains(t, "karaoke"), 30) + Rule(Contains(t, "karaoke version"), 20)
    + Rule(Contains(t, "instrumental"), 8) + Rule(Contains(t, "lyrics"), 4)
    + Rule(Contains(t, "no vocals") || Contains(t, "no vocal"), 8)
    + Rule(Contains(t, "live"), -8) + Rule(Contains(t, "cover"), -4) + Rule(Contains(t, "reaction"), -20)
  }

  /** `keywordScore` as the source runs it: `score` starts at 0 and each matching rule adds to it. */
  method AccumulateKeywordScore(title: string) returns (score: int)
    ensures score == KeywordScore(title)
  {
    var t := Lower(title);
    score := 0;
    if Contains(t, "karaoke") { score := score + 30; }
    if Contains(t, "karaoke version") { score := score + 20; }
    if Contains(t, "instrumental") { score := score + 8; }
    if Contains(t, "lyrics") { score := score + 4; }
    if Contains(t, "no vocals") || Contains(t, "no vocal") { score := score + 8; }
    if Contains(t, "live") { score := score - 8; }
    if Contains(t, "cover") { score := score - 4; }
    if Contains(t, "reaction") { score := score - 20; }
  }

  /** A title containing "karaoke version" also contains "karaoke", so it earns both the +30 and
      the +20 of the first two rules; whatever the other rules add, its score is at least 50 - 32. */
  lemma KaraokeVersionEarnsBoth(title: string)
    requires Contains(Lower(title), "karaoke version")
    ensures Rule(Contains(Lower(title), "karaoke"), 30) + Rule(Contains(Lower(title), "karaoke version"), 20) == 50
    ensures 18 <= KeywordScore(title)
  {
    assert "karaoke" + " version" == "karaoke version";
    ContainsPrefixOf(Lower(title), "karaoke", " version");
  }

  /** "no vocals" contains "no vocal", so the fifth rule fires exactly on "no vocal". */
  lemma NoVocalRule(t: string)
    ensures Contains(t, "no vocals") || Contains(t, "no vocal") <==> Contains(t, "no vocal")
  {
    if Contains(t, "no vocals") {
      assert "no vocal" + "s" == "no vocals";
      ContainsPrefixOf(t, "no vocal", "s");
    }
  }

  /** The keyword score does not depend on letter case. */
  lemma KeywordScoreIgnoresCase(title: string)
    ensures KeywordScore(Lower(title)) == KeywordScore(title)
  {
    LowerIdempotent(title);
  }

  /** `PREFERRED_CHANNELS.find(x => norm(x) === c || c.includes(norm(x)))`. */
  function FindPreferred(c: string, names: seq<string>): (hit: Option<string>)
    ensures hit.Some? <==> exists i :: 0 <= i < |names| && Contains(c, Lower(names[i]))
    ensures hit.Some? ==> hit.value in names && Contains(c, Lower(hit.value))
  {
    if names == [] then None
    else if Lower(names[0]) == c || Contains(c, Lower(names[0])) then
      ContainsSelf(c);
      Some(names[0])
    else
      var hit := FindPreferred(c, names[1..]);
      assert forall i :: 1 <= i < |names| ==> names[i] == names[1..][i - 1];
      hit
  }

  /** `channelScore`: 12 for a channel whose lower-cased name contains a preferred name, else 0. */
  function ChannelScore(channelTitle: string): (r: int)
    ensures r == 0 || r == 12
    ensures r == 12 <==> exists i :: 0 <= i < |PreferredChannels| && Contains(Lower(channelTitle), Lower(PreferredChannels[i]))
  {
    if FindPreferred(Lower(channelTitle), PreferredChannels).Some? then 12 else 0
  }

  /** The distinct lower-cased whitespace-separated words of `s` that have at least three characters. */
  function Tokens(s: string): set<string> {
    set w | w in Words(Lower(s)) && |w| >= 3
  }

  lemma IntersectionNoLarger(a: set<string>, b: set<string>)
    ensures |a * b| <= |a|
  {
    assert a == (a * b) + (a - b);
    assert (a * b) !! (a - b);
  }

  /** `queryMatchScore`: four points per distinct query token that is also a title token, so a
      non-negative multiple of 4 and at most 4 per query token. */
  function QueryMatchScore(title: string, query: string): (r: int)
    ensures 0 <= r <= 4 * |Tokens(query)|
    ensures r % 4 == 0
  {
    IntersectionNoLarger(Tokens(query), Tokens(title));
    4 * |Tokens(query) * Tokens(title)|
  }

  /** A query without a word of three or more characters matches nothing. */
  lemma ShortQueryScoresZero(title: string, query: string)
    requires forall w :: w in Words(Lower(query)) ==> |w| < 3
    ensures QueryMatchScore(title, query) == 0
  {
    assert Tokens(query) == {};
  }

  /** The `for (const tok of qTokens) if (tTokens.has(tok)) overlap++` loop. */
  method CountOverlap(qTokens: set<string>, tTokens: set<string>) returns (overlap: nat)
    ensures overlap == |qTokens * tTokens|
  {
    overlap := 0;
    var rest := qTokens;
    while rest != {}
      invariant rest <= qTokens
      invariant overlap == |(qTokens - rest) * tTokens|
      decreases |rest|
    {
      var tok :| tok in rest;
      var done := (qTokens - rest) * tTokens;
      if tok in tTokens {
        assert (qTokens - (rest - {tok})) * tTokens == done + {tok};
        overlap := overlap + 1;
      } else {
        assert (qTokens - (rest - {tok})) * tTokens == done;
      }
      rest := rest - {tok};
    }
  }

  /** `queryMatchScore` as the source computes it: the overlap counted by the loop, times 4. */
  method QueryMatch(title: string, query: string) returns (score: int)
    ensures score == QueryMatchScore(title, query)
  {
    var overlap := CountOverlap(Tokens(query), Tokens(title));
    score := overlap * 4;
  }

  /** `viewScore`: nothing for a missing or non-positive count; otherwise the logarithmic curve
      `5 * log10(v + 1)`, which the model takes as the parameter `logScale`. */
  function ViewScore(views: int, logScale: int -> real): (r: real)
    ensures views <= 0 ==> r == 0.0
  {
    if views <= 0 then 0.0 else logScale(views)
  }

  /** `scoreVideo`: the sum of the four parts, a missing view count counting as 0. */
  function ScoreVideo(pick: YoutubePick, query: string, logScale: int -> real): (r: real)
    ensures pick.viewCount.GetOr(0) <= 0 ==>
              r == (KeywordScore(pick.title) + ChannelScore(pick.channelTitle) + QueryMatchScore(pick.title, query)) as real
  {
    var views := pick.viewCount.GetOr(0);
    (KeywordScore(pick.title) + ChannelScore(pick.channelTitle) + QueryMatchScore(pick.title, query)) as real
      + ViewScore(views, logScale)
  }

  /** Bounds on the whole score: the keyword, channel and query parts together lie between -32
      and 82 plus four per query token, and the view part is added on top. */
  lemma ScoreVideoBounds(pick: YoutubePick, query: string, logScale: int -> real)
    ensures var views := ViewScore(pick.viewCount.GetOr(0), logScale);
      -32.0 + views <= ScoreVideo(pick, query, logScale) <= (82 + 4 * |Tokens(query)|) as real + views
  {
  }

  /** A pick with no view count scores exactly as one whose count is 0. */
  lemma MissingViewsCountAsZero(pick: YoutubePick, query: string, logScale: int -> real)
    requires pick.viewCount.None?
    ensures ScoreVideo(pick, query, logScale) == ScoreVideo(pick.(viewCount := Some(0)), query, logScale)
  {
  }
}
