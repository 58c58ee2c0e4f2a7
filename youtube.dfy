/** Choosing the karaoke track for a request from the search results: what happens to the
    results once they have been fetched. The two HTTP requests are injected as functions. */
module Youtube {
  import opened Karaoke
  import opened Scoring

  /** One item of the search response: `id.videoId`, `snippet.title`, `snippet.channelTitle`. */
  datatype RawItem = RawItem(videoId: Option<string>, title: Option<string>, channelTitle: Option<string>)

  /** One item of the videos response: `id` and `statistics.viewCount`. */
  datatype RawStat = RawStat(id: Option<string>, viewCount: Option<int>)

  /** "No YouTube results found." */
  datatype SearchError = NoResults

  /** The `q` parameter of the search request. */
  function SearchQuery(query: string): (q: string)
    ensures |q| == |query| + 16 && q[..|query|] == query && q[|query|..] == " karaoke version"
  {
    query + " karaoke version"
  }

  predicate Complete(it: RawItem) {
    Truthy(it.videoId) && Truthy(it.title) && Truthy(it.channelTitle)
  }

  function ToPick(it: RawItem): YoutubePick
    requires Complete(it)
  {
    YoutubePick(it.videoId.value, it.title.value, it.channelTitle.value, None, None)
  }

  /** The candidate pipeline: map each item to its three fields and keep those with all three. */
  function Candidates(items: seq<RawItem>): (cs: seq<YoutubePick>)
    ensures |cs| <= |items|
    ensures forall c :: c in cs <==> exists i :: 0 <= i < |items| && Complete(items[i]) && c == ToPick(items[i])
    ensures forall c :: c in cs ==> c.videoId != "" && c.title != "" && c.channelTitle != ""
  {
    if items == [] then []
    else
      var rest := Candidates(items[1..]);
      assert forall i :: 1 <= i < |items| ==> items[i] == items[1..][i - 1];
      (if Complete(items[0]) then [ToPick(items[0])] else []) + rest
  }

  /** The filter keeps the original order: candidates of a concatenation are the concatenated candidates. */
  lemma {:induction false} CandidatesKeepOrder(a: seq<RawItem>, b: seq<RawItem>)
    ensures Candidates(a + b) == Candidates(a) + Candidates(b)
  {
    if a != [] {
      assert (a + b)[0] == a[0];
      assert (a + b)[1..] == a[1..] + b;
      CandidatesKeepOrder(a[1..], b);
    } else {
      assert a + b == b;
    }
  }

  /** The view-count index, filled by the source's loop: items without an id are skipped and a
      later item with the same id overwrites an earlier one. */
  function ViewById(stats: seq<RawStat>): map<string, int> {
    if stats == [] then map[]
    else
      var n := |stats| - 1;
      var m := ViewById(stats[..n]);
      if Truthy(stats[n].id) then m[stats[n].id.value := stats[n].viewCount.GetOr(0)] else m
  }

  /** The index holds exactly the non-empty ids some item carries. */
  lemma {:induction false} ViewByIdKeys(stats: seq<RawStat>)
    ensures forall id :: id in ViewById(stats) <==> id != "" && exists i :: 0 <= i < |stats| && stats[i].id == Some(id)
  {
    if stats != [] {
      var n := |stats| - 1;
      ViewByIdKeys(stats[..n]);
      assert forall i :: 0 <= i < n ==> stats[..n][i] == stats[i];
    }
  }

  /** The count recorded for an id is that of its last item, a missing count read as 0. */
  lemma {:induction false} LastStatWins(stats: seq<RawStat>, i: nat)
    requires i < |stats| && Truthy(stats[i].id)
    requires forall j :: i < j < |stats| ==> stats[j].id != stats[i].id
    ensures stats[i].id.value in ViewById(stats)
    ensures ViewById(stats)[stats[i].id.value] == stats[i].viewCount.GetOr(0)
  {
    var n := |stats| - 1;
    if i < n {
      var prefix := stats[..n];
      assert prefix[i] == stats[i];
      assert forall j :: i < j < |prefix| ==> prefix[j] == stats[j];
      LastStatWins(prefix, i);
      assert stats[n].id != stats[i].id;
    }
  }

  /** `for (const it of videosJson.items) { … if (id) viewById.set(id, view) }`. */
  method BuildViewIndex(stats: seq<RawStat>) returns (m: map<string, int>)
    ensures m == ViewById(stats)
  {
    m := map[];
    for i := 0 to |stats|
      invariant m == ViewById(stats[..i])
    {
      assert stats[..i + 1][..i] == stats[..i];
      if Truthy(stats[i].id) {
        m := m[stats[i].id.value := stats[i].viewCount.GetOr(0)];
      }
    }
    assert stats[..|stats|] == stats;
  }

  /** `viewById.get(c.videoId) ?? 0`. */
  function ViewFor(views: map<string, int>, id: string): int {
    if id in views then views[id] else 0
  }

  /** An id no stat item carries reads as zero views. */
  lemma ViewForMissingIsZero(stats: seq<RawStat>, id: string)
    requires forall i :: 0 <= i < |stats| ==> stats[i].id != Some(id)
    ensures ViewFor(ViewById(stats), id) == 0
  {
    ViewByIdKeys(stats);
  }

  /** The score of a candidate once its view count is joined in. */
  function Score(c: YoutubePick, views: map<string, int>, query: string, logScale: int -> real): real {
    ScoreVideo(c.(viewCount := Some(ViewFor(views, c.videoId))), query, logScale)
  }

  /** The score of every candidate, in candidate order. */
  function Scores(cs: seq<YoutubePick>, views: map<string, int>, query: string, logScale: int -> real): (s: seq<real>)
    ensures |s| == |cs|
    ensures forall i :: 0 <= i < |cs| ==> s[i] == Score(cs[i], views, query, logScale)
  {
    seq(|cs|, i requires 0 <= i < |cs| => Score(cs[i], views, query, logScale))
  }

  /** The score reads the title, the channel and the view count only. */
  lemma ScoreReadsThreeFields(p: YoutubePick, q: YoutubePick, query: string, logScale: int -> real)
    requires p.title == q.title && p.channelTitle == q.channelTitle && p.viewCount == q.viewCount
    ensures ScoreVideo(p, query, logScale) == ScoreVideo(q, query, logScale)
  {
  }

  /** `{ ...c, viewCount, score }`. */
  function Rate(c: YoutubePick, views: map<string, int>, query: string, logScale: int -> real): (r: YoutubePick)
    ensures r.videoId == c.videoId && r.title == c.title && r.channelTitle == c.channelTitle
    ensures r.viewCount == Some(ViewFor(views, c.videoId))
    ensures r.score == Some(ScoreVideo(r, query, logScale))
  {
    var rated := c.(viewCount := Some(ViewFor(views, c.videoId)));
    ScoreReadsThreeFields(rated, rated.(score := Some(Score(c, views, query, logScale))), query, logScale);
    rated.(score := Some(Score(c, views, query, logScale)))
  }

  /** `i` holds the largest value of `s`, and no earlier position holds it. */
  predicate IsFirstMax(s: seq<real>, i: nat) {
    i < |s|
    && (forall j :: 0 <= j < |s| ==> s[j] <= s[i])
    && (forall j :: 0 <= j < i ==> s[j] < s[i])
  }

  /** The head of a stable sort by descending score: the first position holding the maximum. */
  function BestIndex(s: seq<real>): (i: nat)
    requires |s| > 0
    ensures IsFirstMax(s, i)
  {
    if |s| == 1 then 0
    else
      var n := |s| - 1;
      var b := BestIndex(s[..n]);
      assert forall j :: 0 <= j < n ==> s[..n][j] == s[j];
      if s[n] > s[b] then n else b
  }

  /** The tail of `searchKaraokeVideo` after the two requests: the candidates, their joined view
      counts and scores, and the best one; no candidate at all is an error. */
  function SelectPick(query: string, items: seq<RawItem>, stats: seq<RawStat>, logScale: int -> real)
    : (r: Result<YoutubePick, SearchError>)
    ensures r.Failure? <==> Candidates(items) == []
    ensures r.Success? ==>
      var cs := Candidates(items);
      var views := ViewById(stats);
      exists i :: 0 <= i < |cs| && r.value == Rate(cs[i], views, query, logScale)
        && IsFirstMax(Scores(cs, views, query, logScale), i)
  {
    var cs := Candidates(items);
    if |cs| == 0 then Failure(NoResults)
    else
      var views := ViewById(stats);
      var best := BestIndex(Scores(cs, views, query, logScale));
      Success(Rate(cs[best], views, query, logScale))
  }

  /** The ids sent to the videos request. */
  function Ids(cs: seq<YoutubePick>): seq<string> {
    seq(|cs|, i requires 0 <= i < |cs| => cs[i].videoId)
  }

  /** `searchKaraokeVideo` with the search and the view-count lookup given as functions: the
      search is issued for the query with " karaoke version" appended, while the candidates are
      scored against the query as the user typed it. */
  function SearchKaraokeVideo(query: string, search: string -> seq<RawItem>,
                              lookup: seq<string> -> seq<RawStat>, logScale: int -> real)
    : (r: Result<YoutubePick, SearchError>)
    ensures r.Failure? <==> Candidates(search(query + " karaoke version")) == []
    ensures r.Success? ==>
      exists c :: c in Candidates(search(query + " karaoke version")) &&
                  r.value == c.(viewCount := r.value.viewCount, score := r.value.score)
    ensures r.Success? ==> r.value.score == Some(ScoreVideo(r.value, query, logScale))
    ensures var items := search(SearchQuery(query));
      Candidates(items) != [] ==> r == SelectPick(query, items, lookup(Ids(Candidates(items))), logScale)
  {
    var items := search(SearchQuery(query));
    var cs := Candidates(items);
    if |cs| == 0 then Failure(NoResults)
    else SelectPick(query, items, lookup(Ids(cs)), logScale)
  }
}
