/** The logic of the song-request form: which performers are selected, when the form may be
    submitted, and what it hands to the app on submission. */
module AddSongForm {
  import opened Karaoke
  import opened Text

  /** No performer is selected twice. */
  predicate NoDup(ids: seq<PlayerId>) {
    forall i, j :: 0 <= i < j < |ids| ==> ids[i] != ids[j]
  }

  /** `prev.filter((id) => id !== playerId)`: every occurrence of `p` removed, the rest in order. */
  function Without(ids: seq<PlayerId>, p: PlayerId): (r: seq<PlayerId>)
    ensures |r| <= |ids|
    ensures forall q :: q in r <==> q in ids && q != p
    ensures NoDup(ids) ==> NoDup(r)
  {
    if ids == [] then []
    else
      var n := |ids| - 1;
      var front := Without(ids[..n], p);
      assert forall q :: q in ids <==> q in ids[..n] || q == ids[n];
      assert NoDup(ids) ==> ids[n] !in ids[..n];
      front + (if ids[n] == p then [] else [ids[n]])
  }

  /** Removing an id that is not there changes nothing. */
  lemma {:induction false} WithoutAbsent(ids: seq<PlayerId>, p: PlayerId)
    requires p !in ids
    ensures Without(ids, p) == ids
  {
    if ids != [] {
      var n := |ids| - 1;
      WithoutAbsent(ids[..n], p);
      assert ids[..n] + [ids[n]] == ids;
    }
  }

  /** The filter keeps order: filtering a concatenation filters each part. */
  lemma {:induction false} WithoutSplits(a: seq<PlayerId>, b: seq<PlayerId>, p: PlayerId)
    ensures Without(a + b, p) == Without(a, p) + Without(b, p)
  {
    if b == [] {
      assert a + b == a;
    } else {
      var n := |b| - 1;
      assert (a + b)[..|a + b| - 1] == a + b[..n];
      assert (a + b)[|a + b| - 1] == b[n];
      WithoutSplits(a, b[..n], p);
    }
  }

  /** An id of a selection without duplicates occurs neither before nor after its position. */
  lemma NoDupAround(ids: seq<PlayerId>, i: nat)
    requires NoDup(ids) && i < |ids|
    ensures ids == ids[..i] + ([ids[i]] + ids[i + 1..])
    ensures ids[i] !in ids[..i] && ids[i] !in ids[i + 1..]
  {
    var front := ids[..i];
    var back := ids[i + 1..];
    forall j | 0 <= j < |front| ensures front[j] != ids[i] {
      assert front[j] == ids[j];
    }
    forall j | 0 <= j < |back| ensures back[j] != ids[i] {
      assert back[j] == ids[i + 1 + j];
    }
  }

  /** Removing `p` from `p` followed by ids without it leaves those ids. */
  lemma WithoutLeading(p: PlayerId, back: seq<PlayerId>)
    requires p !in back
    ensures Without([p] + back, p) == back
  {
    WithoutSplits([p], back, p);
    assert [p][..0] == [];
    WithoutAbsent(back, p);
  }

  /** In a selection without duplicates, deselecting removes the one occurrence and keeps the
      other ids where they were. */
  lemma RemoveInPlace(ids: seq<PlayerId>, i: nat)
    requires NoDup(ids) && i < |ids|
    ensures Without(ids, ids[i]) == ids[..i] + ids[i + 1..]
  {
    var p := ids[i];
    var front := ids[..i];
    var back := ids[i + 1..];
    NoDupAround(ids, i);
    WithoutSplits(front, [p] + back, p);
    WithoutLeading(p, back);
    WithoutAbsent(front, p);
  }

  /** `togglePlayer`: a selected id is deselected, any other id is selected at the end. */
  function TogglePlayer(ids: seq<PlayerId>, p: PlayerId): (r: seq<PlayerId>)
    ensures p in r <==> p !in ids
    ensures forall q :: q != p ==> (q in r <==> q in ids)
    ensures p !in ids ==> r == ids + [p]
    ensures NoDup(ids) && p in ids ==> exists i :: 0 <= i < |ids| && ids[i] == p && r == ids[..i] + ids[i + 1..]
    ensures NoDup(ids) ==> NoDup(r)
  {
    if p in ids then
      var i :| 0 <= i < |ids| && ids[i] == p;
      if NoDup(ids) then
        RemoveInPlace(ids, i);
        Without(ids, p)
      else Without(ids, p)
    else ids + [p]
  }

  /** Selecting an unselected performer and deselecting them again restores the selection. */
  lemma ToggleTwiceRestores(ids: seq<PlayerId>, p: PlayerId)
    requires p !in ids
    ensures TogglePlayer(TogglePlayer(ids, p), p) == ids
  {
    var added := ids + [p];
    assert added[..|ids|] == ids;
    WithoutAbsent(ids, p);
  }

  /** The initial selection `players[0]?.id ? [players[0].id] : []`: the first listed player,
      when there is one and their id is not empty. */
  function InitialPlayerIds(players: seq<Player>): (r: seq<PlayerId>)
    ensures |r| <= 1 && NoDup(r)
    ensures r != [] <==> |players| > 0 && players[0].id != ""
    ensures forall q :: q in r ==> q == players[0].id
  {
    if |players| > 0 && players[0].id != "" then [players[0].id] else []
  }

  /** `canSubmit`: some performer is selected, the query has at least two characters once
      trimmed, and no submission is in flight. */
  function CanSubmit(ids: seq<PlayerId>, query: string, busy: bool): (ok: bool)
    ensures ok <==> |ids| > 0 && !busy && TwoVisible(query)
  {
    TrimAtLeastTwo(query);
    |ids| > 0 && |Trim(query)| >= 2 && !busy
  }

  /** Whitespace typed around the query never decides whether the form can be submitted. */
  lemma CanSubmitIgnoresPadding(ids: seq<PlayerId>, a: string, query: string, b: string, busy: bool)
    requires forall j :: 0 <= j < |a| ==> IsSpace(a[j])
    requires forall j :: 0 <= j < |b| ==> IsSpace(b[j])
    ensures CanSubmit(ids, a + query + b, busy) == CanSubmit(ids, query, busy)
  {
    TrimIgnoresPadding(a, query, b);
  }

  /** The form's submit handler: nothing when `canSubmit` is false, otherwise the call
      `onAdd(playerIds, query.trim())`, given here as its two arguments. */
  function Submit(ids: seq<PlayerId>, query: string, busy: bool): (call: Option<(seq<PlayerId>, string)>)
    ensures call.Some? <==> CanSubmit(ids, query, busy)
    ensures call.Some? ==> call.value.0 == ids && |ids| > 0 && call.value.1 == Trim(query)
    ensures call.Some? ==> |call.value.1| >= 2 && |call.value.1| <= |query| && Contains(query, call.value.1)
    ensures call.Some? ==> !IsSpace(call.value.1[0]) && !IsSpace(call.value.1[|call.value.1| - 1])
  {
    if CanSubmit(ids, query, busy) then Some((ids, Trim(query))) else None
  }

  /** Submitting a query that is already trimmed passes it on unchanged. */
  lemma SubmitKeepsTrimmedQuery(ids: seq<PlayerId>, query: string, busy: bool)
    requires CanSubmit(ids, query, busy)
    requires !IsSpace(query[0]) && !IsSpace(query[|query| - 1])
    ensures Submit(ids, query, busy) == Some((ids, query))
  {
    TrimAtLeastTwo(query);
    assert TrimStart(query) == query;
    assert TrimEnd(query) == query;
  }
}
