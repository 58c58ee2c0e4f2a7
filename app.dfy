/** The karaoke night's queue state and its handlers: stored entries are normalised on load,
    `pickNext` chooses the next song (a forced choice first, otherwise the rotation), and the
    handlers for "next up", "video ended", "remove" and "make next" update the five state fields.

    Each handler runs as one atomic step against the field values it started with. */
module App {
  import opened Karaoke
  import opened Picker
  import opened Youtube

  /** `normalizeEntry`: an entry stored before `playerIds` existed gets it from its legacy
      `playerId` (one performer, or none when that id is absent or empty); every other field,
      the legacy key included, is kept. */
  function NormalizeEntry(e: SongEntry): (r: SongEntry)
    ensures r.playerIds.Some?
    ensures e.playerIds.Some? ==> r == e
    ensures r.(playerIds := e.playerIds) == e
    ensures e.playerIds.None? ==> |r.playerIds.value| <= 1
    ensures e.playerIds.None? ==> (FirstPerformer(r).Some? <==> e.playerId.Owner? && e.playerId.id != "")
    ensures e.playerIds.None? && FirstPerformer(r).Some? ==> FirstPerformer(r).value == e.playerId.id
  {
    if e.playerIds.Some? then e
    else
      var legacy := if e.playerId.Owner? && e.playerId.id != "" then [e.playerId.id] else [];
      e.(playerIds := Some(legacy))
  }

  /** Normalising twice is normalising once. */
  lemma NormalizeIdempotent(e: SongEntry)
    ensures NormalizeEntry(NormalizeEntry(e)) == NormalizeEntry(e)
  {
  }

  /** `persisted.map((entry) => normalizeEntry(entry))`. */
  function NormalizeAll(es: seq<SongEntry>): (r: seq<SongEntry>)
    ensures |r| == |es|
    ensures forall i :: 0 <= i < |es| ==> r[i] == NormalizeEntry(es[i])
  {
    seq(|es|, i requires 0 <= i < |es| => NormalizeEntry(es[i]))
  }

  predicate Hit(e: SongEntry, id: string, queuedOnly: bool) {
    e.id == id && (!queuedOnly || e.status == Queued)
  }

  /** `es.find((e) => e.id === id)`, or with `&& e.status === "queued"` when `queuedOnly`:
      the position of the first such entry. */
  function FindById(es: seq<SongEntry>, id: string, queuedOnly: bool): (r: Option<nat>)
    ensures r.None? <==> forall i :: 0 <= i < |es| ==> !Hit(es[i], id, queuedOnly)
    ensures r.Some? ==> r.value < |es| && Hit(es[r.value], id, queuedOnly)
    ensures r.Some? ==> forall i :: 0 <= i < r.value ==> !Hit(es[i], id, queuedOnly)
  {
    if es == [] then None
    else if Hit(es[0], id, queuedOnly) then Some(0)
    else
      var rest := FindById(es[1..], id, queuedOnly);
      assert forall i :: 1 <= i < |es| ==> es[i] == es[1..][i - 1];
      match rest
      case None => None
      case Some(k) => Some(k + 1)
  }

  /** No two entries share an id. */
  predicate UniqueIds(es: seq<SongEntry>) {
    forall i, j :: 0 <= i < j < |es| ==> es[i].id != es[j].id
  }

  /** With unique ids, the entry found by an id is the one that carries it. */
  lemma FindUnique(es: seq<SongEntry>, k: nat)
    requires UniqueIds(es) && k < |es|
    ensures FindById(es, es[k].id, false) == Some(k)
  {
    var r := FindById(es, es[k].id, false);
    assert Hit(es[k], es[k].id, false);
  }

  /** The first step of `pickNext`: the entry now playing, if any, becomes played. Only the
      status changes, only for entries with that id, and never from played back to queued. */
  function MarkPlayed(es: seq<SongEntry>, nowPlayingId: Option<string>): (r: seq<SongEntry>)
    ensures |r| == |es|
    ensures forall i :: 0 <= i < |es| ==> r[i].(status := es[i].status) == es[i]
    ensures forall i :: 0 <= i < |es| ==>
              (r[i].status == Played <==> es[i].status == Played || nowPlayingId == Some(es[i].id))
  {
    seq(|es|, i requires 0 <= i < |es| =>
      if nowPlayingId == Some(es[i].id) then es[i].(status := Played) else es[i])
  }

  /** With no song playing nothing is marked. */
  lemma MarkPlayedNothing(es: seq<SongEntry>)
    ensures MarkPlayed(es, None) == es
  {
  }

  /** The object `pickNext` returns, plus whether it cleared a stale forced choice. */
  datatype Step = Step(
    updated: seq<SongEntry>,
    nextEntry: Option<SongEntry>,
    nextPlayerId: Option<PlayerId>,
    dropForced: bool)

  /** The queued entry a forced choice names in the marked list, if any: found exactly when the
      forced id is non-empty and a queued entry carries it, and then the first such entry. */
  function ForcedIndex(updated: seq<SongEntry>, forcedNextId: Option<string>): (r: Option<nat>)
    ensures r.Some? <==>
              Truthy(forcedNextId) &&
              exists i :: 0 <= i < |updated| && updated[i].id == forcedNextId.value && updated[i].status == Queued
    ensures r.Some? ==>
              r.value < |updated| && updated[r.value].id == forcedNextId.value && updated[r.value].status == Queued
    ensures r.Some? ==>
              forall i :: 0 <= i < r.value ==> !(updated[i].id == forcedNextId.value && updated[i].status == Queued)
  {
    if Truthy(forcedNextId) then
      var r := FindById(updated, forcedNextId.value, true);
      assert r.None? ==> forall i :: 0 <= i < |updated| ==> !Hit(updated[i], forcedNextId.value, true);
      r
    else None
  }

  /** The rotation half of `pickNext`: a performer from `pickNextPlayerId` (a missing or empty
      key counts as none), then that performer's earliest queued song; both are found or neither. */
  function Rotation(updated: seq<SongEntry>, lastSingerId: Option<PlayerId>, u: real)
    : (r: (Option<SongEntry>, Option<PlayerId>))
    requires 0.0 <= u < 1.0
    ensures r.0.Some? <==> r.1.Some?
    ensures r.1.Some? ==> r.1.value != "" && NextPlayerKey(updated, lastSingerId, u) == Some(Owner(r.1.value))
    ensures r.0.Some? ==> r.0.value in updated && Matches(r.0.value, r.1.value)
    ensures r.0.Some? ==> forall i :: 0 <= i < |updated| && Matches(updated[i], r.1.value) ==>
              r.0.value.createdAt <= updated[i].createdAt
    ensures r.0.Some? ==>
              exists i :: 0 <= i < |updated| && r.0.value == updated[i] &&
                forall j :: 0 <= j < i && Matches(updated[j], r.1.value) ==> updated[j].createdAt > updated[i].createdAt
    ensures r.0.None? ==> forall p :: p != "" && NextPlayerKey(updated, lastSingerId, u) == Some(Owner(p)) ==>
              forall i :: 0 <= i < |updated| ==> !Matches(updated[i], p)
  {
    match NextPlayerKey(updated, lastSingerId, u)
    case Some(Owner(p)) =>
      if p == "" then (None, None)
      else
        (match PickNextEntryForPlayer(updated, p)
         case Some(e) => (Some(e), Some(p))
         case None => (None, None))
    case _ => (None, None)
  }

  /** `pickNext` with the draw of the rotation given as `u`: mark the current song played, take
      the forced entry if it is still queued, else ask the rotation. */
  function PickNext(es: seq<SongEntry>, nowPlayingId: Option<string>, forcedNextId: Option<string>,
                    lastSingerId: Option<PlayerId>, u: real): Step
    requires 0.0 <= u < 1.0
  {
    var updated := MarkPlayed(es, nowPlayingId);
    var forced := ForcedIndex(updated, forcedNextId);
    var drop := Truthy(forcedNextId) && forced.None?;
    if forced.Some? then
      var f := updated[forced.value];
      Step(updated, Some(f), FirstPerformer(f), drop)
    else
      var (entry, player) := Rotation(updated, lastSingerId, u);
      Step(updated, entry, player, drop)
  }

  /** What `pickNext` returns: the marked list; a forced entry that is still queued, with its
      first performer; otherwise the rotation's choice; a stale forced id is dropped. The chosen
      entry is always queued and never the song that just played. */
  lemma PickNextMeaning(es: seq<SongEntry>, nowPlayingId: Option<string>, forcedNextId: Option<string>,
                        lastSingerId: Option<PlayerId>, u: real)
    requires 0.0 <= u < 1.0
    ensures var s := PickNext(es, nowPlayingId, forcedNextId, lastSingerId, u);
      && s.updated == MarkPlayed(es, nowPlayingId)
      && (s.dropForced <==> Truthy(forcedNextId) && ForcedIndex(s.updated, forcedNextId).None?)
      && (s.nextEntry.Some? ==>
            s.nextEntry.value in s.updated && s.nextEntry.value.status == Queued
            && nowPlayingId != Some(s.nextEntry.value.id))
      && (ForcedIndex(s.updated, forcedNextId).Some? ==>
            var f := s.updated[ForcedIndex(s.updated, forcedNextId).value];
            s.nextEntry == Some(f) && s.nextEntry.value.id == forcedNextId.value
            && s.nextPlayerId == FirstPerformer(f))
      && (ForcedIndex(s.updated, forcedNextId).None? ==>
            (s.nextEntry, s.nextPlayerId) == Rotation(s.updated, lastSingerId, u))
  {
  }

  /** Without a forced choice, the last singer does not sing again while anyone else has a
      song waiting. */
  lemma RotationAvoidsLastSinger(es: seq<SongEntry>, nowPlayingId: Option<string>,
                                 forcedNextId: Option<string>, lastSingerId: Option<PlayerId>, u: real)
    requires 0.0 <= u < 1.0
    requires ForcedIndex(MarkPlayed(es, nowPlayingId), forcedNextId).None?
    requires var updated := MarkPlayed(es, nowPlayingId);
      exists i :: 0 <= i < |updated| && updated[i].status == Queued && !IsLast(updated[i].playerId, lastSingerId)
    ensures var s := PickNext(es, nowPlayingId, forcedNextId, lastSingerId, u);
      s.nextPlayerId.Some? ==> s.nextPlayerId != lastSingerId
  {
    var updated := MarkPlayed(es, nowPlayingId);
    PickNextMeaning(es, nowPlayingId, forcedNextId, lastSingerId, u);
    NextPlayerAvoidsLast(updated, lastSingerId, u);
  }

  /** The rotation reads only the legacy `playerId` key. Entries created by `addSong` do not
      carry it, so while every entry lacks it, no song is chosen unless it is forced. */
  lemma RotationNeedsLegacyKeys(es: seq<SongEntry>, nowPlayingId: Option<string>,
                                forcedNextId: Option<string>, lastSingerId: Option<PlayerId>, u: real)
    requires 0.0 <= u < 1.0
    requires forall i :: 0 <= i < |es| ==> es[i].playerId == Missing
    requires ForcedIndex(MarkPlayed(es, nowPlayingId), forcedNextId).None?
    ensures PickNext(es, nowPlayingId, forcedNextId, lastSingerId, u).nextEntry.None?
  {
    var updated := MarkPlayed(es, nowPlayingId);
    PickNextMeaning(es, nowPlayingId, forcedNextId, lastSingerId, u);
    assert forall i :: 0 <= i < |updated| ==> updated[i].playerId == es[i].playerId;
    assert forall k :: SomeQueued(updated, k) ==> k == Missing;
  }

  /** The five state fields of the app. */
  datatype AppState = AppState(
    entries: seq<SongEntry>,
    nowPlayingId: Option<string>,
    lastSingerId: Option<PlayerId>,
    awaitingNextStart: bool,
    forcedNextId: Option<string>)

  /** Every entry lists its performers, and a song awaiting its start is a song now playing. */
  predicate ValidState(s: AppState) {
    (forall i :: 0 <= i < |s.entries| ==> s.entries[i].playerIds.Some?)
    && (s.awaitingNextStart ==> s.nowPlayingId.Some?)
  }

  /** The state on load: the stored entries normalised, the stored ids, nothing awaiting or forced. */
  function InitialState(persisted: seq<SongEntry>, nowPlayingId: Option<string>,
                        lastSingerId: Option<PlayerId>): (s: AppState)
    ensures ValidState(s)
    ensures s.entries == NormalizeAll(persisted)
    ensures forall i :: 0 <= i < |persisted| && persisted[i].playerIds.Some? ==> s.entries[i] == persisted[i]
    ensures s.nowPlayingId == nowPlayingId && s.lastSingerId == lastSingerId
    ensures !s.awaitingNextStart && s.forcedNextId.None?
  {
    AppState(NormalizeAll(persisted), nowPlayingId, lastSingerId, false, None)
  }

  /** The entry `addSong` appends. */
  function NewEntry(playerIds: seq<PlayerId>, query: string, pick: YoutubePick, id: string, now: int): SongEntry {
    SongEntry(id, Some(playerIds), Missing, query, now, Some(pick), Queued)
  }

  /** `addSong`, with the outcome of the search, the id generator and the clock given: a found
      pick appends a queued entry carrying it; a failed search changes nothing. */
  function AddSongState(s: AppState, playerIds: seq<PlayerId>, query: string,
                        found: Result<YoutubePick, SearchError>, id: string, now: int): (t: AppState)
    ensures ValidState(s) ==> ValidState(t)
    ensures t.(entries := s.entries) == s
    ensures found.Failure? ==> t == s
    ensures found.Success? ==>
              |t.entries| == |s.entries| + 1 && t.entries[..|s.entries|] == s.entries
              && t.entries[|s.entries|].status == Queued && t.entries[|s.entries|].playerIds == Some(playerIds)
              && t.entries[|s.entries|].playerId == Missing
    ensures found.Success? ==>
              var e := t.entries[|s.entries|];
              e.youtube == Some(found.value) && e.query == query && e.id == id && e.createdAt == now
  {
    match found
    case Success(pick) => s.(entries := s.entries + [NewEntry(playerIds, query, pick, id, now)])
    case Failure(_) => s
  }

  /** `clearAll`: an empty queue with nothing playing, awaiting or forced. */
  function ClearAllState(): (t: AppState)
    ensures ValidState(t) && t.entries == []
    ensures t.nowPlayingId.None? && !t.awaitingNextStart && t.forcedNextId.None? && t.lastSingerId.None?
  {
    AppState([], None, None, false, None)
  }

  /** `nextUp`. While a song awaits its start, it confirms it: the song's first performer
      becomes the last singer. Otherwise the current song is marked played and the next one
      starts when both a song and its performer are found. */
  function NextUpState(s: AppState, u: real): (t: AppState)
    requires 0.0 <= u < 1.0
    ensures !t.awaitingNextStart
    ensures s.awaitingNextStart && Truthy(s.nowPlayingId) ==>
              t.entries == s.entries && t.nowPlayingId == s.nowPlayingId && t.forcedNextId == s.forcedNextId
              && t.lastSingerId == (match FindById(s.entries, s.nowPlayingId.value, false)
                                    case Some(k) => FirstPerformer(s.entries[k])
                                    case None => None)
    ensures !(s.awaitingNextStart && Truthy(s.nowPlayingId)) ==>
              var step := PickNext(s.entries, s.nowPlayingId, s.forcedNextId, s.lastSingerId, u);
              t.entries == step.updated &&
              if step.nextEntry.Some? && Truthy(step.nextPlayerId) then
                t.nowPlayingId == Some(step.nextEntry.value.id) && t.lastSingerId == step.nextPlayerId
                && t.forcedNextId.None?
              else
                t.nowPlayingId.None? && t.lastSingerId == s.lastSingerId
                && t.forcedNextId == (if step.dropForced then None else s.forcedNextId)
  {
    if s.awaitingNextStart && Truthy(s.nowPlayingId) then
      var pending := FindById(s.entries, s.nowPlayingId.value, false);
      s.(lastSingerId := if pending.Some? then FirstPerformer(s.entries[pending.value]) else None,
         awaitingNextStart := false)
    else
      var step := PickNext(s.entries, s.nowPlayingId, s.forcedNextId, s.lastSingerId, u);
      if step.nextEntry.None? || !Truthy(step.nextPlayerId) then
        AppState(step.updated, None, s.lastSingerId, false, if step.dropForced then None else s.forcedNextId)
      else
        AppState(step.updated, Some(step.nextEntry.value.id), step.nextPlayerId, false, None)
  }

  /** Marking songs played keeps every entry's performer list. */
  lemma MarkPlayedKeepsValid(s: AppState)
    requires ValidState(s)
    ensures forall i :: 0 <= i < |MarkPlayed(s.entries, s.nowPlayingId)| ==>
              MarkPlayed(s.entries, s.nowPlayingId)[i].playerIds.Some?
  {
    var m := MarkPlayed(s.entries, s.nowPlayingId);
    assert forall i :: 0 <= i < |m| ==> m[i].playerIds == s.entries[i].playerIds;
  }

  /** "Next up" keeps every entry's performer list and leaves nothing awaiting. */
  lemma NextUpKeepsValid(s: AppState, u: real)
    requires 0.0 <= u < 1.0
    requires ValidState(s)
    ensures ValidState(NextUpState(s, u))
  {
    PickNextMeaning(s.entries, s.nowPlayingId, s.forcedNextId, s.lastSingerId, u);
    MarkPlayedKeepsValid(s);
  }

  /** A skip marks the current song played; the song it starts is a queued one, started together
      with a non-empty last singer, and it clears the forced choice; when nothing starts, the
      last singer stays. */
  lemma NextUpPlaysQueued(s: AppState, u: real)
    requires 0.0 <= u < 1.0
    requires !(s.awaitingNextStart && Truthy(s.nowPlayingId))
    ensures var t := NextUpState(s, u);
      t.entries == MarkPlayed(s.entries, s.nowPlayingId)
      && (t.nowPlayingId.None? ==> t.lastSingerId == s.lastSingerId)
      && (t.nowPlayingId.Some? ==>
            Truthy(t.lastSingerId) && t.forcedNextId.None?
            && exists i :: 0 <= i < |t.entries| && t.entries[i].id == t.nowPlayingId.value
                           && t.entries[i].status == Queued)
  {
    var step := PickNext(s.entries, s.nowPlayingId, s.forcedNextId, s.lastSingerId, u);
    PickNextMeaning(s.entries, s.nowPlayingId, s.forcedNextId, s.lastSingerId, u);
    if step.nextEntry.Some? {
      var e := step.nextEntry.value;
      var k :| 0 <= k < |step.updated| && step.updated[k] == e;
    }
  }

  /** `handleVideoEnd`: the current song is marked played and the next one, if any, is set to
      await its start; the last singer is left for `nextUp` to record. */
  function VideoEndState(s: AppState, u: real): (t: AppState)
    requires 0.0 <= u < 1.0
    ensures t.lastSingerId == s.lastSingerId
    ensures var step := PickNext(s.entries, s.nowPlayingId, s.forcedNextId, s.lastSingerId, u);
              t.entries == step.updated
              && t.nowPlayingId == (if step.nextEntry.Some? then Some(step.nextEntry.value.id) else None)
              && t.awaitingNextStart == step.nextEntry.Some?
              && t.forcedNextId == (if step.nextEntry.Some? || step.dropForced then None else s.forcedNextId)
  {
    var step := PickNext(s.entries, s.nowPlayingId, s.forcedNextId, s.lastSingerId, u);
    if step.nextEntry.None? then
      AppState(step.updated, None, s.lastSingerId, false, if step.dropForced then None else s.forcedNextId)
    else
      AppState(step.updated, Some(step.nextEntry.value.id), s.lastSingerId, true, None)
  }

  /** A video end keeps every entry's performer list, and a song awaits its start only when it
      is now playing. */
  lemma VideoEndKeepsValid(s: AppState, u: real)
    requires 0.0 <= u < 1.0
    requires ValidState(s)
    ensures ValidState(VideoEndState(s, u))
  {
    PickNextMeaning(s.entries, s.nowPlayingId, s.forcedNextId, s.lastSingerId, u);
    MarkPlayedKeepsValid(s);
  }

  /** A video end marks the current song played, and the song set to await its start is a
      queued one. */
  lemma VideoEndPlaysQueued(s: AppState, u: real)
    requires 0.0 <= u < 1.0
    ensures var t := VideoEndState(s, u);
      t.entries == MarkPlayed(s.entries, s.nowPlayingId)
      && (t.awaitingNextStart <==> t.nowPlayingId.Some?)
      && (t.nowPlayingId.Some? ==>
            t.forcedNextId.None?
            && exists i :: 0 <= i < |t.entries| && t.entries[i].id == t.nowPlayingId.value
                           && t.entries[i].status == Queued)
  {
    var step := PickNext(s.entries, s.nowPlayingId, s.forcedNextId, s.lastSingerId, u);
    PickNextMeaning(s.entries, s.nowPlayingId, s.forcedNextId, s.lastSingerId, u);
    if step.nextEntry.Some? {
      var e := step.nextEntry.value;
      var k :| 0 <= k < |step.updated| && step.updated[k] == e;
    }
  }

  /** `prev.filter((entry) => entry.id !== entryId)`. */
  function RemoveId(es: seq<SongEntry>, id: string): (r: seq<SongEntry>)
    ensures |r| <= |es|
    ensures forall e :: e in r <==> e in es && e.id != id
  {
    if es == [] then []
    else
      var n := |es| - 1;
      assert forall e :: e in es <==> e in es[..n] || e == es[n];
      RemoveId(es[..n], id) + (if es[n].id == id then [] else [es[n]])
  }

  /** The filter keeps order: removing from a concatenation removes from each part. */
  lemma {:induction false} RemoveIdSplits(a: seq<SongEntry>, b: seq<SongEntry>, id: string)
    ensures RemoveId(a + b, id) == RemoveId(a, id) + RemoveId(b, id)
  {
    if b == [] {
      assert a + b == a;
    } else {
      var n := |b| - 1;
      assert (a + b)[..|a + b| - 1] == a + b[..n];
      assert (a + b)[|a + b| - 1] == b[n];
      RemoveIdSplits(a, b[..n], id);
    }
  }

  /** Removing an id no entry carries changes nothing. */
  lemma {:induction false} RemoveIdAbsent(es: seq<SongEntry>, id: string)
    requires forall i :: 0 <= i < |es| ==> es[i].id != id
    ensures RemoveId(es, id) == es
  {
    if es != [] {
      var n := |es| - 1;
      assert es == es[..n] + [es[n]];
      RemoveIdAbsent(es[..n], id);
    }
  }

  /** `removeEntry`: the entries with that id go; now-playing (with its pending start) and the
      forced choice are cleared only when they name it. */
  function RemoveEntryState(s: AppState, id: string): (t: AppState)
    ensures ValidState(s) ==> ValidState(t)
    ensures t.entries == RemoveId(s.entries, id) && t.lastSingerId == s.lastSingerId
    ensures s.nowPlayingId == Some(id) ==> t.nowPlayingId.None? && !t.awaitingNextStart
    ensures s.nowPlayingId != Some(id) ==> t.nowPlayingId == s.nowPlayingId && t.awaitingNextStart == s.awaitingNextStart
    ensures t.forcedNextId == if s.forcedNextId == Some(id) then None else s.forcedNextId
  {
    var es := RemoveId(s.entries, id);
    assert forall i :: 0 <= i < |es| ==> es[i] in s.entries;
    var t := s.(entries := es);
    var t := if s.nowPlayingId == Some(id) then t.(nowPlayingId := None, awaitingNextStart := false) else t;
    if s.forcedNextId == Some(id) then t.(forcedNextId := None) else t
  }

  /** `makeNext`: the entry is forced next; while a song awaits its start, it is replaced. */
  function MakeNextState(s: AppState, id: string): (t: AppState)
    ensures ValidState(s) ==> ValidState(t)
    ensures t.forcedNextId == Some(id)
    ensures t.nowPlayingId == if s.awaitingNextStart then Some(id) else s.nowPlayingId
    ensures t.(forcedNextId := s.forcedNextId, nowPlayingId := s.nowPlayingId) == s
  {
    var t := s.(forcedNextId := Some(id));
    if s.awaitingNextStart then t.(nowPlayingId := Some(id)) else t
  }

  /** "Next up" on a song awaiting its start, named by a unique id, records that song's first
      performer and changes nothing else. */
  lemma NextUpConfirms(t: AppState, v: real, k: nat)
    requires 0.0 <= v < 1.0
    requires UniqueIds(t.entries) && k < |t.entries|
    requires t.awaitingNextStart && t.nowPlayingId == Some(t.entries[k].id) && t.entries[k].id != ""
    ensures NextUpState(t, v) == t.(lastSingerId := FirstPerformer(t.entries[k]), awaitingNextStart := false)
  {
    FindUnique(t.entries, k);
  }

  /** The two-phase start of a song: when a video ends and the next song is set to await its
      start, the "next up" that confirms it records that song's first performer as the last
      singer and changes nothing else. */
  lemma VideoEndThenNextUpConfirms(s: AppState, u: real, v: real)
    requires 0.0 <= u < 1.0 && 0.0 <= v < 1.0
    requires UniqueIds(s.entries)
    requires VideoEndState(s, u).awaitingNextStart
    ensures var e := PickNext(s.entries, s.nowPlayingId, s.forcedNextId, s.lastSingerId, u).nextEntry.value;
      var t := VideoEndState(s, u);
      e.id != "" ==> NextUpState(t, v) == t.(lastSingerId := FirstPerformer(e), awaitingNextStart := false)
  {
    var step := PickNext(s.entries, s.nowPlayingId, s.forcedNextId, s.lastSingerId, u);
    PickNextMeaning(s.entries, s.nowPlayingId, s.forcedNextId, s.lastSingerId, u);
    var e := step.nextEntry.value;
    var k :| 0 <= k < |step.updated| && step.updated[k] == e;
    assert UniqueIds(step.updated);
    if e.id != "" {
      NextUpConfirms(VideoEndState(s, u), v, k);
    }
  }

  /** The app's state object, updated in place by its handlers. */
  class Session {
    var entries: seq<SongEntry>
    var nowPlayingId: Option<string>
    var lastSingerId: Option<PlayerId>
    var awaitingNextStart: bool
    var forcedNextId: Option<string>

    function State(): AppState
      reads this
    {
      AppState(entries, nowPlayingId, lastSingerId, awaitingNextStart, forcedNextId)
    }

    predicate Valid()
      reads this
    {
      ValidState(State())
    }

    /** The state initialisers: stored entries normalised, stored ids restored. */
    constructor (persisted: seq<SongEntry>, storedNowPlayingId: Option<string>, storedLastSingerId: Option<PlayerId>)
      ensures State() == InitialState(persisted, storedNowPlayingId, storedLastSingerId)
      ensures Valid()
    {
      var es := [];
      for i := 0 to |persisted|
        invariant es == NormalizeAll(persisted[..i])
      {
        es := es + [NormalizeEntry(persisted[i])];
      }
      assert persisted[..|persisted|] == persisted;
      entries := es;
      nowPlayingId := storedNowPlayingId;
      lastSingerId := storedLastSingerId;
      awaitingNextStart := false;
      forcedNextId := None;
    }

    method AddSong(playerIds: seq<PlayerId>, query: string,
                   search: string -> seq<RawItem>, lookup: seq<string> -> seq<RawStat>,
                   logScale: int -> real, id: string, now: int)
      requires Valid()
      modifies this
      ensures Valid()
      ensures State() == AddSongState(old(State()), playerIds, query,
                                      SearchKaraokeVideo(query, search, lookup, logScale), id, now)
    {
      var found := SearchKaraokeVideo(query, search, lookup, logScale);
      if found.Success? {
        entries := entries + [NewEntry(playerIds, query, found.value, id, now)];
      }
      assert State() == AddSongState(old(State()), playerIds, query, found, id, now);
    }

    method ClearAll()
      requires Valid()
      modifies this
      ensures Valid()
      ensures State() == ClearAllState()
    {
      entries := [];
      nowPlayingId := None;
      lastSingerId := None;
      awaitingNextStart := false;
      forcedNextId := None;
    }

    method NextUp(u: real)
      requires 0.0 <= u < 1.0
      requires Valid()
      modifies this
      ensures Valid()
      ensures State() == NextUpState(old(State()), u)
    {
      NextUpKeepsValid(State(), u);
      if awaitingNextStart && Truthy(nowPlayingId) {
        var pending := FindById(entries, nowPlayingId.value, false);
        lastSingerId := if pending.Some? then FirstPerformer(entries[pending.value]) else None;
        awaitingNextStart := false;
        assert State() == NextUpState(old(State()), u);
      } else {
        var step := PickNext(entries, nowPlayingId, forcedNextId, lastSingerId, u);
        entries := step.updated;
        if step.nextEntry.None? || !Truthy(step.nextPlayerId) {
          nowPlayingId := None;
          if step.dropForced {
            forcedNextId := None;
          }
        } else {
          lastSingerId := step.nextPlayerId;
          nowPlayingId := Some(step.nextEntry.value.id);
          forcedNextId := None;
        }
        awaitingNextStart := false;
        assert State() == NextUpState(old(State()), u);
      }
    }

    method HandleVideoEnd(u: real)
      requires 0.0 <= u < 1.0
      requires Valid()
      modifies this
      ensures Valid()
      ensures State() == VideoEndState(old(State()), u)
    {
      VideoEndKeepsValid(State(), u);
      var step := PickNext(entries, nowPlayingId, forcedNextId, lastSingerId, u);
      if step.dropForced {
        forcedNextId := None;
      }
      if step.nextEntry.None? {
        nowPlayingId := None;
        awaitingNextStart := false;
      } else {
        nowPlayingId := Some(step.nextEntry.value.id);
        awaitingNextStart := true;
        forcedNextId := None;
      }
      entries := step.updated;
    }

    method RemoveEntry(id: string)
      requires Valid()
      modifies this
      ensures Valid()
      ensures State() == RemoveEntryState(old(State()), id)
    {
      entries := RemoveId(entries, id);
      if nowPlayingId == Some(id) {
        nowPlayingId := None;
        awaitingNextStart := false;
      }
      if forcedNextId == Some(id) {
        forcedNextId := None;
      }
    }

    method MakeNext(id: string)
      requires Valid()
      modifies this
      ensures Valid()
      ensures State() == MakeNextState(old(State()), id)
    {
      forcedNextId := Some(id);
      if awaitingNextStart {
        nowPlayingId := Some(id);
      }
    }
  }
}
