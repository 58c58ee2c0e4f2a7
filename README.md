# Karaoke night: a verified model of the queue, the turn rotation and the track picker

The karaoke-night web app keeps a queue of song requests. Each request names its performers
and the YouTube track found for it. The app decides whose turn it is and which of their songs
plays next. This project models the logic behind those decisions and proves what it
guarantees:

- **Turn rotation** (`picker.dfy`, module `Picker`).
  - It counts the queued songs per performer key.
  - It leaves out the last singer when someone else is waiting.
  - It draws a performer with weight `1 + remaining songs`.
  - It then takes that performer's earliest queued song.
- **Track scoring and choice** (`scoring.dfy`, `youtube.dfy`).
  - A search result scores from four parts: keyword hints in the title, a preferred channel, overlap with the query's words, and popularity.
  - The candidate list is filtered.
  - View counts are joined in by video id.
  - The first result with the highest score wins.
  - No candidate at all is an error.
- **The app state** (`app.dfy`, module `App`). It covers the five state fields and the handlers that update them:
  - "next up", "video ended", "remove", "make next", "add song" and "clear all";
  - `pickNext`, which prefers a forced choice over the rotation;
  - normalisation of stored entries.
  - The handlers are methods of the class `App.Session`. Each is proved equal to a pure transition function on `App.AppState`, and the lemmas are stated about those functions.
- **The performer roster editor** (`player_draft.dfy`): the draft built from the saved roster, and the roster saved back from it.
- **The song-request form** (`add_song_form.dfy`): the performer toggle, the submit check and the trimmed query it submits.
- **Shared pieces.**
  - `karaoke.dfy` holds the data types.
  - `text.dfy` holds the string primitives, on ASCII: lower-casing, `includes`, `trim` and splitting on whitespace.

## Behaviour of the code as written

The model follows the code. These points of its behaviour decide what the lemmas say:

- **Rotation keys.** The rotation and the per-performer song choice read each entry's legacy
  single `playerId` property (`apps/web/src/lib/picker.ts:12`, `:43`). They do not read the
  `playerIds` array that entries declare and that `addSong` fills.
  - In the model, an entry without the legacy property has the key `OwnerKey.Missing`, the
    `undefined` the code reads. All such entries are counted under that one key.
  - `pickNext` treats that key as "no performer" (`App.tsx:259`).
  - `App.RotationNeedsLegacyKeys` proves the consequence: while no entry carries a legacy key,
    only forced songs ever play.
  - An entry with several performers counts once, under its one legacy key.
- **Channel score.** It is `+12` when the lower-cased channel name contains one of four
  preferred names (`scoring.ts:3-8`, `33-37`).
- **View score.** A positive view count scores `5 * log10(views + 1)`. The model keeps that
  logarithmic branch as a parameter.
- **Weighted draw.** `weightedPick` stops at the first cumulative weight that *reaches* the
  draw (`r <= 0` after subtracting).
- **Make next.** `makeNext` records any id as forced, without checking that it names a queued
  entry. While a song awaits its start, it rebinds "now playing" to that id unconditionally.
- **Forced entry without performers.** "Next up" needs both an entry and a performer id. A
  forced entry whose `playerIds` is empty therefore leaves nothing playing. The forced choice
  stays set in that case.

## Model

| member | source | states |
|---|---|---|
| Karaoke.FirstPerformer | apps/web/src/App.tsx:254 | `playerIds[0] ?? null`: present exactly when the list exists and is non-empty, and then it is the first element |
| Text.Lower | apps/web/src/lib/scoring.ts:10-12 | lower-casing keeps the length and maps each character through ASCII `toLowerCase` |
| Text.LowerIdempotent | apps/web/src/lib/scoring.ts:10-12 | lower-casing twice is lower-casing once |
| Text.Contains | apps/web/src/lib/scoring.ts:19 | a contained string is never longer than the string, and the empty string is contained in every string |
| Text.Trim | apps/web/src/components/AddSongForm.tsx:19 | the result starts and ends with non-whitespace (or is empty), and it is the input with only whitespace removed before and after it |
| Text.Words | apps/web/src/lib/scoring.ts:41-42 | the words are non-empty and contain no whitespace |
| Text.WordsOfWord | apps/web/src/lib/scoring.ts:41-42 | a non-empty run without whitespace is one word |
| Text.WordsSplitAtSpace | apps/web/src/lib/scoring.ts:41-42 | splitting at a whitespace character splits the words: the words of `a + [c] + b` are those of `a` followed by those of `b` (empty pieces, which the length filter drops, are not kept) |
| Text.TrimIdempotent | apps/web/src/components/AddSongForm.tsx:63 | trimming a trimmed string changes nothing |
| Text.TrimIgnoresPadding | apps/web/src/components/AddSongForm.tsx:19 | whitespace added on either side never survives `trim` |
| Text.TrimEmptyIffBlank | apps/web/src/App.tsx:114 | `name.trim()` is falsy exactly when the name is empty or all whitespace |
| Text.TrimAtLeastTwo | apps/web/src/components/AddSongForm.tsx:19 | the trimmed query has two or more characters exactly when the query has two non-whitespace characters |
| Picker.LookupMeaning | apps/web/src/lib/picker.ts:12 | `get(k) ?? 0`: 0 for an absent key; otherwise a count stored under `k`, and with distinct keys the only one |
| Picker.BumpLookup | apps/web/src/lib/picker.ts:12 | `map.set(k, (get(k) ?? 0) + 1)`: `k`'s count rises by one and every other count is unchanged |
| Picker.BumpKeys | apps/web/src/lib/picker.ts:12 | the key set gains `k`; an existing key keeps every key in its place, a new key is appended last with count 1; keys stay distinct and counts positive |
| Picker.FirstQueued | apps/web/src/lib/picker.ts:10-11 | the position of a key's first queued entry: no earlier entry is queued for it, and it is inside the list exactly when the key has a queued entry |
| Picker.RemainingByPlayer | apps/web/src/lib/picker.ts:9-13 | the counting map has distinct keys and positive counts, each key's count is its number of queued entries, a key is present exactly when it has a queued entry, and the keys come in the order of their first queued entry |
| Picker.PlayedNeverCounted | apps/web/src/lib/picker.ts:10-11 | played entries never contribute: counting all entries equals counting only the queued ones |
| Picker.CountRemaining | apps/web/src/lib/picker.ts:9-13 | the counting loop builds exactly `RemainingByPlayer` |
| Picker.WeightedIndex | apps/web/src/lib/picker.ts:29-36 | the stopping position is the first whose cumulative weight `1 + count` reaches the draw, else the last |
| Picker.DrawBelowTotal | apps/web/src/lib/picker.ts:30-31 | `Math.random() * total` lies in `[0, total)` |
| Picker.DrawIsCovered | apps/web/src/lib/picker.ts:31-36 | for every real draw, the chosen pair's cumulative weight reaches the draw, so the last-pair fallback is never forced |
| Picker.WeightedPick | apps/web/src/lib/picker.ts:27-37 | the picked id is always one of the pairs' keys |
| Picker.WeightedPickLoop | apps/web/src/lib/picker.ts:31-36 | the subtract-and-return loop returns the key `WeightedPick` specifies |
| Picker.Eligible | apps/web/src/lib/picker.ts:15-16 | exactly the pairs with a positive count whose key is not the last singer, keys kept distinct |
| Picker.EligibleSplits | apps/web/src/lib/picker.ts:15-16 | the filter keeps order: filtering a concatenation filters each part |
| Picker.Holding | apps/web/src/lib/picker.ts:20 | exactly the pairs with a positive count, keys kept distinct |
| Picker.HoldingSplits | apps/web/src/lib/picker.ts:20 | the filter keeps order: filtering a concatenation filters each part |
| Picker.ChosenKeys | apps/web/src/lib/picker.ts:15-22 | the chosen set has distinct keys, each with a queued entry; it is empty exactly when nothing is queued |
| Picker.NextPlayerKey | apps/web/src/lib/picker.ts:3-38 | `pickNextPlayerId` returns null exactly when no entry is queued, and a returned key always has a queued entry |
| Picker.NextPlayerAvoidsLast | apps/web/src/lib/picker.ts:15-25 | the last singer is never returned while an entry with another key is queued |
| Picker.SoleEligibleWins | apps/web/src/lib/picker.ts:15-25 | when only one key other than the last singer has songs, it is returned for every draw |
| Picker.AlternatesAwayFromLastSinger | apps/web/src/lib/picker.ts:15-25 | A with two songs, B with one, A sang last: B is returned for every draw |
| Picker.PickNextPlayerId | apps/web/src/lib/picker.ts:3-38 | the loops compute exactly `NextPlayerKey` |
| Picker.EarliestIndex | apps/web/src/lib/picker.ts:42-45 | none exactly when the performer has no queued entry; otherwise a match with the smallest `createdAt`, and every earlier match has a strictly larger one (stable sort) |
| Picker.PickNextEntryForPlayer | apps/web/src/lib/picker.ts:40-46 | null exactly when the performer has no queued entry; otherwise one of their queued entries with minimal `createdAt`, and every earlier match in the list has a strictly larger one (stable sort) |
| Scoring.KeywordScore | apps/web/src/lib/scoring.ts:14-31 | the keyword score always lies in [-32, 70] |
| Scoring.AccumulateKeywordScore | apps/web/src/lib/scoring.ts:14-31 | the sequential `score +=` statements compute the sum of the eight rules |
| Scoring.KaraokeVersionEarnsBoth | apps/web/src/lib/scoring.ts:19-20 | a title containing "karaoke version" earns both +30 and +20, so its keyword score is at least 18 |
| Scoring.NoVocalRule | apps/web/src/lib/scoring.ts:23 | the "no vocals" / "no vocal" rule fires exactly when the title contains "no vocal" |
| Scoring.KeywordScoreIgnoresCase | apps/web/src/lib/scoring.ts:10-15 | a title and its lower-cased form score the same |
| Scoring.FindPreferred | apps/web/src/lib/scoring.ts:35 | a hit exactly when the channel contains some lower-cased preferred name, and the hit is such a name |
| Scoring.ChannelScore | apps/web/src/lib/scoring.ts:33-37 | the channel score is 0 or 12, and 12 exactly when the lower-cased channel contains a lower-cased preferred name |
| Scoring.QueryMatchScore | apps/web/src/lib/scoring.ts:39-46 | the query score is a non-negative multiple of 4, at most 4 per distinct query token |
| Scoring.ShortQueryScoresZero | apps/web/src/lib/scoring.ts:41-42 | a query without a word of three or more characters scores 0 |
| Scoring.CountOverlap | apps/web/src/lib/scoring.ts:44 | the counting loop returns the size of the intersection of the two token sets |
| Scoring.QueryMatch | apps/web/src/lib/scoring.ts:39-46 | the counting loop, times 4, computes exactly `QueryMatchScore`: four points per distinct query token of three or more characters that is also a title token |
| Scoring.ViewScore | apps/web/src/lib/scoring.ts:48-50 | a missing, zero or negative view count scores 0 |
| Scoring.ScoreVideo | apps/web/src/lib/scoring.ts:55-66 | with no positive view count the score is the sum of the keyword, channel and query parts |
| Scoring.ScoreVideoBounds | apps/web/src/lib/scoring.ts:55-66 | the score lies between -32 and 82 + 4 per query token, plus the view part |
| Youtube.SearchQuery | apps/web/src/lib/youtube.ts:16 | the search string is the query followed by exactly " karaoke version" |
| Youtube.Candidates | apps/web/src/lib/youtube.ts:30-36 | the candidates are exactly the items with non-empty video id, title and channel, each with all three fields non-empty |
| Youtube.CandidatesKeepOrder | apps/web/src/lib/youtube.ts:30-36 | the filter keeps the original order: the candidates of a concatenation are the concatenated candidates |
| Youtube.ViewByIdKeys | apps/web/src/lib/youtube.ts:53-58 | the index holds exactly the non-empty ids some item carries |
| Youtube.LastStatWins | apps/web/src/lib/youtube.ts:53-58 | an id's recorded count is that of its last item, a missing count read as 0 |
| Youtube.BuildViewIndex | apps/web/src/lib/youtube.ts:53-58 | the loop builds exactly `ViewById` |
| Youtube.ViewForMissingIsZero | apps/web/src/lib/youtube.ts:62 | an id no item carries reads as 0 views (`get(id) ?? 0`) |
| Youtube.Scores | apps/web/src/lib/youtube.ts:61-65 | each candidate's score is computed with its looked-up view count, or 0 when its id is absent |
| Youtube.ScoreReadsThreeFields | apps/web/src/lib/scoring.ts:55-66 | `scoreVideo` reads only the title, the channel and the view count, so the record spread around them does not change the score |
| Youtube.Rate | apps/web/src/lib/youtube.ts:61-65 | the rated pick keeps the candidate's fields, records the looked-up view count, and its score is `scoreVideo` of itself |
| Youtube.BestIndex | apps/web/src/lib/youtube.ts:67-68 | the head of the stable descending sort: a position holding the maximum, with every earlier position strictly smaller |
| Youtube.SelectPick | apps/web/src/lib/youtube.ts:38-68 | an error exactly when there is no candidate; otherwise the rated candidate at the first maximum of the scores |
| Youtube.SearchKaraokeVideo | apps/web/src/lib/youtube.ts:12-69 | the search runs on the query plus " karaoke version"; no candidate is an error; otherwise the result is the rated candidate at the first maximum score, with view counts from the lookup of the candidates' ids, scored against the query as typed |
| AddSongForm.Without | apps/web/src/components/AddSongForm.tsx:50 | the filter removes every occurrence of the id, keeps all other ids and keeps them distinct |
| AddSongForm.WithoutSplits | apps/web/src/components/AddSongForm.tsx:50 | the filter keeps order: filtering a concatenation filters each part |
| AddSongForm.RemoveInPlace | apps/web/src/components/AddSongForm.tsx:50 | with distinct ids, removing the id at position `i` leaves the ids before and after it in order |
| AddSongForm.TogglePlayer | apps/web/src/components/AddSongForm.tsx:47-53 | an unselected id is appended at the end; a selected id is cut out of its position with the other ids kept in order; other ids unaffected, no duplicates created |
| AddSongForm.ToggleTwiceRestores | apps/web/src/components/AddSongForm.tsx:47-53 | toggling an unselected id twice restores the selection |
| AddSongForm.InitialPlayerIds | apps/web/src/components/AddSongForm.tsx:10-12 | the first player's id when there is a first player with a non-empty id, else nothing |
| AddSongForm.CanSubmit | apps/web/src/components/AddSongForm.tsx:18-21 | submission is allowed exactly when a performer is selected, nothing is in flight, and the query has two non-whitespace characters |
| AddSongForm.CanSubmitIgnoresPadding | apps/web/src/components/AddSongForm.tsx:18-21 | whitespace around the query never changes whether the form can be submitted |
| AddSongForm.Submit | apps/web/src/components/AddSongForm.tsx:58-63 | `onAdd` is called exactly when `canSubmit`, with the selection and `query.trim()`, which has two or more characters |
| AddSongForm.SubmitKeepsTrimmedQuery | apps/web/src/components/AddSongForm.tsx:63 | an already trimmed query is passed on unchanged |
| PlayerDraft.AvatarForIndex | apps/web/src/App.tsx:91-93 | one of the 15 avatars; the first 15 positions get distinct ones |
| PlayerDraft.PhotoOrAvatar | apps/web/src/App.tsx:101 | a non-empty photo is kept, an empty one is replaced by the position's avatar |
| PlayerDraft.BuildDraftFromPlayers | apps/web/src/App.tsx:95-110 | a saved roster is copied row by row with missing photos filled in; an empty one gives one blank row with id `player-1`, empty name and nickname, and the first avatar |
| PlayerDraft.Kept | apps/web/src/App.tsx:114 | the kept rows all have a non-blank name |
| PlayerDraft.KeptMembers | apps/web/src/App.tsx:114 | the filter keeps exactly the rows with a non-blank name |
| PlayerDraft.KeptSplits | apps/web/src/App.tsx:114 | the filter keeps order: filtering a concatenation filters each part |
| PlayerDraft.SaveRow | apps/web/src/App.tsx:115-120 | a saved row has a trimmed non-empty name, a trimmed nickname or "Guest Star", and a photo |
| PlayerDraft.BuildPlayersAltFromDraft | apps/web/src/App.tsx:112-121 | the saved roster is the named rows in order, each settled, with avatars chosen by position after the filter |
| PlayerDraft.SavingSettledIsIdentity | apps/web/src/App.tsx:112-121 | saving a roster that is already settled gives it back unchanged |
| PlayerDraft.EditorRoundTrip | apps/web/src/App.tsx:95-121 | opening the editor on a saved roster and saving it without edits gives back the same roster |
| App.NormalizeEntry | apps/web/src/App.tsx:200-209 | entries with `playerIds` are untouched; otherwise `playerIds` becomes the legacy id alone, or empty when it is absent or empty; nothing else changes |
| App.NormalizeIdempotent | apps/web/src/App.tsx:200-209 | normalising twice is normalising once |
| App.NormalizeAll | apps/web/src/App.tsx:152-155 | the loaded entries are the stored ones, each normalised |
| App.FindById | apps/web/src/App.tsx:244-246 | `find` returns the first matching entry, and none exactly when nothing matches |
| App.ForcedIndex | apps/web/src/App.tsx:244-246 | a forced entry is found exactly when the forced id is truthy and some entry with that id is still queued, and the one found is the first such entry in the list, as `find` returns |
| App.MarkPlayed | apps/web/src/App.tsx:239-242 | only the status changes, only entries with the now-playing id become played, length and order are kept, and nothing goes from played to queued |
| App.Rotation | apps/web/src/App.tsx:258-268 | a performer and a song together or neither; the performer is the non-empty key `pickNextPlayerId` returned, and the song is their earliest queued one, the first in list order among equal `createdAt` |
| App.PickNextMeaning | apps/web/src/App.tsx:238-269 | the played mark is applied first; a still-queued forced entry wins, with its first performer; a stale forced id is dropped; otherwise the rotation decides; the next entry is queued, from the marked list, and never the song that just played |
| App.RotationAvoidsLastSinger | apps/web/src/App.tsx:258-268 | without a forced entry, the last singer is not chosen while anyone else has a queued song |
| App.RotationNeedsLegacyKeys | apps/web/src/App.tsx:258-268 | while no entry carries a legacy `playerId`, nothing but a forced entry is ever chosen |
| App.InitialState | apps/web/src/App.tsx:152-161 | the loaded entries are the stored ones normalised (those already listing performers unchanged), the stored now-playing and last-singer ids are kept, nothing awaits or is forced, and the state is valid |
| App.AddSongState | apps/web/src/App.tsx:211-224 | a found track appends one queued entry carrying the track, the query, the new id and timestamp, the given performers and no legacy key; a failed search changes nothing; validity is kept |
| App.ClearAllState | apps/web/src/App.tsx:226-236 | the queue is emptied, nothing is playing, awaiting or forced, no last singer is remembered, and the state is valid |
| App.NextUpState | apps/web/src/App.tsx:271-296 | confirming an awaiting song only records its first performer; otherwise the current song is marked played, and when `pickNext` finds an entry and a truthy performer, that entry plays, that performer becomes the last singer and the forced choice is cleared; else nothing plays, the last singer is kept and the forced choice is cleared only when stale |
| App.NextUpKeepsValid | apps/web/src/App.tsx:271-296 | "next up" keeps the state valid: every entry has a performer list, and a song awaits its start only while one is playing |
| App.NextUpPlaysQueued | apps/web/src/App.tsx:280-296 | after a skip, the entry now playing was queued in the marked list, a truthy last singer is recorded and nothing stays forced; when nothing plays the last singer is kept |
| App.NextUpConfirms | apps/web/src/App.tsx:272-276 | while a song with a unique, non-empty id awaits its start, "next up" records its first performer and changes nothing else |
| App.VideoEndState | apps/web/src/App.tsx:298-313 | the last singer never changes; the current song is marked played; the entry `pickNext` found becomes now playing and awaits its start, clearing the forced choice; when none is found nothing plays and the forced choice is cleared only when stale |
| App.VideoEndKeepsValid | apps/web/src/App.tsx:298-313 | "video ended" keeps the state valid: every entry has a performer list, and a song awaits its start only while one is playing |
| App.VideoEndPlaysQueued | apps/web/src/App.tsx:298-313 | a song awaits its start exactly when one is now playing, and that song was queued in the marked list with nothing left forced |
| App.RemoveId | apps/web/src/App.tsx:316 | exactly the entries with another id are kept |
| App.RemoveIdSplits | apps/web/src/App.tsx:316 | the filter keeps order: removing from a concatenation removes from each part |
| App.RemoveIdAbsent | apps/web/src/App.tsx:316 | removing an id no entry carries changes nothing |
| App.RemoveEntryState | apps/web/src/App.tsx:315-324 | the id's entries go; now-playing and awaiting are cleared only if it was now playing, the forced choice only if it was forced |
| App.MakeNextState | apps/web/src/App.tsx:326-331 | the id is always forced next; now-playing is rebound only while awaiting; nothing else changes |
| App.VideoEndThenNextUpConfirms | apps/web/src/App.tsx:271-313 | with unique ids, the "next up" after a video end records the awaiting song's first performer as last singer and changes nothing else |
| App.Session.constructor | apps/web/src/App.tsx:152-161 | the fields start as the loaded state |
| App.Session.AddSong | apps/web/src/App.tsx:211-224 | the new fields are `AddSongState` of the old ones with the search result of `SearchKaraokeVideo` on the query, and the state stays valid: every entry has a performer list, and a song awaits its start only while one is playing |
| App.Session.ClearAll | apps/web/src/App.tsx:226-236 | the new fields are `ClearAllState`, and the state stays valid: every entry has a performer list, and a song awaits its start only while one is playing |
| App.Session.NextUp | apps/web/src/App.tsx:271-296 | the new fields are `NextUpState` of the old ones, and the state stays valid: every entry has a performer list, and a song awaits its start only while one is playing |
| App.Session.HandleVideoEnd | apps/web/src/App.tsx:298-313 | the new fields are `VideoEndState` of the old ones, and the state stays valid: every entry has a performer list, and a song awaits its start only while one is playing |
| App.Session.RemoveEntry | apps/web/src/App.tsx:315-324 | the new fields are `RemoveEntryState` of the old ones, and the state stays valid: every entry has a performer list, and a song awaits its start only while one is playing |
| App.Session.MakeNext | apps/web/src/App.tsx:326-331 | the new fields are `MakeNextState` of the old ones, and the state stays valid: every entry has a performer list, and a song awaits its start only while one is playing |

## Left out

- Network, API key and URL building in `youtube.ts`. The search request and the view-count request become the function parameters `search` and `lookup` of `Youtube.SearchKaraokeVideo`. Failed HTTP responses are not modelled.
- `Number(...)` on a view count, which can produce `NaN`. A count is an integer, or missing and read as 0.
- Scoring.ViewScore: the logarithm branch `5 * log10(v + 1)` is the parameter `logScale`. Only the case of zero or fewer views is pinned down, because floating point is not modelled.
- Scores are real numbers. Floating-point rounding in the sums and in the sort comparator is not modelled.
- The draw in `weightedPick` (`r = Math.random() * total; r -= w`) is exact real arithmetic in the model. Floating-point rounding there, which could in principle reach the last-pair fallback, is not modelled.
- The full sorted order of the scored candidates. Only its head is used, and `Youtube.BestIndex` models that head.
- `Math.random()` is the parameter `u` in [0, 1).
- `uid` and `Date.now()` are the parameters `id` and `now` of `App.Session.AddSong`. The id generator in `lib/ids` is not part of this model, so unique ids are a precondition where a lemma needs them.
- `addSong` awaits the search before appending. Other handlers that run in between are not modelled: every handler is one atomic step against the field values it started with.
- React mechanics:
  - the effects that persist state and scroll;
  - `useMemo`;
  - batching of the updater callbacks.
- localStorage and JSON I/O in `storage.ts`. The stored entries and ids are the constructor's parameters.
- Rendering, menus, backgrounds and drawer state.
- `clearAll` also resets the saved roster, the roster draft and the roster-picker flag. Only the five queue fields are modelled.
- The form's own state around submission: the `busy` flag set and reset, and the query cleared after a successful add. `busy` is an input of `AddSongForm.CanSubmit`.
- Karaoke.YoutubePick: title and channel are always strings, so the `?? ""` defaults of `scoreVideo` have nothing to act on.
- `nickname ?? ""` in `buildDraftFromPlayers`: a roster row always has a nickname string here.
- Unicode. Lower-casing and whitespace cover ASCII only.
