/** Value types shared by the karaoke app: song entries, search picks and performers,
    plus the Option/Result wrappers that stand for `null`/`undefined` and thrown errors. */
module Karaoke {

  /** `None` stands for JavaScript's `null` or `undefined`. */
  datatype Option<+T> = None | Some(value: T) {
    /** The `?? default` operator. */
    function GetOr(default: T): T {
      if Some? then value else default
    }
  }

  /** A promise that resolves to `value` or rejects with `error`. */
  datatype Result<+T, +E> = Success(value: T) | Failure(error: E)

  type PlayerId = string

  /** A JavaScript string tested for truthiness (`if (s)`, `s ? … : …`): absent and "" are false. */
  predicate Truthy(s: Option<string>) {
    s.Some? && s.value != ""
  }

  datatype Status = Queued | Played

  /** The value of an entry's single `playerId` property, which only legacy entries carry:
      `Missing` is the `undefined` that every other entry yields when the property is read. */
  datatype OwnerKey = Missing | Owner(id: PlayerId)

  /** The chosen search result; `viewCount` and `score` are optional, as in the source type. */
  datatype YoutubePick = YoutubePick(
    videoId: string,
    title: string,
    channelTitle: string,
    viewCount: Option<int>,
    score: Option<real>)

  /** One requested song. `playerIds` is `None` when a stored (legacy) entry lacks the array;
      `playerId` is the legacy single-performer property, kept by the object spread in
      normalisation and read by the turn picker. */
  datatype SongEntry = SongEntry(
    id: string,
    playerIds: Option<seq<PlayerId>>,
    playerId: OwnerKey,
    query: string,
    createdAt: int,
    youtube: Option<YoutubePick>,
    status: Status)

  /** A photo reference: a URL string, or one of the bundled avatar images by slot.
      A `Url("")` is falsy where the source writes `photoUrl || fallback`. */
  datatype Photo = Url(url: string) | Avatar(slot: nat)

  datatype Player = Player(id: PlayerId, name: string, nickname: string, photoUrl: Photo)

  /** `e.playerIds[0] ?? null`: the first listed performer, `None` for an empty list. */
  function FirstPerformer(e: SongEntry): (r: Option<PlayerId>)
    ensures r.Some? <==> e.playerIds.Some? && |e.playerIds.value| > 0
    ensures r.Some? ==> r.value == e.playerIds.value[0]
  {
    match e.playerIds
    case Some(ids) => if |ids| > 0 then Some(ids[0]) else None
    case None => None
  }
}
