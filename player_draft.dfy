/** The performer roster editor: the editable draft built from the saved roster, and the roster
    saved back from the draft. */
module PlayerDraft {
  import opened Karaoke
  import opened Text

  /** The number of bundled avatar images. */
  const AvatarCount: nat := 15

  /** The number of blank rows offered when there is no saved roster. */
  const DefaultPlayerCount: nat := 1

  /** The nickname given to a performer who leaves theirs blank. */
  const DefaultNickname: string := "Guest Star"

  /** `getAvatarForIndex`: the avatars are handed out in turn, starting again after the last. */
  function AvatarForIndex(index: nat): (a: Photo)
    ensures a.Avatar? && a.slot < AvatarCount
    ensures index < AvatarCount ==> a.slot == index
  {
    Avatar(index % AvatarCount)
  }

  /** Positions a whole round of avatars apart get the same avatar. */
  lemma AvatarsRepeat(index: nat)
    ensures AvatarForIndex(index + AvatarCount) == AvatarForIndex(index)
  {
  }

  /** `photoUrl || getAvatarForIndex(index)`: an empty URL falls back to the avatar for the position. */
  function PhotoOrAvatar(photo: Photo, index: nat): (r: Photo)
    ensures r != Url("")
    ensures photo != Url("") ==> r == photo
    ensures photo == Url("") ==> r == AvatarForIndex(index)
  {
    if photo == Url("") then AvatarForIndex(index) else photo
  }

  function DigitChar(d: nat): char
    requires d < 10
  {
    ('0' as int + d) as char
  }

  /** The decimal digits of `n`, as a template literal prints it. */
  function DecimalString(n: nat): (s: string)
    ensures |s| > 0
    ensures forall i :: 0 <= i < |s| ==> '0' <= s[i] <= '9'
  {
    if n < 10 then [DigitChar(n)] else DecimalString(n / 10) + [DigitChar(n % 10)]
  }

  /** One blank row of a fresh draft. */
  function BlankDraftRow(index: nat): Player {
    Player("player-" + DecimalString(index + 1), "", "", AvatarForIndex(index))
  }

  /** `buildDraftFromPlayers`: the saved roster with every missing photo replaced by an avatar,
      or `DefaultPlayerCount` blank rows when nothing is saved. */
  function BuildDraftFromPlayers(players: seq<Player>): (draft: seq<Player>)
    ensures |players| > 0 ==> |draft| == |players|
    ensures |players| > 0 ==> forall i :: 0 <= i < |players| ==>
              draft[i].(photoUrl := players[i].photoUrl) == players[i]
              && draft[i].photoUrl == PhotoOrAvatar(players[i].photoUrl, i)
    ensures |players| == 0 ==> |draft| == DefaultPlayerCount
    ensures |players| == 0 ==> forall i :: 0 <= i < |draft| ==>
              draft[i].id == "player-" + DecimalString(i + 1)
              && draft[i].name == "" && draft[i].nickname == "" && draft[i].photoUrl == AvatarForIndex(i)
    ensures forall i :: 0 <= i < |draft| ==> draft[i].photoUrl != Url("")
  {
    if |players| > 0 then
      seq(|players|, i requires 0 <= i < |players| =>
        players[i].(photoUrl := PhotoOrAvatar(players[i].photoUrl, i)))
    else
      seq(DefaultPlayerCount, (i: nat) => BlankDraftRow(i))
  }

  /** `player.name.trim()` is truthy: the name is not blank (see `TrimEmptyIffBlank`). */
  predicate Named(p: Player) {
    !Blank(p.name)
  }

  /** A saved performer: a name and a nickname, both non-blank and trimmed, and a photo. */
  predicate Settled(p: Player) {
    p.name != "" && Trim(p.name) == p.name
    && p.nickname != "" && Trim(p.nickname) == p.nickname
    && p.photoUrl != Url("")
  }

  /** `draft.filter((player) => player.name.trim())`. */
  function Kept(draft: seq<Player>): (r: seq<Player>)
    ensures |r| <= |draft|
    ensures forall i :: 0 <= i < |r| ==> Named(r[i])
  {
    if draft == [] then []
    else
      var n := |draft| - 1;
      Kept(draft[..n]) + (if Named(draft[n]) then [draft[n]] else [])
  }

  /** The filter keeps exactly the named rows. */
  lemma {:induction false} KeptMembers(draft: seq<Player>)
    ensures forall p :: p in Kept(draft) <==> p in draft && Named(p)
  {
    if draft != [] {
      var n := |draft| - 1;
      assert draft == draft[..n] + [draft[n]];
      KeptMembers(draft[..n]);
    }
  }

  /** The filter keeps order: filtering a concatenation filters each part. */
  lemma {:induction false} KeptSplits(a: seq<Player>, b: seq<Player>)
    ensures Kept(a + b) == Kept(a) + Kept(b)
  {
    if b == [] {
      assert a + b == a;
    } else {
      var n := |b| - 1;
      assert (a + b)[..|a + b| - 1] == a + b[..n];
      assert (a + b)[|a + b| - 1] == b[n];
      KeptSplits(a, b[..n]);
    }
  }

  /** A draft made only of named rows loses none of them. */
  lemma {:induction false} KeptAllNamed(draft: seq<Player>)
    requires forall i :: 0 <= i < |draft| ==> Named(draft[i])
    ensures Kept(draft) == draft
  {
    if draft != [] {
      var n := |draft| - 1;
      var front := draft[..n];
      KeptAllNamed(front);
      assert front + [draft[n]] == draft;
    }
  }

  lemma GuestStarIsTrimmed()
    ensures Trim(DefaultNickname) == DefaultNickname
  {
    assert TrimStart(DefaultNickname) == DefaultNickname;
    assert TrimEnd(DefaultNickname) == DefaultNickname;
  }

  /** One row of the saved roster, at position `index` after the blank rows are dropped. */
  function SaveRow(p: Player, index: nat): (r: Player)
    requires Named(p)
    ensures Settled(r)
    ensures r.id == p.id && r.name == Trim(p.name)
    ensures r.nickname == if Trim(p.nickname) == "" then DefaultNickname else Trim(p.nickname)
    ensures r.photoUrl == PhotoOrAvatar(p.photoUrl, index)
  {
    TrimEmptyIffBlank(p.name);
    TrimIdempotent(p.name);
    TrimIdempotent(p.nickname);
    GuestStarIsTrimmed();
    Player(p.id, Trim(p.name), if Trim(p.nickname) != "" then Trim(p.nickname) else DefaultNickname,
           PhotoOrAvatar(p.photoUrl, index))
  }

  /** `buildPlayersAltFromDraft`: the named rows, in order, each saved by `SaveRow`; an avatar
      is chosen by the row's position after the blank rows are dropped. */
  function BuildPlayersAltFromDraft(draft: seq<Player>): (players: seq<Player>)
    ensures |players| == |Kept(draft)| <= |draft|
    ensures forall i :: 0 <= i < |players| ==> Settled(players[i])
    ensures forall i :: 0 <= i < |players| ==> players[i] == SaveRow(Kept(draft)[i], i)
  {
    var kept := Kept(draft);
    seq(|kept|, i requires 0 <= i < |kept| => SaveRow(kept[i], i))
  }

  /** Saving a roster that is already settled gives it back unchanged. */
  lemma SavingSettledIsIdentity(players: seq<Player>)
    requires forall i :: 0 <= i < |players| ==> Settled(players[i])
    ensures BuildPlayersAltFromDraft(players) == players
  {
    forall i | 0 <= i < |players|
      ensures Named(players[i])
    {
      TrimEmptyIffBlank(players[i].name);
    }
    KeptAllNamed(players);
  }

  /** Opening the editor on a settled, non-empty roster shows it unchanged. */
  lemma DraftOfSettledIsIdentity(players: seq<Player>)
    requires |players| > 0
    requires forall i :: 0 <= i < |players| ==> Settled(players[i])
    ensures BuildDraftFromPlayers(players) == players
  {
  }

  /** Opening the editor on a saved roster and saving it again, without edits, gives back the
      same roster; an empty roster opens as blank rows and saves as empty again. */
  lemma EditorRoundTrip(draft: seq<Player>)
    ensures var saved := BuildPlayersAltFromDraft(draft);
      BuildPlayersAltFromDraft(BuildDraftFromPlayers(saved)) == saved
  {
    var saved := BuildPlayersAltFromDraft(draft);
    if |saved| > 0 {
      DraftOfSettledIsIdentity(saved);
      SavingSettledIsIdentity(saved);
    } else {
      var blank := BuildDraftFromPlayers(saved);
      assert blank == [BlankDraftRow(0)];
      assert !Named(blank[0]);
      assert Kept(blank) == Kept([]) + [];
    }
  }
}
