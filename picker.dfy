/** Turn rotation: who sings next, and which of their songs.

    As written, the picker reads one owner key per entry, the property `playerId`, although a
    song entry declares the array `playerIds` and the app hands it such entries. Only legacy
    entries carry `playerId`; for every other entry it reads `undefined`, modelled here as
    `OwnerKey.Missing`, and all those entries are counted under that one key. The model keeps
    this reading exactly; App.RotationNeedsLegacyKeys shows what it means for the app. */
module Picker {
  import opened Karaoke

  /** The counting `Map` of the source, as its entries in insertion order. */
  type Tally = seq<(OwnerKey, nat)>

  predicate QueuedFor(e: SongEntry, k: OwnerKey) {
    e.status == Queued && e.playerId == k
  }

  /** How many queued entries carry the key `k`. */
  function QueuedCount(es: seq<SongEntry>, k: OwnerKey): nat {
    if es == [] then 0
    else QueuedCount(es[..|es| - 1], k) + (if QueuedFor(es[|es| - 1], k) then 1 else 0)
  }

  /** Some queued entry carries the key `k`. */
  predicate SomeQueued(es: seq<SongEntry>, k: OwnerKey) {
    exists i :: 0 <= i < |es| && QueuedFor(es[i], k)
  }

  lemma SomeQueuedSnoc(es: seq<SongEntry>, k: OwnerKey)
    requires es != []
    ensures SomeQueued(es, k) <==> SomeQueued(es[..|es| - 1], k) || QueuedFor(es[|es| - 1], k)
  {
    var prefix := es[..|es| - 1];
    if SomeQueued(es, k) {
      var i :| 0 <= i < |es| && QueuedFor(es[i], k);
      if i < |prefix| { assert QueuedFor(prefix[i], k); }
    }
    if SomeQueued(prefix, k) {
      var i :| 0 <= i < |prefix| && QueuedFor(prefix[i], k);
      assert QueuedFor(es[i], k);
    }
  }

  /** `map.get(k) ?? 0`. */
  function Lookup(t: Tally, k: OwnerKey): nat {
    if t == [] then 0
    else if t[0].0 == k then t[0].1
    else Lookup(t[1..], k)
  }

  /** What `get` reads: zero for a key the map lacks, and otherwise the count stored with the
      key, the only one when keys are distinct. */
  lemma {:induction false} LookupMeaning(t: Tally, k: OwnerKey)
    ensures !HasKey(t, k) ==> Lookup(t, k) == 0
    ensures HasKey(t, k) ==> (k, Lookup(t, k)) in t
    ensures DistinctKeys(t) ==> forall c :: (k, c) in t ==> Lookup(t, k) == c
  {
    if t != [] {
      KeysCons(t[0], t[1..]);
      assert t == [t[0]] + t[1..];
      assert forall c :: (k, c) in t[1..] ==> k in Keys(t[1..]);
      LookupMeaning(t[1..], k);
    }
  }

  /** The keys present in the map. */
  function Keys(t: Tally): set<OwnerKey> {
    set p | p in t :: p.0
  }

  predicate HasKey(t: Tally, k: OwnerKey) {
    k in Keys(t)
  }

  /** Map keys are unique. */
  predicate DistinctKeys(t: Tally) {
    forall a, b :: 0 <= a < b < |t| ==> t[a].0 != t[b].0
  }

  predicate AllPositive(t: Tally) {
    forall j :: 0 <= j < |t| ==> t[j].1 > 0
  }

  lemma KeysCons(x: (OwnerKey, nat), t: Tally)
    ensures Keys([x] + t) == {x.0} + Keys(t)
  {
    assert forall p :: p in [x] + t <==> p == x || p in t;
  }

  /** The keys of the map in insertion order. */
  function KeySeq(t: Tally): (ks: seq<OwnerKey>)
    ensures |ks| == |t| && forall j :: 0 <= j < |t| ==> ks[j] == t[j].0
  {
    if t == [] then [] else [t[0].0] + KeySeq(t[1..])
  }

  /** Where the key `k` sits in the map: the first pair carrying it. */
  function IndexOf(t: Tally, k: OwnerKey): (i: nat)
    requires HasKey(t, k)
    ensures i < |t| && t[i].0 == k
    ensures forall j :: 0 <= j < i ==> t[j].0 != k
  {
    KeysCons(t[0], t[1..]);
    assert t == [t[0]] + t[1..];
    if t[0].0 == k then 0 else 1 + IndexOf(t[1..], k)
  }

  lemma {:induction false} LookupAtIndex(t: Tally, i: nat)
    requires i < |t| && forall j :: 0 <= j < i ==> t[j].0 != t[i].0
    ensures Lookup(t, t[i].0) == t[i].1
  {
    if i > 0 {
      LookupAtIndex(t[1..], i - 1);
    }
  }

  /** Setting the count of the first pair with a key changes the lookup of that key only. */
  lemma {:induction false} LookupUpdated(t: Tally, i: nat, v: nat, k: OwnerKey)
    requires i < |t| && forall j :: 0 <= j < i ==> t[j].0 != t[i].0
    ensures Lookup(t[i := (t[i].0, v)], k) == if k == t[i].0 then v else Lookup(t, k)
  {
    var u := t[i := (t[i].0, v)];
    if i == 0 {
      assert u[1..] == t[1..];
    } else {
      assert u[1..] == t[1..][i - 1 := (t[i].0, v)];
      LookupUpdated(t[1..], i - 1, v, k);
    }
  }

  /** A pair appended behind the others is found only for a key the others lack. */
  lemma {:induction false} LookupAppended(t: Tally, x: (OwnerKey, nat), k: OwnerKey)
    ensures Lookup(t + [x], k) == if HasKey(t, k) then Lookup(t, k) else if k == x.0 then x.1 else 0
  {
    if t == [] {
      assert [] + [x] == [x];
    } else {
      KeysCons(t[0], t[1..]);
      assert t == [t[0]] + t[1..];
      assert (t + [x])[1..] == t[1..] + [x];
      LookupAppended(t[1..], x, k);
    }
  }

  lemma KeysAppended(t: Tally, x: (OwnerKey, nat))
    ensures Keys(t + [x]) == Keys(t) + {x.0}
  {
    assert forall p :: p in t + [x] <==> p in t || p == x;
  }

  /** Two maps with the same keys in the same order have the same key set. */
  lemma KeysOfKeySeq(a: Tally, b: Tally)
    requires KeySeq(a) == KeySeq(b)
    ensures Keys(a) == Keys(b)
  {
    forall k | k in Keys(a) ensures k in Keys(b) {
      var p :| p in a && p.0 == k;
      var j :| 0 <= j < |a| && a[j] == p;
      assert b[j] in b;
    }
    forall k | k in Keys(b) ensures k in Keys(a) {
      var p :| p in b && p.0 == k;
      var j :| 0 <= j < |b| && b[j] == p;
      assert a[j] in a;
    }
  }

  /** Whether keys are distinct depends on the key order alone. */
  lemma DistinctKeysOfKeySeq(a: Tally, b: Tally)
    requires KeySeq(a) == KeySeq(b)
    ensures DistinctKeys(a) == DistinctKeys(b)
  {
    assert forall j :: 0 <= j < |a| ==> a[j].0 == KeySeq(b)[j] == b[j].0;
  }


  lemma DistinctKeysAppended(t: Tally, x: (OwnerKey, nat))
    requires DistinctKeys(t) && x.0 !in Keys(t)
    ensures DistinctKeys(t + [x])
  {
    forall a | 0 <= a < |t| ensures t[a].0 != x.0 {
      assert t[a] in t;
    }
  }


  /** Raising the count of the first pair with a key by one changes that key's lookup only. */
  lemma IncrementedLookup(t: Tally, i: nat)
    requires i < |t| && forall j :: 0 <= j < i ==> t[j].0 != t[i].0
    ensures var r := t[i := (t[i].0, t[i].1 + 1)];
      forall k :: Lookup(r, k) == Lookup(t, k) + (if k == t[i].0 then 1 else 0)
  {
    LookupAtIndex(t, i);
    forall k ensures Lookup(t[i := (t[i].0, t[i].1 + 1)], k) == Lookup(t, k) + (if k == t[i].0 then 1 else 0) {
      LookupUpdated(t, i, t[i].1 + 1, k);
    }
  }

  /** Appending a new key with the count one. */
  lemma Appended(t: Tally, k: OwnerKey)
    requires !HasKey(t, k)
    ensures var r := t + [(k, 1)];
      && (forall k' :: Lookup(r, k') == Lookup(t, k') + (if k' == k then 1 else 0))
      && Keys(r) == Keys(t) + {k}
      && (AllPositive(t) ==> AllPositive(r))
      && (DistinctKeys(t) ==> DistinctKeys(r))
  {
    forall k' ensures Lookup(t + [(k, 1)], k') == Lookup(t, k') + (if k' == k then 1 else 0) {
      LookupAppended(t, (k, 1), k');
      LookupMeaning(t, k');
    }
    KeysAppended(t, (k, 1));
    if DistinctKeys(t) {
      DistinctKeysAppended(t, (k, 1));
    }
  }

  /** `map.set(k, (map.get(k) ?? 0) + 1)`. */
  function Bump(t: Tally, k: OwnerKey): Tally {
    if HasKey(t, k) then
      var i := IndexOf(t, k);
      t[i := (t[i].0, t[i].1 + 1)]
    else
      t + [(k, 1)]
  }

  /** Only the count of `k` rises, by one. */
  lemma BumpLookup(t: Tally, k: OwnerKey)
    ensures forall k' :: Lookup(Bump(t, k), k') == Lookup(t, k') + (if k' == k then 1 else 0)
  {
    if HasKey(t, k) {
      IncrementedLookup(t, IndexOf(t, k));
    } else {
      Appended(t, k);
    }
  }

  /** An existing key keeps its place and a new one goes last; keys stay distinct and counts
      positive. */
  lemma BumpKeys(t: Tally, k: OwnerKey)
    ensures Keys(Bump(t, k)) == Keys(t) + {k}
    ensures HasKey(t, k) ==> KeySeq(Bump(t, k)) == KeySeq(t)
    ensures !HasKey(t, k) ==> Bump(t, k) == t + [(k, 1)]
    ensures AllPositive(t) ==> AllPositive(Bump(t, k))
    ensures DistinctKeys(t) ==> DistinctKeys(Bump(t, k))
  {
    if HasKey(t, k) {
      BumpExisting(t, k);
      KeysOfKeySeq(Bump(t, k), t);
      DistinctKeysOfKeySeq(Bump(t, k), t);
    } else {
      BumpNew(t, k);
    }
  }

  /** Changing a count keeps the keys in their places and a positive count positive. */
  lemma CountUpdated(t: Tally, i: nat, v: nat)
    requires i < |t| && v > 0
    ensures KeySeq(t[i := (t[i].0, v)]) == KeySeq(t)
    ensures AllPositive(t) ==> AllPositive(t[i := (t[i].0, v)])
  {
    var r := t[i := (t[i].0, v)];
    assert forall j :: 0 <= j < |t| ==> KeySeq(r)[j] == KeySeq(t)[j];
  }

  lemma BumpExisting(t: Tally, k: OwnerKey)
    requires HasKey(t, k)
    ensures KeySeq(Bump(t, k)) == KeySeq(t)
    ensures AllPositive(t) ==> AllPositive(Bump(t, k))
  {
    var i := IndexOf(t, k);
    CountUpdated(t, i, t[i].1 + 1);
  }

  lemma BumpNew(t: Tally, k: OwnerKey)
    requires !HasKey(t, k)
    ensures Bump(t, k) == t + [(k, 1)]
    ensures Keys(Bump(t, k)) == Keys(t) + {k}
    ensures AllPositive(t) ==> AllPositive(Bump(t, k))
    ensures DistinctKeys(t) ==> DistinctKeys(Bump(t, k))
  {
    Appended(t, k);
  }

  /** The position of the first queued entry with the key `k`, or `|es|` when there is none. */
  function FirstQueued(es: seq<SongEntry>, k: OwnerKey): (i: nat)
    ensures i <= |es|
    ensures forall j :: 0 <= j < i ==> !QueuedFor(es[j], k)
    ensures i < |es| ==> QueuedFor(es[i], k)
    ensures SomeQueued(es, k) <==> i < |es|
  {
    if es == [] then 0
    else
      var prefix := es[..|es| - 1];
      var f := FirstQueued(prefix, k);
      assert forall j :: 0 <= j < |prefix| ==> prefix[j] == es[j];
      SomeQueuedSnoc(es, k);
      if f < |prefix| then f
      else if QueuedFor(es[|es| - 1], k) then |prefix|
      else |es|
  }

  /** The keys of the map appear in the order of their first queued entries. */
  predicate InFirstQueuedOrder(es: seq<SongEntry>, t: Tally) {
    forall a, b :: 0 <= a < b < |t| ==> FirstQueued(es, t[a].0) < FirstQueued(es, t[b].0)
  }

  /** Every key of a map holding just the keys with a queued entry has its first one in range. */
  lemma KeysHaveFirstQueued(es: seq<SongEntry>, t: Tally)
    requires forall k :: HasKey(t, k) ==> SomeQueued(es, k)
    ensures forall j :: 0 <= j < |t| ==> FirstQueued(es, t[j].0) < |es|
  {
    forall j | 0 <= j < |t| ensures FirstQueued(es, t[j].0) < |es| {
      assert t[j] in t;
      assert HasKey(t, t[j].0);
    }
  }

  /** A map whose keys all have a queued entry before the last entry keeps its order when the
      last entry is added, provided the keys stay in place. */
  lemma OrderKept(es: seq<SongEntry>, t: Tally, r: Tally)
    requires es != []
    requires InFirstQueuedOrder(es[..|es| - 1], t)
    requires forall j :: 0 <= j < |t| ==> FirstQueued(es[..|es| - 1], t[j].0) < |es| - 1
    requires KeySeq(r) == KeySeq(t)
    ensures InFirstQueuedOrder(es, r)
  {
    forall j | 0 <= j < |t| ensures FirstQueued(es, r[j].0) == FirstQueued(es[..|es| - 1], t[j].0) {
      assert KeySeq(r)[j] == KeySeq(t)[j];
    }
  }

  /** A key whose first queued entry is the last entry goes behind all the others. */
  lemma OrderAppended(es: seq<SongEntry>, t: Tally, k: OwnerKey)
    requires es != []
    requires InFirstQueuedOrder(es[..|es| - 1], t)
    requires forall j :: 0 <= j < |t| ==> FirstQueued(es[..|es| - 1], t[j].0) < |es| - 1
    requires FirstQueued(es[..|es| - 1], k) == |es| - 1 && QueuedFor(es[|es| - 1], k)
    ensures InFirstQueuedOrder(es, t + [(k, 1)])
  {
    var r := t + [(k, 1)];
    forall j | 0 <= j < |t| ensures FirstQueued(es, r[j].0) == FirstQueued(es[..|es| - 1], t[j].0) {
      assert r[j] == t[j];
    }
    assert FirstQueued(es, r[|t|].0) == |es| - 1;
  }

  /** The remaining-songs count per key, built by the source's counting loop over the entries. */
  function RemainingByPlayer(es: seq<SongEntry>): (t: Tally)
    ensures DistinctKeys(t) && AllPositive(t)
    ensures forall k :: Lookup(t, k) == QueuedCount(es, k)
    ensures forall k :: HasKey(t, k) <==> SomeQueued(es, k)
    ensures InFirstQueuedOrder(es, t)
  {
    if es == [] then []
    else
      var prefix := es[..|es| - 1];
      var e := es[|es| - 1];
      var before := RemainingByPlayer(prefix);
      assert forall k :: SomeQueued(es, k) <==> SomeQueued(prefix, k) || QueuedFor(e, k) by {
        forall k ensures SomeQueued(es, k) <==> SomeQueued(prefix, k) || QueuedFor(e, k) {
          SomeQueuedSnoc(es, k);
        }
      }
      KeysHaveFirstQueued(prefix, before);
      if e.status == Queued then
        var k := e.playerId;
        assert QueuedFor(e, k);
        BumpLookup(before, k);
        BumpKeys(before, k);
        if HasKey(before, k) then
          OrderKept(es, before, Bump(before, k));
          Bump(before, k)
        else
          OrderAppended(es, before, k);
          Bump(before, k)
      else
        OrderKept(es, before, before);
        before
  }

  /** The entries a played status keeps out of the count. */
  function QueuedOnly(es: seq<SongEntry>): (r: seq<SongEntry>)
    ensures forall i :: 0 <= i < |r| ==> r[i].status == Queued
  {
    if es == [] then []
    else QueuedOnly(es[..|es| - 1]) + (if es[|es| - 1].status == Queued then [es[|es| - 1]] else [])
  }

  /** Played entries never contribute: the count over the whole list is the count over its queued entries. */
  lemma {:induction false} PlayedNeverCounted(es: seq<SongEntry>)
    ensures RemainingByPlayer(es) == RemainingByPlayer(QueuedOnly(es))
  {
    if es != [] {
      var prefix := es[..|es| - 1];
      var e := es[|es| - 1];
      PlayedNeverCounted(prefix);
      var q := QueuedOnly(prefix);
      if e.status == Queued {
        assert QueuedOnly(es) == q + [e];
        assert (q + [e])[..|q + [e]| - 1] == q;
      } else {
        assert QueuedOnly(es) == q;
      }
    }
  }

  /** `weight = 1 + remainingCount`. */
  function Weight(p: (OwnerKey, nat)): nat {
    1 + p.1
  }

  /** The summed weight of the first `n` pairs. */
  function Cum(ps: Tally, n: nat): nat
    requires n <= |ps|
  {
    if n == 0 then 0 else Weight(ps[0]) + Cum(ps[1..], n - 1)
  }

  /** `weights.reduce((s, [, w]) => s + w, 0)`. */
  function Total(ps: Tally): nat {
    Cum(ps, |ps|)
  }

  /** The position `weightedPick` stops at for the draw `r`: it subtracts each weight in turn and
      stops once `r` is no longer positive, falling back to the last pair. The result is the
      first pair whose cumulative weight reaches `r`, or the last pair when none does. */
  function WeightedIndex(ps: Tally, r: real): (i: nat)
    requires |ps| > 0
    ensures i < |ps|
    ensures forall j :: 1 <= j <= i ==> (Cum(ps, j) as real) < r
    ensures r <= Cum(ps, i + 1) as real || i == |ps| - 1
  {
    var rest := r - Weight(ps[0]) as real;
    if rest <= 0.0 || |ps| == 1 then 0
    else
      var i := 1 + WeightedIndex(ps[1..], rest);
      assert forall j :: 1 <= j <= i + 1 ==> Cum(ps, j) == Weight(ps[0]) + Cum(ps[1..], j - 1);
      i
  }

  /** `Math.random() * total`, with the value of `Math.random()` given as `u`. */
  function Draw(ps: Tally, u: real): real {
    u * Total(ps) as real
  }

  lemma ScaledBelow(u: real, t: real)
    requires 0.0 <= u < 1.0 && t >= 1.0
    ensures 0.0 <= u * t < t
  {
    assert (1.0 - u) * t > 0.0;
  }

  /** A draw from [0, 1) scaled by the total weight stays below the total. */
  lemma DrawBelowTotal(ps: Tally, u: real)
    requires |ps| > 0 && 0.0 <= u < 1.0
    ensures 0.0 <= Draw(ps, u) < Total(ps) as real
  {
    assert Total(ps) >= 1;
    ScaledBelow(u, Total(ps) as real);
  }

  lemma BelowTotalIsCovered(ps: Tally, r: real)
    requires |ps| > 0 && r < Total(ps) as real
    ensures r <= Cum(ps, WeightedIndex(ps, r) + 1) as real
  {
  }

  /** The fallback to the last pair is never needed for a real draw: the pair chosen is the
      first whose cumulative weight reaches the draw. */
  lemma DrawIsCovered(ps: Tally, u: real)
    requires |ps| > 0 && 0.0 <= u < 1.0
    ensures Draw(ps, u) <= Cum(ps, WeightedIndex(ps, Draw(ps, u)) + 1) as real
  {
    DrawBelowTotal(ps, u);
    BelowTotalIsCovered(ps, Draw(ps, u));
  }

  /** `weightedPick(pairs)` with the random draw `r` given. */
  function WeightedPick(ps: Tally, r: real): (k: OwnerKey)
    requires |ps| > 0
    ensures HasKey(ps, k)
  {
    var i := WeightedIndex(ps, r);
    ps[i].0
  }

  /** `playerId !== lastSingerId`, negated: `undefined` never equals `null` or a string. */
  predicate IsLast(k: OwnerKey, last: Option<PlayerId>) {
    k.Owner? && last == Some(k.id)
  }

  /** The pairs with a positive count whose key is not the last singer, in map order. */
  function Eligible(t: Tally, last: Option<PlayerId>): (r: Tally)
    ensures forall p :: p in r <==> p in t && p.1 > 0 && !IsLast(p.0, last)
    ensures DistinctKeys(t) ==> DistinctKeys(r)
  {
    if t == [] then []
    else if t[0].1 > 0 && !IsLast(t[0].0, last) then [t[0]] + Eligible(t[1..], last)
    else Eligible(t[1..], last)
  }

  /** The fallback: every pair with a positive count, in map order. */
  function Holding(t: Tally): (r: Tally)
    ensures forall p :: p in r <==> p in t && p.1 > 0
    ensures DistinctKeys(t) ==> DistinctKeys(r)
  {
    if t == [] then []
    else if t[0].1 > 0 then [t[0]] + Holding(t[1..])
    else Holding(t[1..])
  }

  /** The eligible pairs keep map order: filtering a concatenation filters each part. */
  lemma {:induction false} EligibleSplits(a: Tally, b: Tally, last: Option<PlayerId>)
    ensures Eligible(a + b, last) == Eligible(a, last) + Eligible(b, last)
  {
    if a == [] {
      assert a + b == b;
    } else {
      assert (a + b)[0] == a[0];
      assert (a + b)[1..] == a[1..] + b;
      EligibleSplits(a[1..], b, last);
    }
  }

  /** The fallback pairs keep map order as well. */
  lemma {:induction false} HoldingSplits(a: Tally, b: Tally)
    ensures Holding(a + b) == Holding(a) + Holding(b)
  {
    if a == [] {
      assert a + b == b;
    } else {
      assert (a + b)[0] == a[0];
      assert (a + b)[1..] == a[1..] + b;
      HoldingSplits(a[1..], b);
    }
  }

  /** The set the weighted pick runs over: the eligible pairs, or the fallback when there are none. */
  function Chosen(es: seq<SongEntry>, last: Option<PlayerId>): Tally {
    var t := RemainingByPlayer(es);
    var eligible := Eligible(t, last);
    if |eligible| == 0 then Holding(t) else eligible
  }

  /** `pickNextPlayerId` with `Math.random()` given as `u`, a draw in [0, 1): `None` is `null`,
      `Some(Missing)` the `undefined` key. */
  function NextPlayerKey(es: seq<SongEntry>, last: Option<PlayerId>, u: real): (r: Option<OwnerKey>)
    requires 0.0 <= u < 1.0
    ensures r.None? <==> forall i :: 0 <= i < |es| ==> es[i].status != Queued
    ensures r.Some? ==> SomeQueued(es, r.value)
  {
    var chosen := Chosen(es, last);
    ChosenKeys(es, last);
    if |chosen| == 0 then None
    else
      Some(WeightedPick(chosen, Draw(chosen, u)))
  }

  /** Every key of the count map has a queued entry. */
  lemma TallyKeysQueued(es: seq<SongEntry>)
    ensures forall p :: p in RemainingByPlayer(es) ==> SomeQueued(es, p.0)
  {
    var t := RemainingByPlayer(es);
    forall p | p in t ensures SomeQueued(es, p.0) {
      assert HasKey(t, p.0);
    }
  }

  /** A queued entry puts a positive pair into the fallback set. */
  lemma QueuedEntryHeld(es: seq<SongEntry>, i: nat)
    requires i < |es| && es[i].status == Queued
    ensures |Holding(RemainingByPlayer(es))| > 0
  {
    var t := RemainingByPlayer(es);
    assert QueuedFor(es[i], es[i].playerId);
    assert HasKey(t, es[i].playerId);
    var j :| 0 <= j < |t| && t[j].0 == es[i].playerId;
    assert t[j] in Holding(t);
  }

  lemma ChosenKeys(es: seq<SongEntry>, last: Option<PlayerId>)
    ensures DistinctKeys(Chosen(es, last))
    ensures forall p :: p in Chosen(es, last) ==> SomeQueued(es, p.0)
    ensures |Chosen(es, last)| == 0 <==> forall i :: 0 <= i < |es| ==> es[i].status != Queued
  {
    TallyKeysQueued(es);
    if exists i :: 0 <= i < |es| && es[i].status == Queued {
      var i :| 0 <= i < |es| && es[i].status == Queued;
      QueuedEntryHeld(es, i);
    }
  }

  /** The last singer is never returned while an entry with another key is queued. */
  lemma NextPlayerAvoidsLast(es: seq<SongEntry>, last: Option<PlayerId>, u: real)
    requires 0.0 <= u < 1.0
    requires exists i :: 0 <= i < |es| && es[i].status == Queued && !IsLast(es[i].playerId, last)
    ensures NextPlayerKey(es, last, u).Some?
    ensures !IsLast(NextPlayerKey(es, last, u).value, last)
  {
    var t := RemainingByPlayer(es);
    var i :| 0 <= i < |es| && es[i].status == Queued && !IsLast(es[i].playerId, last);
    assert QueuedFor(es[i], es[i].playerId);
    assert HasKey(t, es[i].playerId);
    var j :| 0 <= j < |t| && t[j].0 == es[i].playerId;
    assert t[j] in Eligible(t, last);
    var chosen := Chosen(es, last);
    assert chosen == Eligible(t, last);
    var k := WeightedPick(chosen, Draw(chosen, u));
    var m :| 0 <= m < |chosen| && chosen[m].0 == k;
    assert chosen[m] in chosen;
  }

  /** When every queued entry either carries the key `k` or belongs to the last singer, and `k`
      is not the last singer, `k` is returned whatever the draw. */
  lemma SoleEligibleWins(es: seq<SongEntry>, last: Option<PlayerId>, u: real, k: OwnerKey)
    requires 0.0 <= u < 1.0
    requires !IsLast(k, last)
    requires SomeQueued(es, k)
    requires forall i :: 0 <= i < |es| && es[i].status == Queued ==> es[i].playerId == k || IsLast(es[i].playerId, last)
    ensures NextPlayerKey(es, last, u) == Some(k)
  {
    var t := RemainingByPlayer(es);
    var e := Eligible(t, last);
    forall p | p in e ensures p.0 == k {
      var j :| 0 <= j < |t| && t[j] == p;
      assert HasKey(t, p.0);
    }
    var j :| 0 <= j < |t| && t[j].0 == k;
    assert t[j] in e;
    assert e[0] in e;
  }

  /** An example of avoiding the last singer: A has two songs queued, B one, and A sang last;
      B is picked on every draw. */
  lemma AlternatesAwayFromLastSinger(u: real)
    requires 0.0 <= u < 1.0
    ensures
      var es := [SongEntry("s1", Some(["A"]), Owner("A"), "first", 1, None, Queued),
                 SongEntry("s2", Some(["A"]), Owner("A"), "second", 2, None, Queued),
                 SongEntry("s3", Some(["B"]), Owner("B"), "third", 3, None, Queued)];
      NextPlayerKey(es, Some("A"), u) == Some(Owner("B"))
  {
    var es := [SongEntry("s1", Some(["A"]), Owner("A"), "first", 1, None, Queued),
               SongEntry("s2", Some(["A"]), Owner("A"), "second", 2, None, Queued),
               SongEntry("s3", Some(["B"]), Owner("B"), "third", 3, None, Queued)];
    assert QueuedFor(es[2], Owner("B"));
    SoleEligibleWins(es, Some("A"), u, Owner("B"));
  }

  predicate Matches(e: SongEntry, p: PlayerId) {
    e.status == Queued && e.playerId == Owner(p)
  }

  /** Where the first element of `filter(queued, owner p).sort(by createdAt)` sits in `es`:
      the sort is stable, so it is the earliest match in list order among those with the
      smallest `createdAt`. */
  function EarliestIndex(es: seq<SongEntry>, p: PlayerId): (r: Option<nat>)
    ensures r.None? <==> forall i :: 0 <= i < |es| ==> !Matches(es[i], p)
    ensures r.Some? ==> r.value < |es| && Matches(es[r.value], p)
    ensures r.Some? ==> forall i :: 0 <= i < |es| && Matches(es[i], p) ==> es[r.value].createdAt <= es[i].createdAt
    ensures r.Some? ==> forall i :: 0 <= i < r.value && Matches(es[i], p) ==> es[r.value].createdAt < es[i].createdAt
  {
    if es == [] then None
    else
      var n := |es| - 1;
      var best := EarliestIndex(es[..n], p);
      assert forall i :: 0 <= i < n ==> es[..n][i] == es[i];
      if !Matches(es[n], p) then best
      else if best.None? || es[n].createdAt < es[best.value].createdAt then Some(n)
      else best
  }

  /** `pickNextEntryForPlayer`: the FIFO choice of that performer's next queued song, `None` if
      they have none. The model works on an immutable list, so the input is left as it was. */
  function PickNextEntryForPlayer(es: seq<SongEntry>, p: PlayerId): (r: Option<SongEntry>)
    ensures r.None? <==> forall i :: 0 <= i < |es| ==> !Matches(es[i], p)
    ensures r.Some? ==> r.value in es && Matches(r.value, p)
    ensures r.Some? ==> forall i :: 0 <= i < |es| && Matches(es[i], p) ==> r.value.createdAt <= es[i].createdAt
    ensures r.Some? ==>
              exists i :: 0 <= i < |es| && r.value == es[i] &&
                forall j :: 0 <= j < i && Matches(es[j], p) ==> es[j].createdAt > es[i].createdAt
  {
    match EarliestIndex(es, p)
    case Some(i) => Some(es[i])
    case None => None
  }

  /** The counting loop of `pickNextPlayerId`. */
  method CountRemaining(es: seq<SongEntry>) returns (t: Tally)
    ensures t == RemainingByPlayer(es)
  {
    t := [];
    for i := 0 to |es|
      invariant t == RemainingByPlayer(es[..i])
    {
      assert es[..i + 1][..i] == es[..i];
      if es[i].status == Queued {
        t := Bump(t, es[i].playerId);
      }
    }
    assert es[..|es|] == es;
  }

  /** The loop of `weightedPick`: subtract each weight from the draw, return on the first
      non-positive remainder, else the last key. */
  method WeightedPickLoop(ps: Tally, r: real) returns (k: OwnerKey)
    requires |ps| > 0
    ensures k == WeightedPick(ps, r)
  {
    var rest := r;
    var i := 0;
    while i < |ps|
      invariant 0 <= i <= |ps|
      invariant i < |ps| ==> WeightedIndex(ps[i..], rest) + i == WeightedIndex(ps, r)
      invariant i == |ps| ==> WeightedIndex(ps, r) == |ps| - 1
    {
      rest := rest - Weight(ps[i]) as real;
      if rest <= 0.0 {
        return ps[i].0;
      }
      if i + 1 < |ps| {
        assert ps[i..][1..] == ps[i + 1..];
      }
      i := i + 1;
    }
    k := ps[|ps| - 1].0;
  }

  /** `pickNextPlayerId`, as the loops of the source run it. */
  method PickNextPlayerId(es: seq<SongEntry>, last: Option<PlayerId>, u: real) returns (r: Option<OwnerKey>)
    requires 0.0 <= u < 1.0
    ensures r == NextPlayerKey(es, last, u)
  {
    var t := CountRemaining(es);
    var chosen := Eligible(t, last);
    if |chosen| == 0 {
      chosen := Holding(t);
    }
    assert chosen == Chosen(es, last);
    if |chosen| == 0 {
      return None;
    }
    var k := WeightedPickLoop(chosen, Draw(chosen, u));
    r := Some(k);
  }
}
