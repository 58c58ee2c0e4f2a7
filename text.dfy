/** The string primitives the core relies on — `toLowerCase`, `includes`, `trim` and
    `split(/\s+/)` — restricted to ASCII letters and ASCII whitespace. */
module Text {

  /** ASCII whitespace as matched by `\s` and removed by `trim`. */
  predicate IsSpace(c: char) {
    c == ' ' || c == '\t' || c == '\n' || c == '\r' || c == '\U{000B}' || c == '\U{000C}'
  }

  predicate NoSpace(w: string) {
    forall i :: 0 <= i < |w| ==> !IsSpace(w[i])
  }

  function LowerChar(c: char): char {
    if 'A' <= c <= 'Z' then (c as int + 32) as char else c
  }

  /** `toLowerCase` on ASCII letters (the source's `norm`). */
  function Lower(s: string): (r: string)
    ensures |r| == |s|
    ensures forall i :: 0 <= i < |s| ==> r[i] == LowerChar(s[i])
  {
    if s == [] then [] else [LowerChar(s[0])] + Lower(s[1..])
  }

  /** Lower-casing a lower-cased string changes nothing. */
  lemma LowerIdempotent(s: string)
    ensures Lower(Lower(s)) == Lower(s)
  {
    var l := Lower(s);
    assert forall i :: 0 <= i < |l| ==> Lower(l)[i] == l[i];
  }

  predicate OccursAt(s: string, sub: string, i: nat) {
    i + |sub| <= |s| && s[i..i + |sub|] == sub
  }

  /** `s.includes(sub)`. */
  predicate Contains(s: string, sub: string)
    ensures Contains(s, sub) ==> |sub| <= |s|
    ensures sub == [] ==> Contains(s, sub)
  {
    assert sub == [] ==> OccursAt(s, sub, 0);
    exists i: nat :: i <= |s| && OccursAt(s, sub, i)
  }

  lemma ContainsSelf(s: string)
    ensures Contains(s, s)
  {
    assert OccursAt(s, s, 0);
  }

  /** A string that contains `sub + more` contains `sub`. */
  lemma ContainsPrefixOf(s: string, sub: string, more: string)
    requires Contains(s, sub + more)
    ensures Contains(s, sub)
  {
    var i: nat :| i <= |s| && OccursAt(s, sub + more, i);
    assert s[i..i + |sub|] == (sub + more)[..|sub|];
    assert OccursAt(s, sub, i);
  }

  /** `trimStart`: the suffix left after dropping leading whitespace. */
  function TrimStart(s: string): (r: string)
    ensures |r| <= |s| && r == s[|s| - |r|..]
    ensures forall j :: 0 <= j < |s| - |r| ==> IsSpace(s[j])
    ensures r == [] || !IsSpace(r[0])
  {
    if s != [] && IsSpace(s[0]) then
      var r := TrimStart(s[1..]);
      assert s[1..][|s| - 1 - |r|..] == s[|s| - |r|..];
      assert forall j :: 1 <= j < |s| - |r| ==> s[j] == s[1..][j - 1];
      r
    else s
  }

  /** `trimEnd`: the prefix left after dropping trailing whitespace. */
  function TrimEnd(s: string): (r: string)
    ensures |r| <= |s| && r == s[..|r|]
    ensures forall j :: |r| <= j < |s| ==> IsSpace(s[j])
    ensures r == [] || !IsSpace(r[|r| - 1])
  {
    if s != [] && IsSpace(s[|s| - 1]) then
      var r := TrimEnd(s[..|s| - 1]);
      assert s[..|s| - 1][..|r|] == s[..|r|];
      r
    else s
  }

  /** `r` occurs in `s` at `k` with only whitespace before and after it. */
  predicate PaddedAt(s: string, r: string, k: nat) {
    OccursAt(s, r, k) && Blank(s[..k]) && Blank(s[k + |r|..])
  }

  /** A prefix `r` of a suffix `t` of `s`, with only whitespace outside it, is padded in `s`. */
  lemma PaddedFromParts(s: string, t: string, r: string)
    requires |t| <= |s| && t == s[|s| - |t|..]
    requires |r| <= |t| && r == t[..|r|]
    requires forall j :: 0 <= j < |s| - |t| ==> IsSpace(s[j])
    requires forall j :: |r| <= j < |t| ==> IsSpace(t[j])
    ensures PaddedAt(s, r, |s| - |t|)
  {
    var k := |s| - |t|;
    assert s[k..k + |r|] == r;
    var front := s[..k];
    assert forall j :: 0 <= j < |front| ==> front[j] == s[j];
    var back := s[k + |r|..];
    assert forall j :: 0 <= j < |back| ==> back[j] == t[|r| + j];
  }

  /** `trim`: the input with its leading and trailing whitespace removed, and nothing else. */
  function Trim(s: string): (r: string)
    ensures r == [] || (!IsSpace(r[0]) && !IsSpace(r[|r| - 1]))
    ensures |r| <= |s| && Contains(s, r)
    ensures exists k: nat :: PaddedAt(s, r, k)
  {
    var t := TrimStart(s);
    var r := TrimEnd(t);
    PaddedFromParts(s, t, r);
    r
  }

  /** Trimming a trimmed string changes nothing. */
  lemma TrimIdempotent(s: string)
    ensures Trim(Trim(s)) == Trim(s)
  {
    var r := Trim(s);
    assert TrimStart(r) == r;
    assert TrimEnd(r) == r;
  }

  lemma {:induction false} TrimStartAllSpace(a: string)
    requires forall j :: 0 <= j < |a| ==> IsSpace(a[j])
    ensures TrimStart(a) == []
  {
    if a != [] {
      TrimStartAllSpace(a[1..]);
    }
  }

  lemma {:induction false} TrimStartSkipsSpace(a: string, s: string)
    requires forall j :: 0 <= j < |a| ==> IsSpace(a[j])
    ensures TrimStart(a + s) == TrimStart(s)
  {
    if a != [] {
      var joined := a + s;
      assert joined[0] == a[0] && IsSpace(joined[0]);
      assert joined[1..] == a[1..] + s;
      assert TrimStart(joined) == TrimStart(joined[1..]);
      TrimStartSkipsSpace(a[1..], s);
    } else {
      assert a + s == s;
    }
  }

  lemma {:induction false} TrimEndSkipsSpace(s: string, b: string)
    requires forall j :: 0 <= j < |b| ==> IsSpace(b[j])
    ensures TrimEnd(s + b) == TrimEnd(s)
  {
    if b != [] {
      assert (s + b)[..|s + b| - 1] == s + b[..|b| - 1];
      TrimEndSkipsSpace(s, b[..|b| - 1]);
    } else {
      assert s + b == s;
    }
  }

  lemma {:induction false} TrimStartAppend(s: string, b: string)
    ensures TrimStart(s + b) == if TrimStart(s) == [] then TrimStart(b) else TrimStart(s) + b
  {
    if s == [] {
      assert s + b == b;
    } else if IsSpace(s[0]) {
      assert (s + b)[1..] == s[1..] + b;
      TrimStartAppend(s[1..], b);
    }
  }

  /** Whitespace around a string does not survive `trim`. */
  lemma TrimIgnoresPadding(a: string, s: string, b: string)
    requires forall j :: 0 <= j < |a| ==> IsSpace(a[j])
    requires forall j :: 0 <= j < |b| ==> IsSpace(b[j])
    ensures Trim(a + s + b) == Trim(s)
  {
    assert a + s + b == a + (s + b);
    TrimStartSkipsSpace(a, s + b);
    TrimStartAppend(s, b);
    if TrimStart(s) == [] {
      TrimStartAllSpace(b);
    } else {
      TrimEndSkipsSpace(TrimStart(s), b);
    }
  }

  /** `s` is empty or all whitespace. */
  predicate Blank(s: string) {
    forall i :: 0 <= i < |s| ==> IsSpace(s[i])
  }

  /** `s.trim()` is falsy exactly when `s` is blank. */
  lemma TrimEmptyIffBlank(s: string)
    ensures Trim(s) == [] <==> Blank(s)
  {
    var t := TrimStart(s);
    if Blank(s) {
      TrimStartAllSpace(s);
    } else {
      var i :| 0 <= i < |s| && !IsSpace(s[i]);
      assert t != [];
      assert !IsSpace(t[0]);
    }
  }

  /** `s` has at least two characters that are not whitespace. */
  predicate TwoVisible(s: string) {
    exists i, j :: 0 <= i < j < |s| && !IsSpace(s[i]) && !IsSpace(s[j])
  }

  /** A middle part `r` of `s` with two or more characters, not whitespace at either end,
      holds two visible characters of `s`. */
  lemma TrimmedTwoAreVisible(s: string, t: string, r: string)
    requires |t| <= |s| && t == s[|s| - |t|..]
    requires 2 <= |r| <= |t| && r == t[..|r|]
    requires !IsSpace(r[0]) && !IsSpace(r[|r| - 1])
    ensures TwoVisible(s)
  {
    var off := |s| - |t|;
    assert s[off] == r[0];
    assert s[off + |r| - 1] == r[|r| - 1];
  }

  /** When only whitespace lies outside the middle part `r` of `s`, two visible characters of
      `s` both lie in `r`. */
  lemma VisibleTwoAreTrimmed(s: string, t: string, r: string, i: nat, j: nat)
    requires |t| <= |s| && t == s[|s| - |t|..]
    requires forall k :: 0 <= k < |s| - |t| ==> IsSpace(s[k])
    requires |r| <= |t| && r == t[..|r|]
    requires forall k :: |r| <= k < |t| ==> IsSpace(t[k])
    requires i < j < |s| && !IsSpace(s[i]) && !IsSpace(s[j])
    ensures |r| >= 2
  {
    var off := |s| - |t|;
    assert off <= i;
    assert t[j - off] == s[j];
  }

  /** Two characters left by `trim` are two visible characters of the input. */
  lemma TrimmedTwoGivesVisible(s: string)
    requires |Trim(s)| >= 2
    ensures TwoVisible(s)
  {
    var t := TrimStart(s);
    TrimmedTwoAreVisible(s, t, TrimEnd(t));
  }

  /** Two visible characters of the input are both left by `trim`. */
  lemma VisibleGivesTrimmedTwo(s: string)
    requires TwoVisible(s)
    ensures |Trim(s)| >= 2
  {
    var i, j :| 0 <= i < j < |s| && !IsSpace(s[i]) && !IsSpace(s[j]);
    var t := TrimStart(s);
    VisibleTwoAreTrimmed(s, t, TrimEnd(t), i, j);
  }

  /** The trimmed string has at least two characters exactly when the untrimmed one has two
      that are not whitespace. */
  lemma TrimAtLeastTwo(s: string)
    ensures |Trim(s)| >= 2 <==> TwoVisible(s)
  {
    if |Trim(s)| >= 2 {
      TrimmedTwoGivesVisible(s);
    }
    if TwoVisible(s) {
      VisibleGivesTrimmedTwo(s);
    }
  }

  /** Length of the leading run of non-whitespace characters. */
  function RunLength(s: string): (n: nat)
    ensures n <= |s|
    ensures forall i :: 0 <= i < n ==> !IsSpace(s[i])
    ensures n < |s| ==> IsSpace(s[n])
  {
    if s == [] || IsSpace(s[0]) then 0 else 1 + RunLength(s[1..])
  }

  /** A run stops at the first whitespace character, wherever the string goes on after it. */
  lemma {:induction false} RunLengthStopsAtSpace(a: string, c: char, b: string)
    requires IsSpace(c)
    ensures RunLength(a + [c] + b) == RunLength(a)
  {
    if a == [] {
      assert (a + [c] + b)[0] == c;
    } else {
      assert (a + [c] + b)[0] == a[0];
      assert (a + [c] + b)[1..] == a[1..] + [c] + b;
      RunLengthStopsAtSpace(a[1..], c, b);
    }
  }

  /** The non-empty pieces of `s.split(/\s+/)`: its maximal runs of non-whitespace.
      (The split may also yield "" at either end; every caller drops it with a length filter.) */
  function Words(s: string): (ws: seq<string>)
    ensures forall w :: w in ws ==> w != [] && NoSpace(w)
    decreases |s|
  {
    if s == [] then []
    else if IsSpace(s[0]) then Words(s[1..])
    else
      var n := RunLength(s);
      [s[..n]] + Words(s[n..])
  }

  /** A string without whitespace is one word. */
  lemma WordsOfWord(w: string)
    requires w != [] && NoSpace(w)
    ensures Words(w) == [w]
  {
    assert RunLength(w) == |w|;
    assert w[..|w|] == w;
    assert w[|w|..] == [];
  }

  /** Leading whitespace produces no word. */
  lemma WordsSkipSpace(s: string)
    requires s != [] && IsSpace(s[0])
    ensures Words(s) == Words(s[1..])
  {
  }

  /** A leading run of non-whitespace is the first word. */
  lemma WordsTakeRun(s: string)
    requires s != [] && !IsSpace(s[0])
    ensures Words(s) == [s[..RunLength(s)]] + Words(s[RunLength(s)..])
  {
  }

  /** Whitespace separates words: splitting at a whitespace character splits the word list. */
  lemma {:induction false} WordsSplitAtSpace(a: string, c: char, b: string)
    requires IsSpace(c)
    ensures Words(a + [c] + b) == Words(a) + Words(b)
    decreases |a|
  {
    var s := a + [c] + b;
    if a == [] {
      assert s[0] == c && s[1..] == b;
      WordsSkipSpace(s);
    } else if IsSpace(a[0]) {
      assert s[0] == a[0];
      assert s[1..] == a[1..] + [c] + b;
      WordsSkipSpace(s);
      WordsSkipSpace(a);
      WordsSplitAtSpace(a[1..], c, b);
    } else {
      assert s[0] == a[0];
      RunLengthStopsAtSpace(a, c, b);
      var n := RunLength(a);
      WordsTakeRun(s);
      WordsTakeRun(a);
      assert s[..n] == a[..n];
      assert s[n..] == a[n..] + [c] + b;
      WordsSplitAtSpace(a[n..], c, b);
    }
  }
}
