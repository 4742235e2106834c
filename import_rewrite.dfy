/** The two textual rewrites the pro scaffolder applies to every copied test
    file (create-fhevm-playground-pro/src/scaffolder.ts):

    - the first `import {X} from "../../../../scripts/test-helpers"` becomes
      `import { X } from "./test-helpers.js"` (a non-global `replace`);
    - every `import { ethers } from "hardhat"` with its optional `;` and its
      line feed is deleted (a global `replace` with the empty string).

    Both regular expressions are matched by hand. Each of their steps is
    deterministic except the tail `\s*;?\n` of the second one, whose
    backtracking is written out. */
module ImportRewrite {
  import opened Basics

  // ---------------------------------------------------------------------
  // Runs of characters
  // ---------------------------------------------------------------------

  /** The length of the run of `\s` characters starting at `i`; greedy, so
      the character after it (if any) is not a space. */
  function SpaceRun(s: string, i: nat): (n: nat)
    requires i <= |s|
    ensures i + n <= |s|
    ensures forall k :: i <= k < i + n ==> IsSpace(s[k])
    ensures i + n == |s| || !IsSpace(s[i + n])
    decreases |s| - i
  {
    if i < |s| && IsSpace(s[i]) then 1 + SpaceRun(s, i + 1) else 0
  }

  /** The length of the run of `[^}]` characters starting at `i`. */
  function NonBraceRun(s: string, i: nat): (n: nat)
    requires i <= |s|
    ensures i + n <= |s|
    ensures forall k :: i <= k < i + n ==> s[k] != '}'
    ensures i + n == |s| || s[i + n] == '}'
    decreases |s| - i
  {
    if i < |s| && s[i] != '}' then 1 + NonBraceRun(s, i + 1) else 0
  }

  // ---------------------------------------------------------------------
  // The test-helpers import
  // ---------------------------------------------------------------------

  /** The four-level helper path, unquoted. */
  const HelperPath: string := "../../../../scripts/test-helpers"

  /** The quoted module path the first rewrite looks for. */
  const HelperSource: string := "\"" + HelperPath + "\""

  /** What the matched import is replaced by, around the kept bindings. */
  const ReplacementHead: string := "import { "
  const ReplacementTail: string := " } from \"./test-helpers.js\""

  /** A match of the helper-import pattern: it ends before `stop`, and the
      captured binding list `([^}]+)` is `s[bindingsStart..bindingsEnd]`. */
  datatype HelperMatch = HelperMatch(bindingsStart: nat, bindingsEnd: nat, stop: nat)

  /** The part `\s+from\s+` followed by the quoted module path `src`,
      anchored at `i`: the position after the path when it matches. */
  function FromClauseAt(s: string, i: nat, src: string): (r: Option<nat>)
    requires i <= |s|
    ensures r.Some? ==> i + |src| + 6 <= r.value <= |s| && OccursAt(s, src, r.value - |src|)
  {
    var w2 := SpaceRun(s, i);
    var from := i + w2;
    if w2 == 0 || !OccursAt(s, "from", from) then None
    else
      var w3 := SpaceRun(s, from + 4);
      var quote := from + 4 + w3;
      if w3 == 0 || !OccursAt(s, src, quote) then None
      else Some(quote + |src|)
  }

  /** The pattern `import\s+{([^}]+)}\s+from\s+` followed by the quoted
      module path `src`, anchored at `p`. The rewrite uses it with
      `HelperSource`; the lemmas below hold for any path. */
  function ImportMatchAt(s: string, p: nat, src: string): (r: Option<HelperMatch>)
    requires p <= |s|
    ensures r.Some? ==>
      && p + 8 <= r.value.bindingsStart < r.value.bindingsEnd
      && r.value.bindingsEnd + |src| + 6 < r.value.stop <= |s|
      && OccursAt(s, src, r.value.stop - |src|)
  {
    if !OccursAt(s, "import", p) then None
    else
      var w1 := SpaceRun(s, p + 6);
      var brace := p + 6 + w1;
      if w1 == 0 || brace == |s| || s[brace] != '{' then None
      else
        var x := NonBraceRun(s, brace + 1);
        var close := brace + 1 + x;
        if x == 0 || close == |s| then None
        else
          match FromClauseAt(s, close + 1, src)
          case None => None
          case Some(stop) => Some(HelperMatch(brace + 1, close, stop))
  }

  /** The leftmost match at or after `from`, as a non-global `replace` finds
      it. */
  function FindImport(s: string, from: nat, src: string): (r: Option<(nat, HelperMatch)>)
    requires from <= |s|
    ensures r.Some? ==> from <= r.value.0 <= |s| && ImportMatchAt(s, r.value.0, src) == Some(r.value.1)
    ensures ImportMatchAt(s, from, src).Some? ==> r == Some((from, ImportMatchAt(s, from, src).value))
    decreases |s| - from
  {
    var here := ImportMatchAt(s, from, src);
    if here.Some? then Some((from, here.value))
    else if from == |s| then None
    else FindImport(s, from + 1, src)
  }

  /** The match found is the leftmost one, and none is found only when the
      pattern matches nowhere from `from` on. */
  lemma {:induction false} FindImportSpec(s: string, from: nat, src: string)
    requires from <= |s|
    ensures var r := FindImport(s, from, src);
      && (r.Some? ==> forall q :: from <= q < r.value.0 ==> ImportMatchAt(s, q, src).None?)
      && (r.None? ==> forall q :: from <= q <= |s| ==> ImportMatchAt(s, q, src).None?)
    decreases |s| - from
  {
    if ImportMatchAt(s, from, src).None? && from < |s| {
      FindImportSpec(s, from + 1, src);
      assert FindImport(s, from, src) == FindImport(s, from + 1, src);
      forall q | from <= q <= from ensures ImportMatchAt(s, q, src).None? { }
    }
  }

  /** The replacement text `import { $1 } from "./test-helpers.js"`. */
  function HelperReplacement(bindings: string): string {
    ReplacementHead + bindings + ReplacementTail
  }

  /** `content.replace(pattern, 'import { $1 } from "./test-helpers.js"')`
      for the pattern ending in `src`: the leftmost match, if any, is
      replaced; the text around it is kept. */
  function RewriteImport(s: string, src: string): string {
    var f := FindImport(s, 0, src);
    if f.None? then s
    else
      var p, m := f.value.0, f.value.1;
      s[..p] + HelperReplacement(s[m.bindingsStart..m.bindingsEnd]) + s[m.stop..]
  }

  /** The rewrite of a copied test file, for the four-level helper path. */
  function RewriteHelperImport(s: string): string {
    RewriteImport(s, HelperSource)
  }

  /** Where the pattern matches nowhere, the text is kept. */
  lemma RewriteImportKeeps(s: string, src: string)
    requires forall q :: 0 <= q <= |s| ==> ImportMatchAt(s, q, src).None?
    ensures RewriteImport(s, src) == s
  {
  }

  /** A test file comes back unchanged exactly when the helper pattern
      matches nowhere in it; a match always shortens it, since the removed
      import is longer than the line put in its place. */
  lemma RewriteHelperImportSpec(s: string)
    ensures RewriteHelperImport(s) == s <==> forall q :: 0 <= q <= |s| ==> ImportMatchAt(s, q, HelperSource).None?
    ensures RewriteHelperImport(s) != s ==> |RewriteHelperImport(s)| < |s|
  {
    FindImportSpec(s, 0, HelperSource);
    var f := FindImport(s, 0, HelperSource);
    if f.Some? {
      assert |HelperSource| == 34;
      assert |RewriteHelperImport(s)| < |s|;
    }
  }

  /** `t` occurs in `s` at no more than one position. */
  predicate AtMostOnce(s: string, t: string) {
    forall a, b | 0 <= a <= |s| && 0 <= b <= |s| :: OccursAt(s, t, a) && OccursAt(s, t, b) ==> a == b
  }

  /** `r[t + k]` is the `k`-th character of `h` where `h` occurs at `t`. */
  lemma OccursChar(r: string, h: string, t: int, k: nat)
    requires k < |h|
    ensures OccursAt(r, h, t) ==> r[t + k] == h[k]
  {
    if OccursAt(r, h, t) {
      assert r[t..t + |h|][k] == r[t + k];
    }
  }

  /** Two windows with the same characters hold the same occurrences. */
  lemma SameWindow(r: string, s: string, h: string, t: nat, u: nat)
    requires t + |h| <= |r| && u + |h| <= |s|
    requires forall i :: t <= i < t + |h| ==> r[i] == s[u + (i - t)]
    ensures OccursAt(r, h, t) ==> OccursAt(s, h, u)
  {
    var a, b := r[t..t + |h|], s[u..u + |h|];
    forall k | 0 <= k < |h| ensures a[k] == b[k] {
      assert r[t + k] == s[u + k];
    }
    assert a == b;
  }

  // ---------------------------------------------------------------------
  // Why the rewrite cannot be repeated
  // ---------------------------------------------------------------------

  /** `s` with `s[p..stop]` replaced by `head`, the bindings `s[bs..be]` and
      `tail`. */
  function Spliced(s: string, p: nat, bs: nat, be: nat, stop: nat, head: string, tail: string): string
    requires p <= bs <= be <= stop <= |s|
  {
    s[..p] + (head + s[bs..be] + tail) + s[stop..]
  }

  /** The length of a spliced text. */
  lemma SplicedLength(s: string, p: nat, bs: nat, be: nat, stop: nat, head: string, tail: string)
    requires p <= bs <= be <= stop <= |s|
    ensures |Spliced(s, p, bs, be, stop, head, tail)| == p + |head| + (be - bs) + |tail| + (|s| - stop)
  {
  }

  /** Before the splice the text is unchanged. */
  lemma SplicedPrefix(s: string, p: nat, bs: nat, be: nat, stop: nat, head: string, tail: string)
    requires p <= bs <= be <= stop <= |s|
    ensures var r := Spliced(s, p, bs, be, stop, head, tail);
      forall i :: 0 <= i < p ==> r[i] == s[i]
  {
  }

  /** Then comes the head. */
  lemma SplicedHead(s: string, p: nat, bs: nat, be: nat, stop: nat, head: string, tail: string)
    requires p <= bs <= be <= stop <= |s|
    ensures var r := Spliced(s, p, bs, be, stop, head, tail);
      forall k :: 0 <= k < |head| ==> r[p + k] == head[k]
  {
  }

  /** Then the bindings. */
  lemma SplicedBindings(s: string, p: nat, bs: nat, be: nat, stop: nat, head: string, tail: string)
    requires p <= bs <= be <= stop <= |s|
    ensures var r := Spliced(s, p, bs, be, stop, head, tail);
      var x0 := p + |head|;
      forall i :: x0 <= i < x0 + (be - bs) ==> r[i] == s[bs + (i - x0)]
  {
  }

  /** Then the tail. */
  lemma SplicedTail(s: string, p: nat, bs: nat, be: nat, stop: nat, head: string, tail: string)
    requires p <= bs <= be <= stop <= |s|
    ensures var r := Spliced(s, p, bs, be, stop, head, tail);
      var x1 := p + |head| + (be - bs);
      forall k :: 0 <= k < |tail| ==> r[x1 + k] == tail[k]
  {
  }

  /** And last the text after the match. */
  lemma SplicedSuffix(s: string, p: nat, bs: nat, be: nat, stop: nat, head: string, tail: string)
    requires p <= bs <= be <= stop <= |s|
    ensures var r := Spliced(s, p, bs, be, stop, head, tail);
      var b0 := p + |head| + (be - bs) + |tail|;
      forall i :: b0 <= i < |r| ==> r[i] == s[stop + (i - b0)]
  {
  }

  /** `t` occurs in `s` at position `u` and nowhere else. */
  ghost predicate OnlyAt(s: string, t: string, u: int) {
    OccursAt(s, t, u) && forall a :: OccursAt(s, t, a) ==> a == u
  }

  /** A match whose needle `h` ends at `stop` and occurs nowhere else. */
  ghost predicate Layout(s: string, h: string, p: nat, bs: nat, be: nat, stop: nat) {
    && p <= bs <= be
    && be + |h| < stop <= |s|
    && |h| >= 3
    && OnlyAt(s, h, stop - |h|)
  }

  /** No suffix of `h` starts the head and no later character of the head
      starts `h`; the properties the occurrence argument needs. */
  predicate HeadSafe(h: string, head: string)
    requires |h| >= 1
  {
    && |head| >= 2
    && head[0] != h[|h| - 1]
    && (forall k :: 0 <= k < |h| ==> h[k] != head[1])
    && (forall k :: 1 <= k < |head| ==> head[k] != h[0])
  }

  /** `h` cannot start inside the tail except at its last character, which
      then has to be `h`'s first; and `h` cannot run into the tail. */
  predicate TailSafe(h: string, tail: string)
    requires |h| >= 3
  {
    && |tail| >= 1
    && (forall k :: 0 <= k < |h| ==> h[k] != tail[0])
    && (forall k :: 0 <= k < |tail| - 1 ==> tail[k] != h[0] || (k + 2 < |tail| && tail[k + 2] != h[2]))
    && h[0] == h[|h| - 1]
  }

  lemma NoOccurrenceBefore(s: string, h: string, p: nat, bs: nat, be: nat, stop: nat, head: string, tail: string, t: nat)
    requires Layout(s, h, p, bs, be, stop)
    requires t + |h| <= p
    ensures !OccursAt(Spliced(s, p, bs, be, stop, head, tail), h, t)
  {
    SplicedLength(s, p, bs, be, stop, head, tail);
    SplicedPrefix(s, p, bs, be, stop, head, tail);
    SameWindow(Spliced(s, p, bs, be, stop, head, tail), s, h, t, t);
  }

  lemma NoOccurrenceAtHead(s: string, h: string, p: nat, bs: nat, be: nat, stop: nat, head: string, tail: string, t: nat)
    requires Layout(s, h, p, bs, be, stop) && HeadSafe(h, head)
    requires p < t + |h| && t < p + |head|
    ensures !OccursAt(Spliced(s, p, bs, be, stop, head, tail), h, t)
  {
    var r := Spliced(s, p, bs, be, stop, head, tail);
    SplicedLength(s, p, bs, be, stop, head, tail);
    SplicedHead(s, p, bs, be, stop, head, tail);
    if t + |h| == p + 1 {
      OccursChar(r, h, t, |h| - 1);
    } else if t <= p {
      assert r[p + 1] == head[1];
      OccursChar(r, h, t, p + 1 - t);
    } else {
      assert r[t] == head[t - p];
      OccursChar(r, h, t, 0);
    }
  }

  lemma NoOccurrenceInBindings(s: string, h: string, p: nat, bs: nat, be: nat, stop: nat, head: string, tail: string, t: nat)
    requires Layout(s, h, p, bs, be, stop) && TailSafe(h, tail)
    requires p + |head| <= t < p + |head| + (be - bs)
    ensures !OccursAt(Spliced(s, p, bs, be, stop, head, tail), h, t)
  {
    var r := Spliced(s, p, bs, be, stop, head, tail);
    var x0 := p + |head|;
    var x1 := x0 + (be - bs);
    SplicedLength(s, p, bs, be, stop, head, tail);
    SplicedBindings(s, p, bs, be, stop, head, tail);
    SplicedTail(s, p, bs, be, stop, head, tail);
    if t + |h| <= x1 {
      var u := bs + (t - x0);
      SameWindow(r, s, h, t, u);
    } else {
      assert r[x1] == tail[0];
      OccursChar(r, h, t, x1 - t);
    }
  }

  lemma NoOccurrenceAtTail(s: string, h: string, p: nat, bs: nat, be: nat, stop: nat, head: string, tail: string, t: nat)
    requires Layout(s, h, p, bs, be, stop) && TailSafe(h, tail)
    requires p + |head| + (be - bs) <= t < p + |head| + (be - bs) + |tail|
    ensures !OccursAt(Spliced(s, p, bs, be, stop, head, tail), h, t)
  {
    if t + 1 < p + |head| + (be - bs) + |tail| {
      NoOccurrenceInsideTail(s, h, p, bs, be, stop, head, tail, t);
    } else {
      NoOccurrenceAtTailEnd(s, h, p, bs, be, stop, head, tail, t);
    }
  }

  lemma NoOccurrenceInsideTail(s: string, h: string, p: nat, bs: nat, be: nat, stop: nat, head: string, tail: string, t: nat)
    requires Layout(s, h, p, bs, be, stop) && TailSafe(h, tail)
    requires p + |head| + (be - bs) <= t && t + 1 < p + |head| + (be - bs) + |tail|
    ensures !OccursAt(Spliced(s, p, bs, be, stop, head, tail), h, t)
  {
    var r := Spliced(s, p, bs, be, stop, head, tail);
    var k := t - (p + |head| + (be - bs));
    SplicedLength(s, p, bs, be, stop, head, tail);
    SplicedTail(s, p, bs, be, stop, head, tail);
    OccursChar(r, h, t, 0);
    assert r[t] == tail[k];
    assert tail[k] != h[0] || (k + 2 < |tail| && tail[k + 2] != h[2]);
    if k + 2 < |tail| {
      assert r[t + 2] == tail[k + 2];
      OccursChar(r, h, t, 2);
    }
  }

  lemma NoOccurrenceAtTailEnd(s: string, h: string, p: nat, bs: nat, be: nat, stop: nat, head: string, tail: string, t: nat)
    requires Layout(s, h, p, bs, be, stop) && TailSafe(h, tail)
    requires t + 1 == p + |head| + (be - bs) + |tail|
    ensures !OccursAt(Spliced(s, p, bs, be, stop, head, tail), h, t)
  {
    var r := Spliced(s, p, bs, be, stop, head, tail);
    SplicedLength(s, p, bs, be, stop, head, tail);
    SplicedSuffix(s, p, bs, be, stop, head, tail);
    if OccursAt(r, h, t) {
      OccursChar(s, h, stop - |h|, |h| - 1);
      ShiftedOccurrence(r, s, h, t, stop - 1);
    }
  }

  /** An occurrence at `t` whose characters after the first are repeated
      from `v + 1` on is an occurrence at `v` when `s[v]` starts the
      needle. */
  lemma ShiftedOccurrence(r: string, s: string, h: string, t: nat, v: nat)
    requires OccursAt(r, h, t) && |h| >= 1
    requires v + |h| <= |s| && s[v] == h[0]
    requires forall i :: t < i < t + |h| ==> r[i] == s[v + (i - t)]
    ensures OccursAt(s, h, v)
  {
    var w := s[v..v + |h|];
    forall k | 0 <= k < |h| ensures w[k] == h[k] {
      OccursChar(r, h, t, k);
      if k > 0 { assert r[t + k] == s[v + k]; }
    }
    assert w == h;
  }

  lemma NoOccurrenceAfter(s: string, h: string, p: nat, bs: nat, be: nat, stop: nat, head: string, tail: string, t: nat)
    requires Layout(s, h, p, bs, be, stop)
    requires p + |head| + (be - bs) + |tail| <= t
    ensures !OccursAt(Spliced(s, p, bs, be, stop, head, tail), h, t)
  {
    var r := Spliced(s, p, bs, be, stop, head, tail);
    var b0 := p + |head| + (be - bs) + |tail|;
    SplicedLength(s, p, bs, be, stop, head, tail);
    SplicedSuffix(s, p, bs, be, stop, head, tail);
    if t + |h| <= |r| {
      SameWindow(r, s, h, t, stop + (t - b0));
    }
  }

  /** Splicing a safe head and tail around bindings that lie before the only
      occurrence of `h` leaves no occurrence of `h` at all. */
  lemma SplicedAvoids(s: string, h: string, p: nat, bs: nat, be: nat, stop: nat, head: string, tail: string)
    requires Layout(s, h, p, bs, be, stop) && HeadSafe(h, head) && TailSafe(h, tail)
    ensures forall t :: !OccursAt(Spliced(s, p, bs, be, stop, head, tail), h, t)
  {
    forall t: int
      ensures !OccursAt(Spliced(s, p, bs, be, stop, head, tail), h, t)
    {
      if t < 0 {
      } else if t + |h| <= p {
        NoOccurrenceBefore(s, h, p, bs, be, stop, head, tail, t);
      } else if t < p + |head| {
        NoOccurrenceAtHead(s, h, p, bs, be, stop, head, tail, t);
      } else if t < p + |head| + (be - bs) {
        NoOccurrenceInBindings(s, h, p, bs, be, stop, head, tail, t);
      } else if t < p + |head| + (be - bs) + |tail| {
        NoOccurrenceAtTail(s, h, p, bs, be, stop, head, tail, t);
      } else {
        NoOccurrenceAfter(s, h, p, bs, be, stop, head, tail, t);
      }
    }
  }

  /** The replacement around the quoted helper path is safe. */
  lemma ReplacementSafe()
    ensures |HelperSource| >= 3
    ensures HeadSafe(HelperSource, ReplacementHead) && TailSafe(HelperSource, ReplacementTail)
  {
  }

  /** The bounds of a match: the bindings lie between its start and the
      quoted path that ends it. */
  ghost predicate MatchBounds(s: string, p: nat, m: HelperMatch, src: string) {
    && p <= m.bindingsStart <= m.bindingsEnd
    && m.bindingsEnd + |src| < m.stop <= |s|
    && OccursAt(s, src, m.stop - |src|)
  }

  lemma MatchHasBounds(s: string, p: nat, m: HelperMatch, src: string)
    requires p <= |s| && ImportMatchAt(s, p, src) == Some(m)
    ensures MatchBounds(s, p, m, src)
  {
  }

  /** A needle that occurs at `u` and at most once occurs only there. */
  lemma OnlyOccurrence(s: string, h: string, u: int)
    requires OccursAt(s, h, u) && AtMostOnce(s, h)
    ensures OnlyAt(s, h, u)
  {
    forall a | OccursAt(s, h, a) ensures a == u {
      assert 0 <= a <= |s| && 0 <= u <= |s|;
    }
  }

  /** After a rewrite of a text holding the quoted path at most once, the
      path occurs nowhere: the replacement does not contain it, the kept
      bindings lie before the only occurrence, and no occurrence can
      straddle the replacement's borders. */
  lemma RewriteRemovesSource(s: string, p: nat, m: HelperMatch, src: string)
    requires MatchBounds(s, p, m, src) && AtMostOnce(s, src)
    requires |src| >= 3 && HeadSafe(src, ReplacementHead) && TailSafe(src, ReplacementTail)
    ensures forall t :: !OccursAt(s[..p] + HelperReplacement(s[m.bindingsStart..m.bindingsEnd]) + s[m.stop..], src, t)
  {
    var bs, be, stop := m.bindingsStart, m.bindingsEnd, m.stop;
    OnlyOccurrence(s, src, stop - |src|);
    SplicedAvoids(s, src, p, bs, be, stop, ReplacementHead, ReplacementTail);
    assert s[..p] + HelperReplacement(s[bs..be]) + s[stop..] == Spliced(s, p, bs, be, stop, ReplacementHead, ReplacementTail);
  }

  /** Rewriting a text whose quoted path occurs at most once is idempotent:
      a second rewrite finds no match and keeps the text. */
  lemma RewriteImportIdempotent(s: string, src: string)
    requires AtMostOnce(s, src)
    requires |src| >= 3 && HeadSafe(src, ReplacementHead) && TailSafe(src, ReplacementTail)
    ensures RewriteImport(RewriteImport(s, src), src) == RewriteImport(s, src)
  {
    var f := FindImport(s, 0, src);
    if f.Some? {
      var p, m := f.value.0, f.value.1;
      var r := RewriteImport(s, src);
      MatchHasBounds(s, p, m, src);
      RewriteRemovesSource(s, p, m, src);
      forall q | 0 <= q <= |r|
        ensures ImportMatchAt(r, q, src).None?
      {
        var hm := ImportMatchAt(r, q, src);
      }
      RewriteImportKeeps(r, src);
    }
  }

  /** Rewriting a test file whose helper path occurs at most once is
      idempotent. */
  lemma HelperRewriteIdempotent(s: string)
    requires AtMostOnce(s, HelperSource)
    ensures RewriteHelperImport(RewriteHelperImport(s)) == RewriteHelperImport(s)
  {
    ReplacementSafe();
    RewriteImportIdempotent(s, HelperSource);
  }

  // ---------------------------------------------------------------------
  // The hardhat import
  // ---------------------------------------------------------------------

  /** `["']`: either quote character. */
  predicate IsQuote(c: char) {
    c == '"' || c == '\''
  }

  /** The position of the last line feed in `s[lo..hi]`, if any. */
  function LastNewline(s: string, lo: nat, hi: nat): (r: Option<nat>)
    requires lo <= hi <= |s|
    ensures r.Some? ==> lo <= r.value < hi && s[r.value] == '\n'
    ensures r.Some? ==> forall k :: r.value < k < hi ==> s[k] != '\n'
    ensures r.None? ==> forall k :: lo <= k < hi ==> s[k] != '\n'
    decreases hi - lo
  {
    if hi == lo then None
    else if s[hi - 1] == '\n' then Some(hi - 1)
    else LastNewline(s, lo, hi - 1)
  }

  /** A match of the hardhat-import pattern: the first quote of the module
      name is at `quote`, and the match ends before `stop`. */
  datatype HardhatMatch = HardhatMatch(quote: nat, stop: nat)

  /** The tail `\s*;?\n` from `i` with JavaScript's backtracking: the greedy
      run of spaces is followed by `;\n` when it can be, and otherwise the
      match gives back spaces up to the last line feed inside the run. */
  function NewlineTail(s: string, i: nat): (r: Option<nat>)
    requires i <= |s|
    ensures r.Some? ==> i < r.value <= |s| && s[r.value - 1] == '\n'
    ensures r.Some? ==> forall k :: i <= k < r.value - 1 ==> IsSpace(s[k]) || (k == r.value - 2 && s[k] == ';')
  {
    var w := SpaceRun(s, i);
    var e := i + w;
    if e + 1 < |s| && s[e] == ';' && s[e + 1] == '\n' then Some(e + 2)
    else match LastNewline(s, i, e)
      case Some(n) => Some(n + 1)
      case None => None
  }

  /** The tail fails only when every line feed after `i` comes after a
      character that is not whitespace. */
  lemma NewlineTailFails(s: string, i: nat)
    requires i <= |s| && NewlineTail(s, i).None?
    ensures forall k :: i <= k < |s| && s[k] == '\n' ==> exists j :: i <= j < k && !IsSpace(s[j])
  {
    var e := i + SpaceRun(s, i);
    assert e < |s| ==> s[e] != '\n';
    forall k | i <= k < |s| && s[k] == '\n' ensures exists j :: i <= j < k && !IsSpace(s[j]) {
      assert i <= e < k && !IsSpace(s[e]);
    }
  }

  /** `["']hardhat["']` at `quote`. */
  predicate QuotedHardhatAt(s: string, quote: nat) {
    && quote + 9 <= |s|
    && IsQuote(s[quote]) && OccursAt(s, "hardhat", quote + 1) && IsQuote(s[quote + 8])
  }

  /** `{\s*ethers\s*}\s*from\s*` from `brace`: where the module name
      starts, if the bindings and the keyword are there. */
  function EthersFromAt(s: string, brace: nat): (r: Option<nat>)
    requires brace <= |s|
    ensures r.Some? ==> brace < r.value <= |s|
  {
    if brace == |s| || s[brace] != '{' then None
    else
      var name := brace + 1 + SpaceRun(s, brace + 1);
      if !OccursAt(s, "ethers", name) then None
      else
        var close := name + 6 + SpaceRun(s, name + 6);
        if close == |s| || s[close] != '}' then None
        else
          var from := close + 1 + SpaceRun(s, close + 1);
          if !OccursAt(s, "from", from) then None
          else Some(from + 4 + SpaceRun(s, from + 4))
  }

  /** The hardhat-import pattern matched at the start of `s`:
      `import\s*{\s*ethers\s*}\s*from\s*["']hardhat["']\s*;?\n`. */
  function HardhatMatchHere(s: string): (r: Option<HardhatMatch>)
    ensures r.Some? ==> 6 < r.value.quote && r.value.quote + 9 < r.value.stop <= |s|
  {
    if !OccursAt(s, "import", 0) then None
    else
      var e := EthersFromAt(s, 6 + SpaceRun(s, 6));
      if e.None? || !QuotedHardhatAt(s, e.value) then None
      else
        var t := NewlineTail(s, e.value + 9);
        if t.None? then None else Some(HardhatMatch(e.value, t.value))
  }

  /** The pattern tried at `p`, as the global scan does: it reads the text
      from `p` on and nothing before it. */
  function HardhatMatchAt(s: string, p: nat): (r: Option<HardhatMatch>)
    requires p <= |s|
    ensures r.Some? ==> p + 6 < r.value.quote && r.value.quote + 9 < r.value.stop <= |s|
  {
    match HardhatMatchHere(s[p..])
    case Some(m) => Some(HardhatMatch(p + m.quote, p + m.stop))
    case None => None
  }

  /** Where the hardhat-import match at `p` ends, if there is one. */
  function HardhatStop(s: string, p: nat): Option<nat> {
    if p <= |s| then
      match HardhatMatchAt(s, p)
      case Some(m) => Some(m.stop)
      case None => None
    else None
  }

  /** Every match `stopAt` reports in `s` is non-empty and inside `s`. */
  predicate Advances(s: string, stopAt: (string, nat) -> Option<nat>) {
    forall q | 0 <= q <= |s| && stopAt(s, q).Some? :: q < stopAt(s, q).value <= |s|
  }

  lemma HardhatStopAdvances(s: string)
    ensures Advances(s, HardhatStop)
  {
  }

  /** A global `replace(pattern, '')` from position `i`: scanning left to
      right, every match is deleted and the scan resumes after it. */
  function DeleteMatches(s: string, i: nat, stopAt: (string, nat) -> Option<nat>): (r: string)
    requires i <= |s| && Advances(s, stopAt)
    ensures |r| <= |s| - i
    decreases |s| - i
  {
    if i == |s| then []
    else match stopAt(s, i)
      case Some(n) => DeleteMatches(s, n, stopAt)
      case None => [s[i]] + DeleteMatches(s, i + 1, stopAt)
  }

  /** The text from `i` on comes back whole exactly when no match starts
      anywhere in it. */
  lemma {:induction false} DeleteMatchesWhole(s: string, i: nat, stopAt: (string, nat) -> Option<nat>)
    requires i <= |s| && Advances(s, stopAt)
    ensures DeleteMatches(s, i, stopAt) == s[i..] <==> forall q :: i <= q < |s| ==> stopAt(s, q).None?
    decreases |s| - i
  {
    if i < |s| {
      if stopAt(s, i).Some? {
        var n := stopAt(s, i).value;
        DeleteMatchesAtMatch(s, i, stopAt);
        assert |DeleteMatches(s, n, stopAt)| <= |s| - n < |s[i..]|;
      } else {
        DeleteMatchesWhole(s, i + 1, stopAt);
        DeleteMatchesNoMatch(s, i, stopAt);
        var rest := DeleteMatches(s, i + 1, stopAt);
        assert s[i..] == [s[i]] + s[i + 1..];
        if [s[i]] + rest == s[i..] {
          assert rest == ([s[i]] + rest)[1..];
        }
      }
    }
  }

  /** Every `import { ethers } from "hardhat"` line of the text removed. */
  function StripHardhatImports(s: string): (r: string)
    ensures |r| <= |s|
  {
    HardhatStopAdvances(s);
    DeleteMatches(s, 0, HardhatStop)
  }

  /** The text comes back unchanged exactly when no hardhat import starts
      anywhere in it. */
  lemma StripHardhatSpec(s: string)
    ensures StripHardhatImports(s) == s <==> forall q :: 0 <= q < |s| ==> HardhatMatchAt(s, q).None?
  {
    HardhatStopAdvances(s);
    DeleteMatchesWhole(s, 0, HardhatStop);
    assert s[0..] == s;
    assert forall q :: 0 <= q < |s| ==> (HardhatStop(s, q).None? <==> HardhatMatchAt(s, q).None?);
  }

  /** Deleting matches only deletes: what is left is the text with some
      characters removed, in their original order. */
  lemma {:induction false} DeleteMatchesKeepsOrder(s: string, i: nat, stopAt: (string, nat) -> Option<nat>)
    requires i <= |s| && Advances(s, stopAt)
    ensures IsSubsequence(DeleteMatches(s, i, stopAt), s[i..])
    decreases |s| - i
  {
    if i < |s| {
      match stopAt(s, i)
      case Some(n) =>
        DeleteMatchesKeepsOrder(s, n, stopAt);
        assert s[i..][n - i..] == s[n..];
        SubsequenceOfSuffix(DeleteMatches(s, n, stopAt), s[i..], n - i);
      case None =>
        DeleteMatchesKeepsOrder(s, i + 1, stopAt);
        assert s[i..][1..] == s[i + 1..];
    }
  }

  lemma StripKeepsOrder(s: string)
    ensures IsSubsequence(StripHardhatImports(s), s)
  {
    HardhatStopAdvances(s);
    DeleteMatchesKeepsOrder(s, 0, HardhatStop);
    assert s[0..] == s;
  }

  // ---------------------------------------------------------------------
  // Typical lines
  // ---------------------------------------------------------------------


  /** The usual hardhat import of a premium test. */
  const EthersLine: string := "import { ethers } from \"hardhat\";\n"

  lemma SpaceRunOne(s: string, i: nat)
    requires i + 1 < |s| && IsSpace(s[i]) && !IsSpace(s[i + 1])
    ensures SpaceRun(s, i) == 1
  {
  }

  /** `t` occurs in `a + t + b` right after `a`. */
  lemma OccursBetween(a: string, t: string, b: string)
    ensures OccursAt(a + t + b, t, |a|)
  {
    assert (a + t + b)[|a|..|a| + |t|] == t;
  }

  lemma OccursInPrefix(a: string, b: string, t: string, i: nat)
    requires OccursAt(a, t, i)
    ensures OccursAt(a + b, t, i)
  {
    assert (a + b)[i..i + |t|] == a[i..i + |t|];
  }

  lemma EthersLineWordImport()
    ensures OccursAt(EthersLine, "import", 0)
  {
    assert EthersLine == "" + "import" + " { ethers } from \"hardhat\";\n";
    OccursBetween("", "import", " { ethers } from \"hardhat\";\n");
  }

  lemma EthersLineWordEthers()
    ensures OccursAt(EthersLine, "ethers", 9)
  {
    assert EthersLine == "import { " + "ethers" + " } from \"hardhat\";\n";
    OccursBetween("import { ", "ethers", " } from \"hardhat\";\n");
  }

  lemma EthersLineWordFrom()
    ensures OccursAt(EthersLine, "from", 18)
  {
    assert EthersLine == "import { ethers } " + "from" + " \"hardhat\";\n";
    OccursBetween("import { ethers } ", "from", " \"hardhat\";\n");
  }

  lemma EthersLineWordHardhat()
    ensures OccursAt(EthersLine, "hardhat", 24)
  {
    assert EthersLine == "import { ethers } from \"" + "hardhat" + "\";\n";
    OccursBetween("import { ethers } from \"", "hardhat", "\";\n");
  }

  lemma EthersLineWords(rest: string)
    ensures OccursAt(EthersLine + rest, "import", 0) && OccursAt(EthersLine + rest, "ethers", 9)
    ensures OccursAt(EthersLine + rest, "from", 18) && OccursAt(EthersLine + rest, "hardhat", 24)
  {
    EthersLineWordImport();
    OccursInPrefix(EthersLine, rest, "import", 0);
    EthersLineWordEthers();
    OccursInPrefix(EthersLine, rest, "ethers", 9);
    EthersLineWordFrom();
    OccursInPrefix(EthersLine, rest, "from", 18);
    EthersLineWordHardhat();
    OccursInPrefix(EthersLine, rest, "hardhat", 24);
  }

  lemma EthersLineChars(rest: string)
    ensures |EthersLine + rest| >= 34
    ensures forall k :: 0 <= k < 34 ==> (EthersLine + rest)[k] == EthersLine[k]
    ensures EthersLine[6] == ' ' && EthersLine[7] == '{' && EthersLine[8] == ' ' && EthersLine[9] == 'e'
    ensures EthersLine[15] == ' ' && EthersLine[16] == '}' && EthersLine[17] == ' ' && EthersLine[18] == 'f'
    ensures EthersLine[22] == ' ' && EthersLine[23] == '"' && EthersLine[31] == '"'
    ensures EthersLine[32] == ';' && EthersLine[33] == '\n'
  {
  }

  lemma EthersLineMatches(rest: string)
    ensures HardhatMatchAt(EthersLine + rest, 0) == Some(HardhatMatch(23, |EthersLine|))
  {
    EthersLineMatchesHere(rest);
    assert (EthersLine + rest)[0..] == EthersLine + rest;
  }

  lemma EthersLineMatchesHere(rest: string)
    ensures HardhatMatchHere(EthersLine + rest) == Some(HardhatMatch(23, 34))
  {
    var s := EthersLine + rest;
    EthersLineWords(rest);
    EthersLineChars(rest);
    SpaceRunOne(s, 6);
    SpaceRunOne(s, 8);
    SpaceRunOne(s, 15);
    SpaceRunOne(s, 17);
    SpaceRunOne(s, 22);
    assert EthersFromAt(s, 7) == Some(23);
    assert QuotedHardhatAt(s, 23);
    assert SpaceRun(s, 32) == 0;
    assert NewlineTail(s, 32) == Some(34);
  }

  /** The line is deleted with its `;` and line feed, and the scan resumes
      right after it. */
  lemma EthersLineStripped(rest: string)
    requires forall q :: |EthersLine| <= q < |EthersLine + rest| ==> HardhatMatchAt(EthersLine + rest, q).None?
    ensures StripHardhatImports(EthersLine + rest) == rest
  {
    var s := EthersLine + rest;
    EthersLineMatches(rest);
    HardhatStopAdvances(s);
    assert HardhatStop(s, 0).Some? && HardhatStop(s, 0).value == 34;
    DeleteMatchesAtMatch(s, 0, HardhatStop);
    assert forall q :: 34 <= q < |s| ==> HardhatStop(s, q).None?;
    DeleteMatchesWhole(s, 34, HardhatStop);
    assert s[34..] == rest;
  }

  // ---------------------------------------------------------------------
  // Text before a match
  // ---------------------------------------------------------------------

  /** A match in `t` is the same match in `a + t`, moved by `|a|`. */
  lemma HardhatStopShift(a: string, t: string, p: nat)
    requires p <= |t|
    ensures HardhatStop(a + t, |a| + p).Some? == HardhatStop(t, p).Some?
    ensures HardhatStop(t, p).Some? ==> HardhatStop(a + t, |a| + p).value == |a| + HardhatStop(t, p).value
  {
    assert (a + t)[|a| + p..] == t[p..];
  }

  /** What `stopAt` finds in `a + t` from `|a| + q` is what it finds in
      `t` from `q`, moved by `|a|`: the pattern never looks behind where it
      starts. */
  ghost predicate LooksAhead(a: string, t: string, stopAt: (string, nat) -> Option<nat>) {
    forall q :: 0 <= q <= |t| ==>
      && (stopAt(a + t, |a| + q).Some? == stopAt(t, q).Some?)
      && (stopAt(t, q).Some? ==> stopAt(a + t, |a| + q).value == |a| + stopAt(t, q).value)
  }

  lemma HardhatLooksAhead(a: string, t: string)
    ensures LooksAhead(a, t, HardhatStop)
  {
    forall q | 0 <= q <= |t|
      ensures HardhatStop(a + t, |a| + q).Some? == HardhatStop(t, q).Some?
      ensures HardhatStop(t, q).Some? ==> HardhatStop(a + t, |a| + q).value == |a| + HardhatStop(t, q).value
    {
      HardhatStopShift(a, t, q);
    }
  }

  /** One step of the scan: a match at `i` is skipped whole. */
  lemma DeleteMatchesAtMatch(s: string, i: nat, stopAt: (string, nat) -> Option<nat>)
    requires i < |s| && Advances(s, stopAt) && stopAt(s, i).Some?
    ensures DeleteMatches(s, i, stopAt) == DeleteMatches(s, stopAt(s, i).value, stopAt)
  {
  }

  /** One step of the scan: a character where no match starts is kept. */
  lemma DeleteMatchesNoMatch(s: string, i: nat, stopAt: (string, nat) -> Option<nat>)
    requires i < |s| && Advances(s, stopAt) && stopAt(s, i).None?
    ensures DeleteMatches(s, i, stopAt) == [s[i]] + DeleteMatches(s, i + 1, stopAt)
  {
  }

  /** The scan ends at the end of the text. */
  lemma DeleteMatchesEnd(s: string, stopAt: (string, nat) -> Option<nat>)
    requires Advances(s, stopAt)
    ensures DeleteMatches(s, |s|, stopAt) == []
  {
  }

  /** Deleting from `|a| + i` in `a + t` is deleting from `i` in `t`. */
  lemma {:induction false} DeleteMatchesShift(a: string, t: string, i: nat, stopAt: (string, nat) -> Option<nat>)
    requires i <= |t| && Advances(a + t, stopAt) && Advances(t, stopAt) && LooksAhead(a, t, stopAt)
    ensures DeleteMatches(a + t, |a| + i, stopAt) == DeleteMatches(t, i, stopAt)
    decreases |t| - i
  {
    if i == |t| {
      DeleteMatchesEnd(a + t, stopAt);
      DeleteMatchesEnd(t, stopAt);
    } else if stopAt(t, i).Some? {
      var n := stopAt(t, i).value;
      DeleteMatchesShift(a, t, n, stopAt);
      ShiftAtMatch(a, t, i, n, stopAt);
    } else {
      DeleteMatchesShift(a, t, i + 1, stopAt);
      ShiftNoMatch(a, t, i, stopAt);
    }
  }

  /** The step of `DeleteMatchesShift` where a match starts at `i`. */
  lemma ShiftAtMatch(a: string, t: string, i: nat, n: nat, stopAt: (string, nat) -> Option<nat>)
    requires i < |t| && Advances(a + t, stopAt) && Advances(t, stopAt) && LooksAhead(a, t, stopAt)
    requires stopAt(t, i).Some? && stopAt(t, i).value == n && n <= |t|
    requires DeleteMatches(a + t, |a| + n, stopAt) == DeleteMatches(t, n, stopAt)
    ensures DeleteMatches(a + t, |a| + i, stopAt) == DeleteMatches(t, i, stopAt)
  {
    var s := a + t;
    assert stopAt(s, |a| + i).Some? && stopAt(s, |a| + i).value == |a| + n;
    DeleteMatchesAtMatch(s, |a| + i, stopAt);
    DeleteMatchesAtMatch(t, i, stopAt);
  }

  /** The step of `DeleteMatchesShift` where no match starts at `i`. */
  lemma ShiftNoMatch(a: string, t: string, i: nat, stopAt: (string, nat) -> Option<nat>)
    requires i < |t| && Advances(a + t, stopAt) && Advances(t, stopAt) && LooksAhead(a, t, stopAt)
    requires stopAt(t, i).None?
    requires DeleteMatches(a + t, |a| + (i + 1), stopAt) == DeleteMatches(t, i + 1, stopAt)
    ensures DeleteMatches(a + t, |a| + i, stopAt) == DeleteMatches(t, i, stopAt)
  {
    var s := a + t;
    assert s[|a| + i] == t[i] && stopAt(s, |a| + i).None?;
    DeleteMatchesNoMatch(s, |a| + i, stopAt);
    DeleteMatchesNoMatch(t, i, stopAt);
  }

  /** Text in which no match starts is kept as it is. */
  lemma {:induction false} DeleteMatchesSkip(s: string, i: nat, j: nat, stopAt: (string, nat) -> Option<nat>)
    requires i <= j <= |s| && Advances(s, stopAt)
    requires forall q :: i <= q < j ==> stopAt(s, q).None?
    ensures DeleteMatches(s, i, stopAt) == s[i..j] + DeleteMatches(s, j, stopAt)
    decreases j - i
  {
    if i < j {
      DeleteMatchesNoMatch(s, i, stopAt);
      DeleteMatchesSkip(s, i + 1, j, stopAt);
      assert s[i..j] == [s[i]] + s[i + 1..j];
      ConsAppend(s[i], s[i + 1..j], DeleteMatches(s, j, stopAt), s[i..j]);
    }
  }

  lemma ConsAppend(c: char, x: string, d: string, y: string)
    requires y == [c] + x
    ensures [c] + (x + d) == y + d
  {
  }

  /** A hardhat import line after text in which no match starts is
      deleted whole: the text before it is kept and the text after it is
      stripped on its own. */
  lemma StripAfter(pre: string, rest: string)
    requires forall q :: 0 <= q < |pre| ==> HardhatMatchAt(pre + EthersLine + rest, q).None?
    ensures StripHardhatImports(pre + EthersLine + rest) == pre + StripHardhatImports(rest)
  {
    var s := pre + EthersLine + rest;
    HardhatStopAdvances(s);
    assert forall q :: 0 <= q < |pre| ==> HardhatStop(s, q).None?;
    DeleteMatchesSkip(s, 0, |pre|, HardhatStop);
    assert s[0..|pre|] == pre;
    EthersLineAfter(pre, rest);
    DeleteMatchesAtMatch(s, |pre|, HardhatStop);
    assert DeleteMatches(s, 0, HardhatStop) == pre + DeleteMatches(s, |pre| + 34, HardhatStop);
    assert s == (pre + EthersLine) + rest;
    HardhatStopAdvances(rest);
    HardhatLooksAhead(pre + EthersLine, rest);
    DeleteMatchesShift(pre + EthersLine, rest, 0, HardhatStop);
  }

  /** After any text, the hardhat import line is a match that ends with it. */
  lemma EthersLineAfter(pre: string, rest: string)
    ensures HardhatStop(pre + EthersLine + rest, |pre|) == Some(|pre| + 34)
  {
    var t := EthersLine + rest;
    assert pre + EthersLine + rest == pre + t;
    EthersLineMatches(rest);
    HardhatStopShift(pre, t, 0);
  }

  /** The first line of the premium tests. */
  const ChaiLine: string := "import { expect } from \"chai\";\n"

  /** No hardhat import starts in the `chai` line, whatever follows it. */
  lemma ChaiLineNoMatch(rest: string)
    ensures forall q :: 0 <= q < |ChaiLine| ==> HardhatMatchAt(ChaiLine + rest, q).None?
  {
    var s := ChaiLine + rest;
    forall q | 0 <= q < |ChaiLine|
      ensures HardhatMatchAt(s, q).None?
    {
      if q == 0 {
        ChaiLineStart(rest);
        assert s[0..] == s;
      } else {
        ChaiLineInside(rest, q);
      }
    }
  }

  /** At the start of the `chai` line, `import {` is followed by `expect`,
      not `ethers`. */
  lemma ChaiLineStart(rest: string)
    ensures HardhatMatchHere(ChaiLine + rest).None?
  {
    var s := ChaiLine + rest;
    assert s[6] == ' ' && s[7] == '{' && s[8] == ' ' && s[9] == 'e' && s[10] == 'x' by {
      assert s[6] == ChaiLine[6] && s[7] == ChaiLine[7] && s[8] == ChaiLine[8] && s[9] == ChaiLine[9] && s[10] == ChaiLine[10];
    }
    SpaceRunOne(s, 8);
    assert !OccursAt(s, "ethers", 9) by {
      assert s[9..15][1] == s[10];
    }
    SpaceRunOne(s, 6);
    assert EthersFromAt(s, 7) == None;
  }

  /** Past its first character the `chai` line has no `import` starting
      in it. */
  lemma ChaiLineInside(rest: string, q: nat)
    requires 0 < q < |ChaiLine|
    ensures HardhatMatchAt(ChaiLine + rest, q).None?
  {
    var s := ChaiLine + rest;
    var u := s[q..];
    assert !OccursAt(u, "import", 0) by {
      if 6 <= |u| {
        assert u[0] == ChaiLine[q] && u[1] == s[q + 1];
        assert q + 1 < |ChaiLine| ==> u[1] == ChaiLine[q + 1];
        assert u[0..6][0] == u[0] && u[0..6][1] == u[1];
      }
    }
  }

  /** The head of a premium test, `import { expect } from "chai";` and
      then the hardhat import: the first line is kept, the second deleted
      and the remaining lines stripped on their own. */
  lemma PremiumTestHeadStripped(rest: string)
    ensures StripHardhatImports(ChaiLine + EthersLine + rest) == ChaiLine + StripHardhatImports(rest)
  {
    ChaiLineNoMatch(EthersLine + rest);
    assert ChaiLine + EthersLine + rest == ChaiLine + (EthersLine + rest);
    StripAfter(ChaiLine, rest);
  }

  /** `import { <bindings> } from "<path>"` as the example tests write it. */
  function ImportLine(bindings: string, path: string): string {
    "import { " + bindings + " } from \"" + path + "\""
  }

  /** No character of `s` is `c`. */
  predicate Avoids(s: string, c: char) {
    forall k :: 0 <= k < |s| ==> s[k] != c
  }

  lemma NonBraceRunExact(s: string, i: nat, n: nat)
    requires i + n < |s| && s[i + n] == '}'
    requires forall k :: i <= k < i + n ==> s[k] != '}'
    ensures NonBraceRun(s, i) == n
  {
  }

  /** Where the pieces of an import line sit, after `n` binding characters. */
  lemma ImportLineLayout(bindings: string, path: string, rest: string)
    ensures var s := ImportLine(bindings, path) + rest;
      var n := |bindings|;
      && |s| == 19 + n + |path| + |rest|
      && OccursAt(s, "import", 0)
      && s[6] == ' ' && s[7] == '{' && s[8] == ' '
      && (forall k :: 0 <= k < n ==> s[9 + k] == bindings[k])
      && s[9 + n] == ' ' && s[10 + n] == '}' && s[11 + n] == ' '
      && OccursAt(s, "from", 12 + n) && s[16 + n] == ' '
      && s[17 + n..19 + n + |path|] == "\"" + path + "\""
      && s[19 + n + |path|..] == rest
  {
    var A, C := "import { ", " } from \"";
    var s := ImportLine(bindings, path) + rest;
    var n := |bindings|;
    assert s == A + bindings + C + path + "\"" + rest;
    assert s[0..6] == A[0..6] == "import";
    assert s[12 + n..16 + n] == C[3..7] == "from";
    assert s == (A + bindings + " } from ") + ("\"" + path + "\"") + rest;
  }

  /** A line importing through `path` matches the pattern for the quoted
      `path` from its first character; the captured binding list is the
      bindings with their surrounding spaces. */
  lemma ImportLineMatches(bindings: string, path: string, rest: string)
    requires bindings != [] && Avoids(bindings, '}')
    ensures var n := |bindings|;
      ImportMatchAt(ImportLine(bindings, path) + rest, 0, "\"" + path + "\"")
        == Some(HelperMatch(8, 10 + n, 19 + n + |path|))
  {
    var s := ImportLine(bindings, path) + rest;
    var n := |bindings|;
    ImportLineFrom(bindings, path, rest);
    ImportLineLayout(bindings, path, rest);
    SpaceRunOne(s, 6);
    NonBraceRunExact(s, 8, n + 2);
  }

  /** After the closing brace, an import line continues with the `from`
      clause through the quoted `path`. */
  lemma ImportLineFrom(bindings: string, path: string, rest: string)
    ensures var n := |bindings|;
      FromClauseAt(ImportLine(bindings, path) + rest, 11 + n, "\"" + path + "\"") == Some(19 + n + |path|)
  {
    var s := ImportLine(bindings, path) + rest;
    var n := |bindings|;
    ImportLineLayout(bindings, path, rest);
    SpaceRunOne(s, 11 + n);
    SpaceRunOne(s, 16 + n);
  }

  /** A text that starts with a match is rewritten from its first
      character. */
  lemma RewriteAtStart(s: string, m: HelperMatch, src: string)
    requires ImportMatchAt(s, 0, src) == Some(m)
    ensures RewriteImport(s, src) == HelperReplacement(s[m.bindingsStart..m.bindingsEnd]) + s[m.stop..]
  {
    var f := FindImport(s, 0, src);
    assert f.Some? && f.value.0 == 0 && f.value.1 == m;
    var h := HelperReplacement(s[m.bindingsStart..m.bindingsEnd]);
    assert s[..0] + h == h;
  }

  /** The captured bindings and what follows the match. */
  lemma ImportLineParts(bindings: string, path: string, rest: string)
    ensures var s := ImportLine(bindings, path) + rest;
      && s[8..10 + |bindings|] == " " + bindings + " "
      && s[19 + |bindings| + |path|..] == rest
  {
    var s := ImportLine(bindings, path) + rest;
    assert s == "import {" + (" " + bindings + " ") + ("} from " + "\"" + path + "\"") + rest;
  }

  /** An import line through `path` is rewritten to the copied helper next
      to the test, and the binding list is kept with the spaces around it. */
  lemma ImportLineRewritten(bindings: string, path: string, rest: string)
    requires bindings != [] && Avoids(bindings, '}')
    ensures RewriteImport(ImportLine(bindings, path) + rest, "\"" + path + "\"")
         == ReplacementHead + " " + bindings + " " + ReplacementTail + rest
  {
    var s := ImportLine(bindings, path) + rest;
    var n := |bindings|;
    ImportLineMatches(bindings, path, rest);
    RewriteAtStart(s, HelperMatch(8, 10 + n, 19 + n + |path|), "\"" + path + "\"");
    ImportLineParts(bindings, path, rest);
  }

  /** The four-level path is rewritten to the copied helper next to the
      test, and the binding list is kept (with the spaces around it). */
  lemma HelperImportRewritten(bindings: string, rest: string)
    requires bindings != [] && Avoids(bindings, '}')
    ensures RewriteHelperImport(ImportLine(bindings, HelperPath) + rest)
         == ReplacementHead + " " + bindings + " " + ReplacementTail + rest
  {
    ImportLineRewritten(bindings, HelperPath, rest);
  }

  /** Without the quoted path there is nothing to rewrite. */
  lemma NoSourceKept(s: string, src: string)
    requires forall t :: !OccursAt(s, src, t)
    ensures RewriteImport(s, src) == s
  {
    forall q | 0 <= q <= |s|
      ensures ImportMatchAt(s, q, src).None?
    {
      var m := ImportMatchAt(s, q, src);
    }
    RewriteImportKeeps(s, src);
  }

  /** An import line without quotes in its bindings or path has exactly two
      quotes, around the path. */
  lemma ImportLineQuotes(bindings: string, path: string)
    requires Avoids(bindings, '"') && Avoids(path, '"')
    ensures var s := ImportLine(bindings, path);
      var q0, q1 := 17 + |bindings|, 18 + |bindings| + |path|;
      && q1 < |s| && s[q0..q1 + 1] == "\"" + path + "\""
      && forall k :: 0 <= k < |s| && s[k] == '"' ==> k == q0 || k == q1
  {
    var s := ImportLine(bindings, path);
    var n := |bindings|;
    var q0, q1 := 17 + n, 18 + n + |path|;
    ImportLineLayout(bindings, path, "");
    assert s + "" == s;
    forall k | q0 < k < q1
      ensures s[k] != '"'
    {
      assert s[q0..q1 + 1][k - q0] == s[k];
      assert ("\"" + path + "\"")[k - q0] == path[k - q0 - 1];
    }
  }

  /** Quoting is injective. */
  lemma QuotedInjective(a: string, b: string)
    ensures "\"" + a + "\"" == "\"" + b + "\"" ==> a == b
  {
    if "\"" + a + "\"" == "\"" + b + "\"" {
      assert a == ("\"" + a + "\"")[1..|a| + 1];
      assert b == ("\"" + b + "\"")[1..|b| + 1];
    }
  }

  /** An import line through a path other than `other` is left as it is by
      the rewrite looking for the quoted `other`. */
  lemma OtherPathKept(bindings: string, path: string, other: string)
    requires Avoids(bindings, '"') && Avoids(path, '"') && path != other
    ensures RewriteImport(ImportLine(bindings, path), "\"" + other + "\"") == ImportLine(bindings, path)
  {
    var s := ImportLine(bindings, path);
    var src := "\"" + other + "\"";
    var L := |src|;
    var q0, q1 := 17 + |bindings|, 18 + |bindings| + |path|;
    ImportLineQuotes(bindings, path);
    assert src[0] == '"' && src[L - 1] == '"';
    forall t | 0 <= t
      ensures !OccursAt(s, src, t)
    {
      if OccursAt(s, src, t) {
        OccursChar(s, src, t, 0);
        OccursChar(s, src, t, L - 1);
        assert t == q0 && t + L - 1 == q1;
        QuotedInjective(path, other);
      }
    }
    NoSourceKept(s, src);
  }

  /** An import line through any other module path is left as it is. */
  lemma OtherImportKept(bindings: string, path: string)
    requires Avoids(bindings, '"') && Avoids(path, '"') && path != HelperPath
    ensures RewriteHelperImport(ImportLine(bindings, path)) == ImportLine(bindings, path)
  {
    OtherPathKept(bindings, path, HelperPath);
  }

  /** The bindings the example tests import from the helpers. */
  const HelperBindings: string := "getSignatureAndEncryption, initGateway, isMockedMode"

  /** The line of tests that import the helpers through `../scripts` is not
      rewritten. */
  lemma ScriptsPathImportKept()
    ensures RewriteHelperImport(ImportLine(HelperBindings, "../scripts/test-helpers"))
         == ImportLine(HelperBindings, "../scripts/test-helpers")
  {
    HelperBindingsAvoid();
    OtherImportKept(HelperBindings, "../scripts/test-helpers");
  }

  /** The line of a test that imports from the `fhevm` package is not
      rewritten. */
  lemma PackageImportKept()
    ensures RewriteHelperImport(ImportLine("getSignatureAndEncryption, initGateway", "fhevm"))
         == ImportLine("getSignatureAndEncryption, initGateway", "fhevm")
  {
    HelperBindingsAvoid();
    OtherImportKept("getSignatureAndEncryption, initGateway", "fhevm");
  }

  /** The line of tests that import the helpers through the four-level path
      is rewritten, keeping its bindings. */
  lemma FourLevelImportRewritten(rest: string)
    ensures RewriteHelperImport(ImportLine(HelperBindings, HelperPath) + rest)
         == ReplacementHead + " " + HelperBindings + " " + ReplacementTail + rest
  {
    HelperBindingsAvoid();
    HelperImportRewritten(HelperBindings, rest);
  }

  lemma HelperBindingsAvoid()
    ensures Avoids(HelperBindings, '"') && Avoids(HelperBindings, '}')
    ensures Avoids("getSignatureAndEncryption, initGateway", '"')
  {
    AvoidsConcat("getSignatureAndEncryption", ", initGateway", '"');
    AvoidsConcat("getSignatureAndEncryption, initGateway", ", isMockedMode", '"');
    AvoidsConcat("getSignatureAndEncryption", ", initGateway", '}');
    AvoidsConcat("getSignatureAndEncryption, initGateway", ", isMockedMode", '}');
  }

  lemma AvoidsConcat(a: string, b: string, c: char)
    requires Avoids(a, c) && Avoids(b, c)
    ensures Avoids(a + b, c)
  {
  }
}
