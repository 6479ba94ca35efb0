/** The sort-and-fuse stage of `update_file` in `modify_bot.py`: candidate
    line ranges are sorted by `start + end * 0.00001`, then one left-to-right
    scan merges every candidate that overlaps the running window or starts
    within `FUSE_OFFSET` lines of its end. */
module MatchFusion {
  import opened PyStr
  import opened Collaborators

  /** `FUSE_OFFSET`: how many lines apart two windows may be and still be fused. */
  const FuseOffset := 5

  /** The sort key `x.start + x.end * 0.00001`, as an exact real. */
  function SortKey(m: Match): real
  {
    m.start as real + m.end as real * 0.00001
  }

  predicate KeySorted(ms: seq<Match>)
  {
    forall k :: 0 <= k < |ms| - 1 ==> SortKey(ms[k]) <= SortKey(ms[k + 1])
  }

  /** Insert `m` after every element whose key is not greater, as a stable sort does. */
  function Insert(ms: seq<Match>, m: Match): (r: seq<Match>)
    requires KeySorted(ms)
    ensures KeySorted(r)
    ensures multiset(r) == multiset(ms) + multiset{m}
    ensures |r| == |ms| + 1
    ensures r[0] == m || (ms != [] && r[0] == ms[0])
  {
    if ms == [] then [m]
    else if SortKey(m) < SortKey(ms[0]) then [m] + ms
    else
      var rest := Insert(ms[1..], m);
      assert ms == [ms[0]] + ms[1..];
      [ms[0]] + rest
  }

  /** `best_matches.sort(key=...)`: a permutation ordered by the key. */
  function SortMatches(ms: seq<Match>): (r: seq<Match>)
    ensures KeySorted(r)
    ensures multiset(r) == multiset(ms)
    ensures |r| == |ms|
  {
    if ms == [] then []
    else
      assert ms == ms[..|ms| - 1] + [ms[|ms| - 1]];
      Insert(SortMatches(ms[..|ms| - 1]), ms[|ms| - 1])
  }

  /** Every end lies in `[0, 100000)`, so that `end * 0.00001` is a proper fraction. */
  predicate EndsBelowScale(ms: seq<Match>)
  {
    forall k :: 0 <= k < |ms| ==> 0 <= ms[k].end < 100000
  }

  /** Ordered by `(start, end)` lexicographically. */
  predicate LexSorted(ms: seq<Match>)
  {
    forall k :: 0 <= k < |ms| - 1 ==>
      ms[k].start < ms[k + 1].start || (ms[k].start == ms[k + 1].start && ms[k].end <= ms[k + 1].end)
  }

  predicate StartSorted(ms: seq<Match>)
  {
    forall k :: 0 <= k < |ms| - 1 ==> ms[k].start <= ms[k + 1].start
  }

  /** For ends in `[0, 100000)` the key orders two matches exactly as
      `(start, end)` does. */
  lemma KeyOrderIsLexicographic(a: Match, b: Match)
    requires 0 <= a.end < 100000 && 0 <= b.end < 100000
    ensures SortKey(a) <= SortKey(b) <==> (a.start < b.start || (a.start == b.start && a.end <= b.end))
  {
    var fa, fb := a.end as real * 0.00001, b.end as real * 0.00001;
    assert 0.0 <= fa < 1.0 && 0.0 <= fb < 1.0;
    if a.start < b.start {
      assert a.start as real + 1.0 <= b.start as real;
    } else if a.start > b.start {
      assert b.start as real + 1.0 <= a.start as real;
    }
  }

  /** The sorted candidates are ordered by `(start, end)`, hence by start. */
  lemma SortedByStart(ms: seq<Match>)
    requires EndsBelowScale(ms)
    ensures LexSorted(SortMatches(ms)) && StartSorted(SortMatches(ms))
  {
    var r := SortMatches(ms);
    forall k | 0 <= k < |r| - 1
      ensures r[k].start < r[k + 1].start || (r[k].start == r[k + 1].start && r[k].end <= r[k + 1].end)
    {
      assert r[k] in multiset(ms) && r[k + 1] in multiset(ms);
      KeyOrderIsLexicographic(r[k], r[k + 1]);
    }
  }

  /** `fuse_matches`: the smallest window covering both, with the lower score. */
  function FuseMatches(a: Match, b: Match): (r: Match)
    ensures r.start <= a.start && r.start <= b.start && (r.start == a.start || r.start == b.start)
    ensures r.end >= a.end && r.end >= b.end && (r.end == a.end || r.end == b.end)
    ensures r.score <= a.score && r.score <= b.score && (r.score == a.score || r.score == b.score)
  {
    Match(Min(a.start, b.start), Max(a.end, b.end), if a.score <= b.score then a.score else b.score)
  }

  /** The fuse condition of the scan. */
  predicate Touches(cur: Match, next: Match)
  {
    cur.end > next.start || Abs(cur.end - next.start) <= FuseOffset
  }

  /** The windows the scan emits from position `i` on, given the running window `cur`. */
  function FuseFrom(ms: seq<Match>, cur: Match, i: nat): seq<Match>
    requires i <= |ms|
    decreases |ms| - i
  {
    if i == |ms| then [cur]
    else if Touches(cur, ms[i]) then FuseFrom(ms, FuseMatches(cur, ms[i]), i + 1)
    else [cur] + FuseFrom(ms, ms[i], i + 1)
  }

  /** The fused, deduplicated windows of a non-empty candidate list. */
  function Fuse(ms: seq<Match>): seq<Match>
    requires |ms| >= 1
  {
    FuseFrom(ms, ms[0], 1)
  }

  /** The scan of `update_file`: `current_match` and `deduped_matches`. */
  method FuseLoop(ms: seq<Match>) returns (deduped: seq<Match>)
    requires |ms| >= 1
    ensures deduped == Fuse(ms)
  {
    var current := ms[0];
    deduped := [];
    for i := 1 to |ms|
      invariant deduped + FuseFrom(ms, current, i) == Fuse(ms)
    {
      var next := ms[i];
      if Touches(current, next) {
        current := FuseMatches(current, next);
      } else {
        assert deduped + FuseFrom(ms, current, i) == (deduped + [current]) + FuseFrom(ms, next, i + 1);
        deduped := deduped + [current];
        current := next;
      }
    }
    deduped := deduped + [current];
  }

  /** Between 1 and `|ms| - i + 1` windows. */
  lemma {:induction false} FuseFromCount(ms: seq<Match>, cur: Match, i: nat)
    requires i <= |ms|
    ensures 1 <= |FuseFrom(ms, cur, i)| <= |ms| - i + 1
    decreases |ms| - i
  {
    if i < |ms| {
      if Touches(cur, ms[i]) {
        FuseFromCount(ms, FuseMatches(cur, ms[i]), i + 1);
      } else {
        FuseFromCount(ms, ms[i], i + 1);
      }
    }
  }

  /** Fusing never adds windows, and a non-empty list keeps at least one. */
  lemma FuseCount(ms: seq<Match>)
    requires |ms| >= 1
    ensures 1 <= |Fuse(ms)| <= |ms|
  {
    FuseFromCount(ms, ms[0], 1);
  }

  predicate Covers(w: Match, m: Match)
  {
    w.start <= m.start && m.end <= w.end
  }

  /** The first window covers the running window, and every later candidate lies
      inside some window. */
  lemma {:induction false} FuseFromCovers(ms: seq<Match>, cur: Match, i: nat)
    requires i <= |ms|
    ensures FuseFrom(ms, cur, i) != [] && Covers(FuseFrom(ms, cur, i)[0], cur)
    ensures forall j :: i <= j < |ms| ==>
      exists k :: 0 <= k < |FuseFrom(ms, cur, i)| && Covers(FuseFrom(ms, cur, i)[k], ms[j])
    decreases |ms| - i
  {
    if i < |ms| {
      var F := FuseFrom(ms, cur, i);
      if Touches(cur, ms[i]) {
        FuseFromCovers(ms, FuseMatches(cur, ms[i]), i + 1);
        assert Covers(F[0], ms[i]);
      } else {
        var rest := FuseFrom(ms, ms[i], i + 1);
        FuseFromCovers(ms, ms[i], i + 1);
        assert F == [cur] + rest;
        forall j | i <= j < |ms|
          ensures exists k :: 0 <= k < |F| && Covers(F[k], ms[j])
        {
          var k' :| 0 <= k' < |rest| && Covers(rest[k'], ms[j]);
          assert F[k' + 1] == rest[k'];
        }
      }
    }
  }

  /** Every candidate lies inside some fused window. */
  lemma FuseCovers(ms: seq<Match>)
    requires |ms| >= 1
    ensures forall j :: 0 <= j < |ms| ==> exists k :: 0 <= k < |Fuse(ms)| && Covers(Fuse(ms)[k], ms[j])
  {
    FuseFromCovers(ms, ms[0], 1);
    assert Covers(Fuse(ms)[0], ms[0]);
  }

  /** Consecutive windows are more than `FuseOffset` lines apart. */
  predicate Separated(ws: seq<Match>)
  {
    forall k :: 0 <= k < |ws| - 1 ==> ws[k + 1].start - ws[k].end > FuseOffset
  }

  /** For start-sorted candidates the first window starts where the running one
      does, and the windows are separated. */
  lemma {:induction false} FuseFromSeparated(ms: seq<Match>, cur: Match, i: nat)
    requires i <= |ms| && StartSorted(ms)
    requires i < |ms| ==> cur.start <= ms[i].start
    ensures FuseFrom(ms, cur, i) != [] && FuseFrom(ms, cur, i)[0].start == cur.start
    ensures Separated(FuseFrom(ms, cur, i))
    decreases |ms| - i
  {
    if i < |ms| {
      if Touches(cur, ms[i]) {
        FuseFromSeparated(ms, FuseMatches(cur, ms[i]), i + 1);
      } else {
        var rest := FuseFrom(ms, ms[i], i + 1);
        FuseFromSeparated(ms, ms[i], i + 1);
        assert FuseFrom(ms, cur, i) == [cur] + rest;
      }
    }
  }

  /** Between consecutive fused windows of start-sorted candidates,
      `next.start - prev.end > 5`. */
  lemma FuseSeparated(ms: seq<Match>)
    requires |ms| >= 1 && StartSorted(ms)
    ensures Separated(Fuse(ms))
  {
    FuseFromSeparated(ms, ms[0], 1);
  }

  predicate WellFormed(ms: seq<Match>)
  {
    forall k :: 0 <= k < |ms| ==> ms[k].start <= ms[k].end
  }

  /** Windows fused from well-formed ranges are well formed. */
  lemma {:induction false} FuseFromWellFormed(ms: seq<Match>, cur: Match, i: nat)
    requires i <= |ms| && WellFormed(ms) && cur.start <= cur.end
    ensures WellFormed(FuseFrom(ms, cur, i))
    decreases |ms| - i
  {
    if i < |ms| {
      if Touches(cur, ms[i]) {
        FuseFromWellFormed(ms, FuseMatches(cur, ms[i]), i + 1);
      } else {
        FuseFromWellFormed(ms, ms[i], i + 1);
        assert FuseFrom(ms, cur, i) == [cur] + FuseFrom(ms, ms[i], i + 1);
      }
    }
  }

  /** Any earlier window ends before any later window starts. */
  predicate Disjoint(ws: seq<Match>)
  {
    forall a, b :: 0 <= a < b < |ws| ==> ws[a].end < ws[b].start
  }

  lemma {:induction false} SeparatedDisjoint(ws: seq<Match>)
    requires Separated(ws) && WellFormed(ws)
    ensures Disjoint(ws) && StartSorted(ws)
  {
    forall a, b | 0 <= a < b < |ws|
      ensures ws[a].end < ws[b].start
    {
      SeparatedChain(ws, a, b);
    }
  }

  lemma {:induction false} SeparatedChain(ws: seq<Match>, a: nat, b: nat)
    requires Separated(ws) && WellFormed(ws) && a < b < |ws|
    ensures ws[a].end < ws[b].start
    decreases b - a
  {
    if a + 1 < b {
      SeparatedChain(ws, a, b - 1);
    }
  }

  /** For start-sorted, well-formed candidates the fused windows are sorted by
      start and pairwise disjoint. */
  lemma FuseDisjoint(ms: seq<Match>)
    requires |ms| >= 1 && StartSorted(ms) && WellFormed(ms)
    ensures Disjoint(Fuse(ms)) && StartSorted(Fuse(ms))
  {
    FuseSeparated(ms);
    FuseFromWellFormed(ms, ms[0], 1);
    SeparatedDisjoint(Fuse(ms));
  }

  /** Separated windows pass through a second scan unchanged. */
  lemma {:induction false} FuseFromSeparatedIdentity(ws: seq<Match>, i: nat)
    requires 1 <= i <= |ws| && Separated(ws)
    ensures FuseFrom(ws, ws[i - 1], i) == ws[i - 1..]
    decreases |ws| - i
  {
    if i < |ws| {
      assert !Touches(ws[i - 1], ws[i]);
      FuseFromSeparatedIdentity(ws, i + 1);
      assert ws[i - 1..] == [ws[i - 1]] + ws[i..];
    }
  }

  /** Sort then fuse, as `update_file` does: for well-formed candidates whose
      ends are below the key's scale, the windows are sorted by start, pairwise
      disjoint, more than `FuseOffset` lines apart, no more numerous than the
      candidates, and cover every candidate. */
  lemma SortAndFuse(ms: seq<Match>)
    requires |ms| >= 1 && EndsBelowScale(ms) && WellFormed(ms)
    ensures |SortMatches(ms)| >= 1
    ensures var ws := Fuse(SortMatches(ms));
      1 <= |ws| <= |ms| && StartSorted(ws) && Disjoint(ws) && Separated(ws)
      && forall j :: 0 <= j < |ms| ==> exists k :: 0 <= k < |ws| && Covers(ws[k], ms[j])
  {
    var sorted := SortMatches(ms);
    SortedByStart(ms);
    forall k | 0 <= k < |sorted|
      ensures sorted[k].start <= sorted[k].end
    {
      assert sorted[k] in multiset(sorted);
      assert sorted[k] in ms;
    }
    FuseSeparated(sorted);
    FuseDisjoint(sorted);
    FuseCount(sorted);
    FuseCovers(sorted);
    var ws := Fuse(sorted);
    forall j | 0 <= j < |ms|
      ensures exists k :: 0 <= k < |ws| && Covers(ws[k], ms[j])
    {
      assert ms[j] in multiset(ms);
      assert ms[j] in sorted;
      var i :| 0 <= i < |sorted| && sorted[i] == ms[j];
      var k :| 0 <= k < |ws| && Covers(ws[k], sorted[i]);
    }
  }

  /** Fusing is idempotent on start-sorted candidates. */
  lemma FuseIdempotent(ms: seq<Match>)
    requires |ms| >= 1 && StartSorted(ms)
    ensures |Fuse(ms)| >= 1 && Fuse(Fuse(ms)) == Fuse(ms)
  {
    FuseSeparated(ms);
    FuseCount(ms);
    FuseFromSeparatedIdentity(Fuse(ms), 1);
  }

  /** The window `fuse_matches` folds a group of candidates into. */
  function FuseAll(g: seq<Match>): Match
    requires |g| >= 1
  {
    if |g| == 1 then g[0] else FuseMatches(FuseAll(g[..|g| - 1]), g[|g| - 1])
  }

  /** A folded window starts at the least start, ends at the greatest end and
      has the least score of its group, each attained by a member. */
  lemma {:induction false} FuseAllExtremes(g: seq<Match>)
    requires |g| >= 1
    ensures forall k :: 0 <= k < |g| ==>
      FuseAll(g).start <= g[k].start && g[k].end <= FuseAll(g).end && FuseAll(g).score <= g[k].score
    ensures exists k :: 0 <= k < |g| && FuseAll(g).start == g[k].start
    ensures exists k :: 0 <= k < |g| && FuseAll(g).end == g[k].end
    ensures exists k :: 0 <= k < |g| && FuseAll(g).score == g[k].score
  {
    if |g| > 1 {
      var init := g[..|g| - 1];
      FuseAllExtremes(init);
      assert forall k :: 0 <= k < |init| ==> init[k] == g[k];
      var a, b := FuseAll(init), g[|g| - 1];
      var r := FuseAll(g);
      if r.start == b.start { assert g[|g| - 1].start == r.start; }
      else { var k :| 0 <= k < |init| && a.start == init[k].start; assert g[k].start == r.start; }
      if r.end == b.end { assert g[|g| - 1].end == r.end; }
      else { var k :| 0 <= k < |init| && a.end == init[k].end; assert g[k].end == r.end; }
      if r.score == b.score { assert g[|g| - 1].score == r.score; }
      else { var k :| 0 <= k < |init| && a.score == init[k].score; assert g[k].score == r.score; }
    }
  }

  /** The groups of consecutive candidates the scan merges, from position `i`
      on, with `g` the group being grown. */
  function GroupsFrom(ms: seq<Match>, g: seq<Match>, i: nat): (r: seq<seq<Match>>)
    requires |g| >= 1 && i <= |ms|
    ensures forall k :: 0 <= k < |r| ==> |r[k]| >= 1
    decreases |ms| - i
  {
    if i == |ms| then [g]
    else if Touches(FuseAll(g), ms[i]) then GroupsFrom(ms, g + [ms[i]], i + 1)
    else [g] + GroupsFrom(ms, [ms[i]], i + 1)
  }

  function Groups(ms: seq<Match>): (r: seq<seq<Match>>)
    requires |ms| >= 1
    ensures forall k :: 0 <= k < |r| ==> |r[k]| >= 1
  {
    GroupsFrom(ms, [ms[0]], 1)
  }

  function Flatten(gs: seq<seq<Match>>): seq<Match>
  {
    if gs == [] then [] else gs[0] + Flatten(gs[1..])
  }

  /** The window of each group. */
  function Windows(gs: seq<seq<Match>>): (r: seq<Match>)
    requires forall k :: 0 <= k < |gs| ==> |gs[k]| >= 1
    ensures |r| == |gs|
  {
    seq(|gs|, k requires 0 <= k < |gs| => FuseAll(gs[k]))
  }

  lemma {:induction false} GroupsFromFlatten(ms: seq<Match>, g: seq<Match>, i: nat)
    requires |g| >= 1 && i <= |ms|
    ensures Flatten(GroupsFrom(ms, g, i)) == g + ms[i..]
    decreases |ms| - i
  {
    if i == |ms| {
      assert Flatten([g]) == g + Flatten([]);
    } else if Touches(FuseAll(g), ms[i]) {
      GroupsFromFlatten(ms, g + [ms[i]], i + 1);
      assert ms[i..] == [ms[i]] + ms[i + 1..];
    } else {
      var rest := GroupsFrom(ms, [ms[i]], i + 1);
      GroupsFromFlatten(ms, [ms[i]], i + 1);
      assert ([g] + rest)[1..] == rest;
      assert ms[i..] == [ms[i]] + ms[i + 1..];
    }
  }

  lemma {:induction false} GroupsFromWindows(ms: seq<Match>, g: seq<Match>, i: nat)
    requires |g| >= 1 && i <= |ms|
    ensures FuseFrom(ms, FuseAll(g), i) == Windows(GroupsFrom(ms, g, i))
    decreases |ms| - i
  {
    if i < |ms| {
      if Touches(FuseAll(g), ms[i]) {
        var g' := g + [ms[i]];
        assert g'[..|g'| - 1] == g;
        assert FuseAll(g') == FuseMatches(FuseAll(g), ms[i]);
        GroupsFromWindows(ms, g', i + 1);
      } else {
        var rest := GroupsFrom(ms, [ms[i]], i + 1);
        GroupsFromWindows(ms, [ms[i]], i + 1);
        assert Windows([g] + rest) == [FuseAll(g)] + Windows(rest);
      }
    }
  }

  /** The scan partitions the candidates into consecutive non-empty groups and
      emits, for each group, the window `fuse_matches` folds it into. With
      `FuseAllExtremes` this says each window's score is the least score of the
      candidates merged into it. */
  lemma FuseIsWindowsOfGroups(ms: seq<Match>)
    requires |ms| >= 1
    ensures Flatten(Groups(ms)) == ms
    ensures Fuse(ms) == Windows(Groups(ms))
  {
    GroupsFromFlatten(ms, [ms[0]], 1);
    assert [ms[0]] + ms[1..] == ms;
    GroupsFromWindows(ms, [ms[0]], 1);
  }
}
