/** The snippet stages of `update_file` in `modify_bot.py` after the windows
    are fixed: cutting the snippets out of the file, pruning them by index,
    chaining the update bot's hunks per snippet index, recombining the
    updated snippets, and restoring the file's trailing newlines. */
module Patching {
  import opened Wrappers
  import opened PyStr
  import opened Collaborators

  /** The file lines a window spans, joined back with "\n". */
  function SelectSnippet(lines: seq<string>, w: Match): string
  {
    Join(Slice(lines, w.start, w.end), "\n")
  }

  /** `selected_snippets`: one snippet per window, in window order. */
  function SelectSnippets(file: string, ws: seq<Match>): (r: seq<string>)
    ensures |r| == |ws|
  {
    var lines := Split(file, '\n');
    seq(|ws|, k requires 0 <= k < |ws| => SelectSnippet(lines, ws[k]))
  }

  /** The loop building `selected_snippets`. */
  method SelectLoop(file: string, ws: seq<Match>) returns (snippets: seq<string>)
    ensures snippets == SelectSnippets(file, ws)
  {
    var lines := Split(file, '\n');
    snippets := [];
    for k := 0 to |ws|
      invariant snippets == SelectSnippets(file, ws[..k])
    {
      snippets := snippets + [Join(Slice(lines, ws[k].start, ws[k].end), "\n")];
    }
    assert ws[..|ws|] == ws;
  }

  /** A non-empty window inside the file yields exactly the lines it spans:
      splitting its snippet on "\n" gives those lines back. */
  lemma SnippetIsItsLines(file: string, w: Match)
    requires 0 <= w.start < w.end <= |Split(file, '\n')|
    ensures Split(SelectSnippet(Split(file, '\n'), w), '\n') == Split(file, '\n')[w.start..w.end]
  {
    var lines := Split(file, '\n');
    SplitFromPieces(file, '\n', 0);
    var part := lines[w.start..w.end];
    assert forall k :: 0 <= k < |part| ==> part[k] == lines[w.start + k];
    SplitJoin(part, '\n');
  }

  /** A window from line 0 to the last line or beyond (the slice clamps)
      cuts out the whole file, unchanged. */
  lemma WholeFileSnippet(file: string, w: Match)
    requires w.start == 0 && w.end >= |Split(file, '\n')|
    ensures SelectSnippet(Split(file, '\n'), w) == file
  {
    var lines := Split(file, '\n');
    assert Slice(lines, w.start, w.end) == lines;
    JoinSplit(file, '\n');
  }

  /** The indices below `n` that the pruner kept, in increasing order. */
  function KeptIndices(n: nat, keep: seq<int>): seq<nat>
  {
    if n == 0 then [] else KeptIndices(n - 1, keep) + (if (n - 1) as int in keep then [n - 1] else [])
  }

  /** The kept indices are exactly the in-range ones in `keep`, strictly increasing. */
  lemma {:induction false} KeptIndicesSpec(n: nat, keep: seq<int>)
    ensures forall i :: i in KeptIndices(n, keep) <==> 0 <= i < n && i as int in keep
    ensures forall a, b :: 0 <= a < b < |KeptIndices(n, keep)| ==> KeptIndices(n, keep)[a] < KeptIndices(n, keep)[b]
    ensures forall k :: 0 <= k < |KeptIndices(n, keep)| ==> KeptIndices(n, keep)[k] < n
  {
    if n > 0 {
      KeptIndicesSpec(n - 1, keep);
    }
  }

  /** `pruned_snippets`: the snippets whose index is in `indices_to_keep`, in order. */
  function Kept(snippets: seq<string>, keep: seq<int>): seq<string>
  {
    if snippets == [] then []
    else
      var n := |snippets| - 1;
      Kept(snippets[..n], keep) + (if n as int in keep then [snippets[n]] else [])
  }

  /** Pruning picks the snippets at the kept indices, keeping their order. */
  lemma {:induction false} KeptIsSubsequence(snippets: seq<string>, keep: seq<int>)
    ensures var idx := KeptIndices(|snippets|, keep);
      (forall k :: 0 <= k < |idx| ==> idx[k] < |snippets|)
      && Kept(snippets, keep) == seq(|idx|, k requires 0 <= k < |idx| && idx[k] < |snippets| => snippets[idx[k]])
  {
    KeptIndicesSpec(|snippets|, keep);
    if snippets != [] {
      var n := |snippets| - 1;
      KeptIsSubsequence(snippets[..n], keep);
      KeptIndicesSpec(n, keep);
    }
  }

  /** The pruning loop. */
  method PruneLoop(snippets: seq<string>, keep: seq<int>) returns (pruned: seq<string>)
    ensures pruned == Kept(snippets, keep)
  {
    pruned := [];
    for idx := 0 to |snippets|
      invariant pruned == Kept(snippets[..idx], keep)
    {
      if idx as int in keep {
        pruned := pruned + [snippets[idx]];
      }
      assert snippets[..idx + 1][..idx] == snippets[..idx];
    }
    assert snippets[..|snippets|] == snippets;
  }

  /** One hunk applied to the current text of its snippet: the sliding-window
      replacement over lines, with the hunk's two sides stripped of newlines. */
  function ApplyHunk(tools: Tools, current: string, h: Hunk): string
  {
    Join(tools.slidingWindow(
      SplitLines(current), SplitLines(Strip(h.originalCode, {'\n'})), SplitLines(Strip(h.updatedCode, {'\n'}))), "\n")
  }

  /** `ApplyHunk` as a value, the patch step of `Chain`. */
  function Patcher(tools: Tools): (string, Hunk) -> string
  {
    (current, h) => ApplyHunk(tools, current, h)
  }

  /** `updated_snippets` after the hunk loop, with `patch` applying one hunk,
      or the `IndexError` of the first hunk whose index is out of range. */
  function Chain(patch: (string, Hunk) -> string, snippets: seq<string>, hunks: seq<Hunk>): Result<map<nat, string>, ModifyError>
  {
    if hunks == [] then Ok(map[])
    else
      var n := |hunks| - 1;
      match Chain(patch, snippets, hunks[..n])
      case Err(e) => Err(e)
      case Ok(updated) =>
        var h := hunks[n];
        if h.index >= |snippets| then Err(SnippetIndexOutOfRange(h.index))
        else
          var current := if h.index in updated then updated[h.index] else snippets[h.index];
          Ok(updated[h.index := patch(current, h)])
  }

  /** The hunks for one index, in reply order. */
  function HunksFor(hunks: seq<Hunk>, i: nat): seq<Hunk>
  {
    if hunks == [] then []
    else
      var n := |hunks| - 1;
      HunksFor(hunks[..n], i) + (if hunks[n].index == i then [hunks[n]] else [])
  }

  /** The hunks applied one after another, the first to `s`. */
  function ApplyAll(patch: (string, Hunk) -> string, s: string, hs: seq<Hunk>): string
  {
    if hs == [] then s else patch(ApplyAll(patch, s, hs[..|hs| - 1]), hs[|hs| - 1])
  }

  lemma {:induction false} NoHunksFor(hunks: seq<Hunk>, i: nat)
    requires forall k :: 0 <= k < |hunks| ==> hunks[k].index != i
    ensures HunksFor(hunks, i) == []
  {
    if hunks != [] {
      NoHunksFor(hunks[..|hunks| - 1], i);
    }
  }

  /** The hunk loop succeeds exactly when every index is in range. */
  lemma {:induction false} ChainOk(patch: (string, Hunk) -> string, snippets: seq<string>, hunks: seq<Hunk>)
    ensures Chain(patch, snippets, hunks).Ok? <==> forall k :: 0 <= k < |hunks| ==> hunks[k].index < |snippets|
  {
    if hunks != [] {
      var n := |hunks| - 1;
      ChainOk(patch, snippets, hunks[..n]);
      assert forall k :: 0 <= k < n ==> hunks[..n][k] == hunks[k];
    }
  }

  /** The hunk loop fails only with an `IndexError`, on the first hunk whose
      index is out of range, after all earlier hunks were in range. */
  lemma {:induction false} ChainError(patch: (string, Hunk) -> string, snippets: seq<string>, hunks: seq<Hunk>)
    requires Chain(patch, snippets, hunks).Err?
    ensures exists k :: (0 <= k < |hunks| && hunks[k].index >= |snippets|
      && Chain(patch, snippets, hunks).error == SnippetIndexOutOfRange(hunks[k].index)
      && forall j :: 0 <= j < k ==> hunks[j].index < |snippets|)
  {
    var n := |hunks| - 1;
    var init := hunks[..n];
    assert forall j :: 0 <= j < n ==> init[j] == hunks[j];
    if Chain(patch, snippets, init).Err? {
      ChainError(patch, snippets, init);
      var k :| 0 <= k < n && init[k].index >= |snippets|
        && Chain(patch, snippets, init).error == SnippetIndexOutOfRange(init[k].index)
        && forall j :: 0 <= j < k ==> init[j].index < |snippets|;
      assert hunks[k] == init[k];
    } else {
      ChainOk(patch, snippets, init);
    }
  }

  /** The indices in `updated_snippets` are exactly those some hunk names. */
  lemma {:induction false} ChainKeys(patch: (string, Hunk) -> string, snippets: seq<string>, hunks: seq<Hunk>)
    requires Chain(patch, snippets, hunks).Ok?
    ensures forall i :: i in Chain(patch, snippets, hunks).value <==> exists k :: 0 <= k < |hunks| && hunks[k].index == i
  {
    if hunks != [] {
      var n := |hunks| - 1;
      var init := hunks[..n];
      ChainKeys(patch, snippets, init);
      var u := Chain(patch, snippets, hunks).value;
      forall i | i in u
        ensures exists k :: 0 <= k < |hunks| && hunks[k].index == i
      {
        if i != hunks[n].index {
          var k :| 0 <= k < n && init[k].index == i;
          assert hunks[k] == init[k];
        }
      }
      forall i, k | 0 <= k < |hunks| && hunks[k].index == i
        ensures i in u
      {
        if k < n {
          assert init[k] == hunks[k];
        }
      }
    }
  }

  /** Each updated snippet is the original snippet at that index with the
      index's hunks applied in order: the first hunk sees the original. */
  lemma {:induction false} ChainValues(patch: (string, Hunk) -> string, snippets: seq<string>, hunks: seq<Hunk>)
    requires Chain(patch, snippets, hunks).Ok?
    ensures var u := Chain(patch, snippets, hunks).value;
      forall i :: i in u ==> i < |snippets| && u[i] == ApplyAll(patch, snippets[i], HunksFor(hunks, i))
  {
    if hunks != [] {
      var n := |hunks| - 1;
      var init := hunks[..n];
      var prev := Chain(patch, snippets, init).value;
      ChainValues(patch, snippets, init);
      var h := hunks[n];
      var u := Chain(patch, snippets, hunks).value;
      forall i | i in u
        ensures i < |snippets| && u[i] == ApplyAll(patch, snippets[i], HunksFor(hunks, i))
      {
        if i == h.index {
          var hs := HunksFor(hunks, i);
          assert hs == HunksFor(init, i) + [h];
          assert hs[..|hs| - 1] == HunksFor(init, i);
          if i !in prev {
            ChainKeys(patch, snippets, init);
            NoHunksFor(init, i);
          }
        } else {
          assert HunksFor(hunks, i) == HunksFor(init, i);
        }
      }
    }
  }

  /** One more in-range hunk extends a successful chain by one map update. */
  lemma ChainStep(patch: (string, Hunk) -> string, snippets: seq<string>, hunks: seq<Hunk>, k: nat, updated: map<nat, string>)
    requires k < |hunks| && Chain(patch, snippets, hunks[..k]) == Ok(updated)
    requires hunks[k].index < |snippets|
    ensures var h := hunks[k];
      var current := if h.index in updated then updated[h.index] else snippets[h.index];
      Chain(patch, snippets, hunks[..k + 1]) == Ok(updated[h.index := patch(current, h)])
  {
    assert hunks[..k + 1][..k] == hunks[..k];
  }

  /** The hunk loop, with `ApplyHunk` as the patch step. */
  method ChainLoop(tools: Tools, snippets: seq<string>, hunks: seq<Hunk>) returns (r: Result<map<nat, string>, ModifyError>)
    ensures r == Chain(Patcher(tools), snippets, hunks)
  {
    var patch := Patcher(tools);
    var updated: map<nat, string> := map[];
    for k := 0 to |hunks|
      invariant Chain(patch, snippets, hunks[..k]) == Ok(updated)
    {
      var h := hunks[k];
      if h.index >= |snippets| {
        r := Err(SnippetIndexOutOfRange(h.index));
        assert hunks[..k + 1][..k] == hunks[..k];
        ChainErrorSticks(patch, snippets, hunks, k + 1);
        return;
      }
      ChainStep(patch, snippets, hunks, k, updated);
      ghost var before := updated;
      var current := snippets[h.index];
      if h.index !in updated {
        updated := updated[h.index := current];
      } else {
        current := updated[h.index];
      }
      var patched := patch(current, h);
      assert updated[h.index := patched] == before[h.index := patched];
      updated := updated[h.index := patched];
    }
    assert hunks[..|hunks|] == hunks;
    r := Ok(updated);
  }

  lemma {:induction false} ChainErrorSticks(patch: (string, Hunk) -> string, snippets: seq<string>, hunks: seq<Hunk>, k: nat)
    requires k <= |hunks| && Chain(patch, snippets, hunks[..k]).Err?
    ensures Chain(patch, snippets, hunks) == Chain(patch, snippets, hunks[..k])
    decreases |hunks| - k
  {
    if k < |hunks| {
      assert hunks[..k + 1][..k] == hunks[..k];
      ChainErrorSticks(patch, snippets, hunks, k + 1);
    } else {
      assert hunks[..k] == hunks;
    }
  }

  /** `list.index`: the first position holding `s`. */
  function FirstIndex(snippets: seq<string>, s: string): (i: nat)
    requires s in snippets
    ensures i < |snippets| && snippets[i] == s
    ensures forall j :: 0 <= j < i ==> snippets[j] != s
  {
    if snippets[0] == s then 0 else 1 + FirstIndex(snippets[1..], s)
  }

  /** `new_code` over the first `n` snippets: for each snippet the bot updated,
      the validator's version of the snippet found by `selected_snippets.index`. */
  function RecombineUpTo(snippets: seq<string>, updated: map<nat, string>, validated: map<nat, string>, n: nat): seq<string>
    requires n <= |snippets|
  {
    if n == 0 then []
    else
      var j := FirstIndex(snippets, snippets[n - 1]);
      RecombineUpTo(snippets, updated, validated, n - 1)
        + (if n - 1 in updated && j in validated then [validated[j]] else [])
  }

  function Recombine(snippets: seq<string>, updated: map<nat, string>, validated: map<nat, string>): seq<string>
  {
    RecombineUpTo(snippets, updated, validated, |snippets|)
  }

  /** The validator's snippets at the indices both the bot and the validator
      updated, in index order. */
  function ByIndex(updated: map<nat, string>, validated: map<nat, string>, n: nat): seq<string>
  {
    if n == 0 then []
    else ByIndex(updated, validated, n - 1) + (if n - 1 in updated && n - 1 in validated then [validated[n - 1]] else [])
  }

  predicate Distinct(snippets: seq<string>)
  {
    forall a, b :: 0 <= a < b < |snippets| ==> snippets[a] != snippets[b]
  }

  /** With pairwise different snippets, `new_code` is the validator's version of
      every updated snippet, in order. */
  lemma {:induction false} RecombineDistinct(snippets: seq<string>, updated: map<nat, string>, validated: map<nat, string>, n: nat)
    requires n <= |snippets| && Distinct(snippets)
    ensures RecombineUpTo(snippets, updated, validated, n) == ByIndex(updated, validated, n)
  {
    if n > 0 {
      RecombineDistinct(snippets, updated, validated, n - 1);
      var j := FirstIndex(snippets, snippets[n - 1]);
      assert j == n - 1;
    }
  }

  /** The recombination loop. */
  method RecombineLoop(snippets: seq<string>, updated: map<nat, string>, validated: map<nat, string>)
    returns (newCode: seq<string>)
    ensures newCode == Recombine(snippets, updated, validated)
  {
    newCode := [];
    for idx := 0 to |snippets|
      invariant newCode == RecombineUpTo(snippets, updated, validated, idx)
    {
      if idx !in updated {
        continue;
      }
      var j := FirstIndex(snippets, snippets[idx]);
      if j !in validated {
        continue;
      }
      newCode := newCode + [validated[j]];
    }
  }

  /** The fix-up `result.rstrip("\n") + "\n" * ending_newlines`. */
  function KeepTrailingNewlines(file: string, result: string): string
  {
    RStrip(result, {'\n'}) + Repeat('\n', TrailingCount(file, '\n'))
  }

  /** The fixed-up result ends in exactly as many newlines as the file did, and
      what precedes them is `result.rstrip("\n")`. */
  lemma TrailingNewlinesKept(file: string, result: string)
    ensures TrailingCount(KeepTrailingNewlines(file, result), '\n') == TrailingCount(file, '\n')
    ensures RStrip(KeepTrailingNewlines(file, result), {'\n'}) == RStrip(result, {'\n'})
  {
    var base := RStrip(result, {'\n'});
    TrailingCountOfPadded(base, '\n', TrailingCount(file, '\n'));
  }
}
