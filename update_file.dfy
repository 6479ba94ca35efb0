/** `update_file` of `ModifyBot` in `modify_bot.py`, stage by stage: collect the
    candidate ranges, sort and fuse them, re-snap them for Python files, cut out
    the snippets, prune them, chain the hunks, validate, recombine, and restore
    the trailing newlines. */
module UpdateFile {
  import opened Wrappers
  import opened PyStr
  import opened Collaborators
  import opened MatchFusion
  import opened Candidates
  import opened Patching
  import opened ChangesMade

  /** The verdict `update_file` builds and returns: no analysis, no additional
      changes, raw answer "no". */
  const NoChanges := ChangeValidation("", "no")

  /** What one `update_file` call works with besides its arguments: the helpers,
      the bots, `DEBUG`, the bot's history, and the file path. */
  datatype Context = Context(tools: Tools, bots: Bots, debug: bool, history: History, path: string)

  /** `(result, leftover_comments, change_validation)`. */
  datatype Outcome = Outcome(result: string, leftover: seq<string>, validation: ChangeValidation)

  /** The code the bots are shown: the entity's span when the request names one
      (a non-empty `entity`), else the whole file. */
  function ShownCode(tools: Tools, file: string, req: RequestState): string
  {
    match req.entity
    case Some(e) => if e != "" then tools.pythonSpan(file, e) else file
    case None => file
  }

  /** The fused windows, re-snapped for a Python file. */
  function Windows(ctx: Context, file: string, queries: seq<string>, terms: seq<string>): Result<seq<Match>, ModifyError>
  {
    var py := IsPythonFile(ctx.path);
    var sorted := SortMatches(CandidateMatches(ctx.tools, py, file, queries, terms));
    var fused := Fuse(sorted);
    if py then Resnap(ctx.tools, file, fused) else Ok(fused)
  }

  /** What the pruning, plan and update bots are shown: the code, the
      "changes made" message and the request followed by the analysis. */
  function Prompt(ctx: Context, file: string, req: RequestState, analysis: string): Shown
  {
    Shown(ShownCode(ctx.tools, file, req), DiffsMessage(ctx.tools, ctx.history, file),
      req.instructions + "\n" + analysis)
  }

  /** The snippets cut out of the file, pruned: the pruning bot is asked only
      when there is more than one snippet. */
  function Pruned(ctx: Context, file: string, req: RequestState, analysis: string, windows: seq<Match>)
    : Result<seq<string>, ModifyError>
  {
    var snippets := SelectSnippets(file, windows);
    var keep := if |snippets| > 1 then ctx.bots.prune(snippets, Prompt(ctx, file, req, analysis)) else [0];
    if |keep| == 0 then Err(NoSnippetsSelected) else Ok(Kept(snippets, keep))
  }

  /** The stages after pruning: the update bot's hunks are chained over the
      pruned snippets, validated and recombined. */
  function Patched(ctx: Context, file: string, req: RequestState, analysis: string, pruned: seq<string>)
    : Result<Outcome, ModifyError>
  {
    var hunks := ctx.bots.update(pruned, Prompt(ctx, file, req, analysis), req.failedSandboxTest);
    if |hunks| == 0 then Err(NoSnippetsEdited)
    else
      match Chain(Patcher(ctx.tools), pruned, hunks)
      case Err(e) => Err(e)
      case Ok(updated) =>
        var v := ctx.tools.validate(file, req, pruned, updated);
        var newCode := Join(Recombine(pruned, updated, v.updatedSnippets), "\n");
        var leftover := if ctx.debug then [] else ctx.bots.leftover(newCode, req.instructions);
        Ok(Outcome(KeepTrailingNewlines(file, v.result), leftover, NoChanges))
  }

  /** The stages after the windows are fixed. */
  function Edit(ctx: Context, file: string, req: RequestState, analysis: string, windows: seq<Match>)
    : Result<Outcome, ModifyError>
  {
    match Pruned(ctx, file, req, analysis, windows)
    case Err(e) => Err(e)
    case Ok(pruned) => Patched(ctx, file, req, analysis, pruned)
  }

  /** The whole of `update_file`. */
  function UpdateFileSpec(ctx: Context, file: string, req: RequestState, queries: seq<string>, terms: seq<string>,
                          analysis: string): Result<Outcome, ModifyError>
  {
    match Windows(ctx, file, queries, terms)
    case Err(e) => Err(e)
    case Ok(ws) => Edit(ctx, file, req, analysis, ws)
  }

  /** A successful `update_file` returns a result with exactly the file's
      trailing newlines, the fixed "no" verdict, and no leftover comments under
      `DEBUG`. */
  lemma UpdateFileOutcome(ctx: Context, file: string, req: RequestState, queries: seq<string>, terms: seq<string>,
                          analysis: string)
    ensures var r := UpdateFileSpec(ctx, file, req, queries, terms, analysis);
      r.Ok? ==> (TrailingCount(r.value.result, '\n') == TrailingCount(file, '\n')
        && r.value.validation == NoChanges
        && (ctx.debug ==> r.value.leftover == []))
  {
    var r := UpdateFileSpec(ctx, file, req, queries, terms, analysis);
    if r.Ok? {
      var ws := Windows(ctx, file, queries, terms).value;
      EditOutcome(ctx, file, req, analysis, ws);
    }
  }

  lemma EditOutcome(ctx: Context, file: string, req: RequestState, analysis: string, windows: seq<Match>)
    ensures var r := Edit(ctx, file, req, analysis, windows);
      r.Ok? ==> (TrailingCount(r.value.result, '\n') == TrailingCount(file, '\n')
        && r.value.validation == NoChanges
        && (ctx.debug ==> r.value.leftover == []))
  {
    var r := Edit(ctx, file, req, analysis, windows);
    if r.Ok? {
      var v :| r.value.result == KeepTrailingNewlines(file, v);
      TrailingNewlinesKept(file, v);
    }
  }

  /** With a single window the pruning bot is never consulted: whatever it
      would answer, `update_file` does the same, and the update bot is handed
      the one selected snippet unchanged. */
  lemma SingleSnippetSkipsPruner(ctx: Context, file: string, req: RequestState, analysis: string,
                                 windows: seq<Match>, prune: (seq<string>, Shown) -> seq<int>)
    requires |SelectSnippets(file, windows)| == 1
    ensures Pruned(ctx, file, req, analysis, windows) == Ok(SelectSnippets(file, windows))
    ensures Edit(ctx, file, req, analysis, windows) == Patched(ctx, file, req, analysis, SelectSnippets(file, windows))
    ensures Edit(ctx, file, req, analysis, windows)
         == Edit(ctx.(bots := ctx.bots.(prune := prune)), file, req, analysis, windows)
  {
    var snippets := SelectSnippets(file, windows);
    KeptIsSubsequence(snippets, [0]);
    KeptIndicesSpec(|snippets|, [0]);
    assert Kept(snippets, [0]) == snippets;
  }

  /** "No snippets selected" needs more than one window and an empty reply from
      the pruning bot: a single snippet is kept without consulting it. */
  lemma NoSnippetsSelectedOnlyFromPruner(ctx: Context, file: string, req: RequestState, analysis: string,
                                         windows: seq<Match>)
    requires Edit(ctx, file, req, analysis, windows) == Err(NoSnippetsSelected)
    ensures |windows| > 1
  {
    var snippets := SelectSnippets(file, windows);
    if |snippets| <= 1 {
      var pruned := Kept(snippets, [0]);
      assert Pruned(ctx, file, req, analysis, windows) == Ok(pruned);
      var hunks := ctx.bots.update(pruned, Prompt(ctx, file, req, analysis), req.failedSandboxTest);
      if |hunks| > 0 && Chain(Patcher(ctx.tools), pruned, hunks).Err? {
        ChainError(Patcher(ctx.tools), pruned, hunks);
      }
    }
  }

  /** The windows of a non-Python file: for well-formed candidates whose ends
      are below the sort key's scale, they are sorted by start, pairwise
      disjoint, more than 5 lines apart, and cover every candidate. */
  lemma NonPythonWindowsShape(ctx: Context, file: string, queries: seq<string>, terms: seq<string>)
    requires !IsPythonFile(ctx.path)
    requires var c := CandidateMatches(ctx.tools, false, file, queries, terms);
      WellFormed(c) && EndsBelowScale(c)
    ensures Windows(ctx, file, queries, terms).Ok?
    ensures var c := CandidateMatches(ctx.tools, false, file, queries, terms);
      var ws := Windows(ctx, file, queries, terms).value;
      1 <= |ws| <= |c| && StartSorted(ws) && Disjoint(ws) && Separated(ws)
      && forall j :: 0 <= j < |c| ==> exists k :: 0 <= k < |ws| && Covers(ws[k], c[j])
  {
    CandidatesEndWithHeader(ctx.tools, false, file, queries, terms);
    SortAndFuse(CandidateMatches(ctx.tools, false, file, queries, terms));
  }

  /** Sorting the header-terminated candidate list and fusing it. */
  method FuseCandidates(ctx: Context, file: string, queries: seq<string>, terms: seq<string>)
    returns (fused: seq<Match>)
    ensures fused == Fuse(SortMatches(CandidateMatches(ctx.tools, IsPythonFile(ctx.path), file, queries, terms)))
  {
    var best := CollectMatches(ctx.tools, IsPythonFile(ctx.path), file, queries, terms);
    best := SortMatches(best);
    fused := FuseLoop(best);
  }

  /** The window stages of `update_file`. */
  method ComputeWindows(ctx: Context, file: string, queries: seq<string>, terms: seq<string>)
    returns (r: Result<seq<Match>, ModifyError>)
    ensures r == Windows(ctx, file, queries, terms)
  {
    var fused := FuseCandidates(ctx, file, queries, terms);
    if IsPythonFile(ctx.path) {
      r := ResnapLoop(ctx.tools, file, fused);
    } else {
      r := Ok(fused);
    }
  }

  /** The snippet stages of `update_file`. */
  method EditSnippets(ctx: Context, file: string, req: RequestState, analysis: string, windows: seq<Match>)
    returns (r: Result<Outcome, ModifyError>)
    ensures r == Edit(ctx, file, req, analysis, windows)
  {
    var snippets := SelectLoop(file, windows);
    var shown := Prompt(ctx, file, req, analysis);
    var keep: seq<int>;
    if |snippets| > 1 {
      keep := ctx.bots.prune(snippets, shown);
    } else {
      keep := [0];
    }
    if |keep| == 0 {
      return Err(NoSnippetsSelected);
    }
    var pruned := PruneLoop(snippets, keep);
    var hunks := ctx.bots.update(pruned, shown, req.failedSandboxTest);
    if |hunks| == 0 {
      return Err(NoSnippetsEdited);
    }
    var chained := ChainLoop(ctx.tools, pruned, hunks);
    if chained.Err? {
      return Err(chained.error);
    }
    var updated := chained.value;
    var v := ctx.tools.validate(file, req, pruned, updated);
    var newCode := RecombineLoop(pruned, updated, v.updatedSnippets);
    var result := KeepTrailingNewlines(file, v.result);
    var leftover := if ctx.debug then [] else ctx.bots.leftover(Join(newCode, "\n"), req.instructions);
    r := Ok(Outcome(result, leftover, NoChanges));
  }

  /** `update_file`. */
  method Update(ctx: Context, file: string, req: RequestState, queries: seq<string>, terms: seq<string>, analysis: string)
    returns (r: Result<Outcome, ModifyError>)
    ensures r == UpdateFileSpec(ctx, file, req, queries, terms, analysis)
  {
    var windows := ComputeWindows(ctx, file, queries, terms);
    if windows.Err? {
      return Err(windows.error);
    }
    r := EditSnippets(ctx, file, req, analysis, windows.value);
  }
}
