/** Collecting candidate line ranges in `update_file` of `modify_bot.py`
    (quotation matches, keyword hits, call sites and the import header), and
    the re-snap of fused windows to syntax boundaries for Python files. */
module Candidates {
  import opened Wrappers
  import opened PyStr
  import opened Collaborators

  /** A quotation match is kept only above this score. */
  const AcceptScore: real := 50.0

  /** The score given to keyword, call-site and header matches. */
  const FullScore: real := 100.0

  /** `IMPORT_LINES`: the header match spans at most this many lines. */
  const ImportLines := 10

  const Ellipsis := "..."

  /** `file_path.strip().endswith(".py")`. */
  predicate IsPythonFile(path: string)
  {
    EndsWith(Strip(path, Whitespace), ".py")
  }

  /** The texts one snippet query is matched by: its `split_ellipses` sections
      when it holds more than two "...", else the query itself. */
  function QuoteSections(tools: Tools, query: string): seq<string>
  {
    if CountOf(query, Ellipsis) > 2 then tools.splitEllipses(query) else [query]
  }

  /** The best matches of the sections that score above `AcceptScore`, in order. */
  function SectionMatches(tools: Tools, sections: seq<string>, file: string): seq<Match>
  {
    if sections == [] then []
    else
      var m := tools.findBestMatch(sections[|sections| - 1], file);
      SectionMatches(tools, sections[..|sections| - 1], file) + (if m.score > AcceptScore then [m] else [])
  }

  /** The quotation matches of all snippet queries, in order. */
  function QuoteMatches(tools: Tools, queries: seq<string>, file: string): seq<Match>
  {
    if queries == [] then []
    else
      QuoteMatches(tools, queries[..|queries| - 1], file)
        + SectionMatches(tools, QuoteSections(tools, queries[|queries| - 1]), file)
  }

  /** `m` is the best match of one of the query's sections and scores above 50. */
  predicate AcceptedFor(tools: Tools, query: string, file: string, m: Match)
  {
    m.score > AcceptScore && exists s :: s in QuoteSections(tools, query) && tools.findBestMatch(s, file) == m
  }

  lemma {:induction false} SectionMatchesAccepted(tools: Tools, sections: seq<string>, file: string, m: Match)
    ensures m in SectionMatches(tools, sections, file) <==>
      m.score > AcceptScore && exists s :: s in sections && tools.findBestMatch(s, file) == m
  {
    if sections != [] {
      var init := sections[..|sections| - 1];
      SectionMatchesAccepted(tools, init, file, m);
      assert sections == init + [sections[|sections| - 1]];
    }
  }

  /** A match is collected from the queries exactly when it is the best match
      of a section of some query and scores above 50. */
  lemma {:induction false} QuoteMatchesAccepted(tools: Tools, queries: seq<string>, file: string, m: Match)
    ensures m in QuoteMatches(tools, queries, file) <==>
      exists j :: 0 <= j < |queries| && AcceptedFor(tools, queries[j], file, m)
  {
    if queries != [] {
      var n := |queries| - 1;
      QuoteMatchesAccepted(tools, queries[..n], file, m);
      SectionMatchesAccepted(tools, QuoteSections(tools, queries[n]), file, m);
      assert forall j :: 0 <= j < n ==> queries[..n][j] == queries[j];
      if m in QuoteMatches(tools, queries[..n], file) {
        var j :| 0 <= j < n && AcceptedFor(tools, queries[..n][j], file, m);
        assert AcceptedFor(tools, queries[j], file, m);
      }
    }
  }

  /** Every quotation match has a score above 50. */
  lemma QuoteScoresAbove(tools: Tools, queries: seq<string>, file: string)
    ensures forall m :: m in QuoteMatches(tools, queries, file) ==> m.score > AcceptScore
  {
    forall m | m in QuoteMatches(tools, queries, file)
      ensures m.score > AcceptScore
    {
      QuoteMatchesAccepted(tools, queries, file, m);
    }
  }

  /** A query with at most two "..." is matched whole, not by sections. */
  lemma FewEllipsesMatchWhole(tools: Tools, query: string, file: string)
    requires CountOf(query, Ellipsis) <= 2
    ensures var m := tools.findBestMatch(query, file);
      QuoteMatches(tools, [query], file) == if m.score > AcceptScore then [m] else []
  {
    assert QuoteSections(tools, query) == [query];
    assert [query][..0] == [];
    assert SectionMatches(tools, [query], file) == SectionMatches(tools, [], file)
      + (if tools.findBestMatch(query, file).score > AcceptScore then [tools.findBestMatch(query, file)] else []);
  }

  /** The line range a keyword hit on line `i` spans before the `+ 1`: the
      surrounding syntax block in a Python file (or `(i, i)` when the lookup
      raises), else `(i, i)`. */
  function Surround(tools: Tools, py: bool, file: string, i: int): (int, int)
  {
    if !py then (i, i)
    else match tools.surrounding(file, i)
      case Some(p) => p
      case None => (i, i)
  }

  /** The terms a line contains, in order and with repetitions. */
  function ContainedTerms(line: string, terms: seq<string>): seq<string>
  {
    if terms == [] then []
    else
      ContainedTerms(line, terms[..|terms| - 1])
        + (if Contains(line, terms[|terms| - 1]) then [terms[|terms| - 1]] else [])
  }

  /** The matches the inner keyword loop appends for line `i`. */
  function LineHits(tools: Tools, py: bool, file: string, i: int, line: string, terms: seq<string>): seq<Match>
  {
    if terms == [] then []
    else
      var span := Surround(tools, py, file, i);
      LineHits(tools, py, file, i, line, terms[..|terms| - 1])
        + (if Contains(line, terms[|terms| - 1]) then [Match(span.0, span.1 + 1, FullScore)] else [])
  }

  /** One hit per contained term, all spanning the same range. */
  lemma {:induction false} LineHitsPerTerm(tools: Tools, py: bool, file: string, i: int, line: string, terms: seq<string>)
    ensures var span := Surround(tools, py, file, i);
      LineHits(tools, py, file, i, line, terms)
        == seq(|ContainedTerms(line, terms)|, _ => Match(span.0, span.1 + 1, FullScore))
  {
    if terms != [] {
      LineHitsPerTerm(tools, py, file, i, line, terms[..|terms| - 1]);
    }
  }

  /** On a file that is not Python, each (line, keyword) containment on line `i`
      adds exactly `Match(i, i + 1, 100)`. */
  lemma NonPythonLineHits(tools: Tools, file: string, i: int, line: string, terms: seq<string>)
    ensures LineHits(tools, false, file, i, line, terms)
      == seq(|ContainedTerms(line, terms)|, _ => Match(i, i + 1, FullScore))
  {
    LineHitsPerTerm(tools, false, file, i, line, terms);
  }

  /** The keyword hits of lines `0 .. |lines|`, in line order. */
  function KeywordMatchesOf(tools: Tools, py: bool, file: string, lines: seq<string>, terms: seq<string>): seq<Match>
  {
    if lines == [] then []
    else
      var n := |lines| - 1;
      KeywordMatchesOf(tools, py, file, lines[..n], terms) + LineHits(tools, py, file, n, lines[n], terms)
  }

  function KeywordMatches(tools: Tools, py: bool, file: string, terms: seq<string>): seq<Match>
  {
    KeywordMatchesOf(tools, py, file, Split(file, '\n'), terms)
  }

  /** A term with trailing parentheses removed: `keyword.rstrip("()")`. */
  function CallName(term: string): string
  {
    RStrip(term, {'(', ')'})
  }

  /** `Match(start, end + 1, 100)` for each call site. */
  function CallSiteMatches(calls: seq<(int, int)>): (r: seq<Match>)
    ensures |r| == |calls|
  {
    seq(|calls|, k requires 0 <= k < |calls| => Match(calls[k].0, calls[k].1 + 1, FullScore))
  }

  /** The call-site matches of all terms, in order. */
  function CallMatches(tools: Tools, file: string, terms: seq<string>): seq<Match>
  {
    if terms == [] then []
    else
      CallMatches(tools, file, terms[..|terms| - 1])
        + CallSiteMatches(tools.findFunctionCalls(CallName(terms[|terms| - 1]), file))
  }

  /** The header match over the first lines of the file, for its imports. */
  function HeaderMatch(file: string): (m: Match)
    ensures 1 <= m.end <= ImportLines
  {
    Match(0, Min(ImportLines, |Split(file, '\n')|), FullScore)
  }

  /** `best_matches` before sorting. */
  function CandidateMatches(tools: Tools, py: bool, file: string, queries: seq<string>, terms: seq<string>): seq<Match>
  {
    QuoteMatches(tools, queries, file) + KeywordMatches(tools, py, file, terms)
      + CallMatches(tools, file, terms) + [HeaderMatch(file)]
  }

  /** The candidate list always ends with the header match `Match(0, e, 100)`
      with `1 <= e <= 10`, so it is never empty and "No matches found in file"
      cannot be raised. */
  lemma CandidatesEndWithHeader(tools: Tools, py: bool, file: string, queries: seq<string>, terms: seq<string>)
    ensures var c := CandidateMatches(tools, py, file, queries, terms);
      |c| >= 1 && c[|c| - 1].start == 0 && 1 <= c[|c| - 1].end <= ImportLines
      && c[|c| - 1].score == FullScore
  {
  }

  /** The inner quotation loop, over the sections of one query. */
  method CollectSectionMatches(tools: Tools, sections: seq<string>, file: string) returns (found: seq<Match>)
    ensures found == SectionMatches(tools, sections, file)
  {
    found := [];
    for s := 0 to |sections|
      invariant found == SectionMatches(tools, sections[..s], file)
    {
      var m := tools.findBestMatch(sections[s], file);
      if m.score > AcceptScore {
        found := found + [m];
      }
      assert sections[..s + 1][..s] == sections[..s];
    }
    assert sections[..|sections|] == sections;
  }

  /** The quotation-match loop over the snippet queries. */
  method CollectQuoteMatches(tools: Tools, queries: seq<string>, file: string) returns (best: seq<Match>)
    ensures best == QuoteMatches(tools, queries, file)
  {
    best := [];
    for q := 0 to |queries|
      invariant best == QuoteMatches(tools, queries[..q], file)
    {
      var found := CollectSectionMatches(tools, QuoteSections(tools, queries[q]), file);
      best := best + found;
      assert queries[..q + 1][..q] == queries[..q];
    }
    assert queries[..|queries|] == queries;
  }

  /** The inner keyword loop, over the terms for line `i`. */
  method CollectLineHits(tools: Tools, py: bool, file: string, i: int, line: string, terms: seq<string>)
    returns (hits: seq<Match>)
    ensures hits == LineHits(tools, py, file, i, line, terms)
  {
    hits := [];
    for t := 0 to |terms|
      invariant hits == LineHits(tools, py, file, i, line, terms[..t])
    {
      if Contains(line, terms[t]) {
        var span := Surround(tools, py, file, i);
        hits := hits + [Match(span.0, span.1 + 1, FullScore)];
      }
      assert terms[..t + 1][..t] == terms[..t];
    }
    assert terms[..|terms|] == terms;
  }

  /** The keyword loop over the lines of the file. */
  method CollectKeywordMatches(tools: Tools, py: bool, file: string, terms: seq<string>) returns (best: seq<Match>)
    ensures best == KeywordMatches(tools, py, file, terms)
  {
    var lines := Split(file, '\n');
    best := [];
    for i := 0 to |lines|
      invariant best == KeywordMatchesOf(tools, py, file, lines[..i], terms)
    {
      var hits := CollectLineHits(tools, py, file, i, lines[i], terms);
      best := best + hits;
      assert lines[..i + 1][..i] == lines[..i];
    }
    assert lines[..|lines|] == lines;
  }

  /** The call-site loop. */
  method CollectCallMatches(tools: Tools, file: string, terms: seq<string>) returns (best: seq<Match>)
    ensures best == CallMatches(tools, file, terms)
  {
    best := [];
    for t := 0 to |terms|
      invariant best == CallMatches(tools, file, terms[..t])
    {
      var calls := tools.findFunctionCalls(CallName(terms[t]), file);
      ghost var before := best;
      for c := 0 to |calls|
        invariant best == before + CallSiteMatches(calls[..c])
      {
        best := best + [Match(calls[c].0, calls[c].1 + 1, FullScore)];
      }
      assert calls[..|calls|] == calls;
      assert terms[..t + 1][..t] == terms[..t];
    }
    assert terms[..|terms|] == terms;
  }

  /** Everything `update_file` appends to `best_matches`. */
  method CollectMatches(tools: Tools, py: bool, file: string, queries: seq<string>, terms: seq<string>)
    returns (best: seq<Match>)
    ensures best == CandidateMatches(tools, py, file, queries, terms)
  {
    best := CollectQuoteMatches(tools, queries, file);
    var keywordHits := CollectKeywordMatches(tools, py, file, terms);
    var calls := CollectCallMatches(tools, file, terms);
    best := best + keywordHits + calls + [HeaderMatch(file)];
  }

  /** One fused window widened to the syntax blocks around its start line and
      around its (exclusive) end line; the lookup failing is an error. */
  function SnapWindow(tools: Tools, file: string, w: Match): Result<Match, ModifyError>
  {
    match tools.surrounding(file, w.start)
    case None => Err(SnapFailed(w.start))
    case Some(s) =>
      match tools.surrounding(file, w.end)
      case None => Err(SnapFailed(w.end))
      case Some(e) => Ok(Match(s.0, e.1 + 1, w.score))
  }

  /** The re-snap loop: every window snapped in order, or the first failure. */
  function Resnap(tools: Tools, file: string, ws: seq<Match>): Result<seq<Match>, ModifyError>
  {
    if ws == [] then Ok([])
    else
      match Resnap(tools, file, ws[..|ws| - 1])
      case Err(e) => Err(e)
      case Ok(prev) =>
        match SnapWindow(tools, file, ws[|ws| - 1])
        case Err(e) => Err(e)
        case Ok(m) => Ok(prev + [m])
  }

  /** The re-snap succeeds exactly when every window snaps; it then keeps the
      number, order and scores of the windows; otherwise it reports the error of
      the first window that fails. */
  lemma {:induction false} ResnapSpec(tools: Tools, file: string, ws: seq<Match>)
    ensures Resnap(tools, file, ws).Ok? <==> forall k :: 0 <= k < |ws| ==> SnapWindow(tools, file, ws[k]).Ok?
    ensures Resnap(tools, file, ws).Ok? ==>
      |Resnap(tools, file, ws).value| == |ws|
      && forall k :: 0 <= k < |ws| ==> Resnap(tools, file, ws).value[k] == SnapWindow(tools, file, ws[k]).value
    ensures Resnap(tools, file, ws).Err? ==>
      exists k :: 0 <= k < |ws| && SnapWindow(tools, file, ws[k]) == Err(Resnap(tools, file, ws).error)
        && forall j :: 0 <= j < k ==> SnapWindow(tools, file, ws[j]).Ok?
  {
    if ws != [] {
      var n := |ws| - 1;
      ResnapSpec(tools, file, ws[..n]);
      assert forall k :: 0 <= k < n ==> ws[..n][k] == ws[k];
      var prev := Resnap(tools, file, ws[..n]);
      if prev.Err? {
        var k :| 0 <= k < n && SnapWindow(tools, file, ws[..n][k]) == Err(prev.error)
          && forall j :: 0 <= j < k ==> SnapWindow(tools, file, ws[..n][j]).Ok?;
        assert SnapWindow(tools, file, ws[k]) == Err(prev.error);
      }
    }
  }

  /** Snapping keeps each window's score. */
  lemma SnapKeepsScore(tools: Tools, file: string, w: Match)
    requires SnapWindow(tools, file, w).Ok?
    ensures SnapWindow(tools, file, w).value.score == w.score
  {
  }

  /** The loop building `new_deduped_matches`. */
  method ResnapLoop(tools: Tools, file: string, ws: seq<Match>) returns (r: Result<seq<Match>, ModifyError>)
    ensures r == Resnap(tools, file, ws)
  {
    var snapped: seq<Match> := [];
    for k := 0 to |ws|
      invariant Resnap(tools, file, ws[..k]) == Ok(snapped)
    {
      assert ws[..k + 1][..k] == ws[..k];
      var w := ws[k];
      var s := tools.surrounding(file, w.start);
      if s.None? {
        r := Err(SnapFailed(w.start));
        EarlyErrorSticks(tools, file, ws, k + 1);
        return;
      }
      var e := tools.surrounding(file, w.end);
      if e.None? {
        r := Err(SnapFailed(w.end));
        EarlyErrorSticks(tools, file, ws, k + 1);
        return;
      }
      snapped := snapped + [Match(s.value.0, e.value.1 + 1, w.score)];
    }
    assert ws[..|ws|] == ws;
    r := Ok(snapped);
  }

  /** Once a prefix fails, every longer prefix fails with the same error. */
  lemma {:induction false} EarlyErrorSticks(tools: Tools, file: string, ws: seq<Match>, k: nat)
    requires k <= |ws| && Resnap(tools, file, ws[..k]).Err?
    ensures Resnap(tools, file, ws) == Resnap(tools, file, ws[..k])
    decreases |ws| - k
  {
    if k < |ws| {
      assert ws[..k + 1][..k] == ws[..k];
      EarlyErrorSticks(tools, file, ws, k + 1);
    } else {
      assert ws[..k] == ws;
    }
  }
}
