/** Post-processing of the fetch bot's reply in `modify_bot.py`: removing code
    fences from quoted snippets, and turning the captured extraction-term and
    snippet groups into the lists `update_file` works on. */
module FetchSnippets {
  import opened Wrappers
  import opened PyStr
  import opened Collaborators
  import opened Fences

  /** The non-blank lines of one extraction-terms block, each stripped, in order
      (the inner loop of the source over `split("\n")`). */
  function LineTerms(lines: seq<string>): (r: seq<string>)
    ensures forall k :: 0 <= k < |r| ==> r[k] != [] && Strip(r[k], Whitespace) == r[k]
    ensures |r| <= |lines|
  {
    if lines == [] then []
    else
      var t := Strip(lines[|lines| - 1], Whitespace);
      StripIdempotent(lines[|lines| - 1], Whitespace);
      LineTerms(lines[..|lines| - 1]) + (if t != [] then [t] else [])
  }

  /** Every extraction term of every block, in order. */
  function ExtractionTerms(blocks: seq<string>): (r: seq<string>)
    ensures forall k :: 0 <= k < |r| ==> r[k] != [] && Strip(r[k], Whitespace) == r[k]
  {
    if blocks == [] then []
    else ExtractionTerms(blocks[..|blocks| - 1]) + LineTerms(Split(blocks[|blocks| - 1], '\n'))
  }

  /** A block whose lines are already stripped and non-blank yields exactly those lines. */
  lemma {:induction false} LineTermsOfCleanLines(lines: seq<string>)
    requires forall k :: 0 <= k < |lines| ==> lines[k] != [] && Strip(lines[k], Whitespace) == lines[k]
    ensures LineTerms(lines) == lines
  {
    if lines != [] {
      LineTermsOfCleanLines(lines[..|lines| - 1]);
    }
  }

  /** The fence-stripped snippet queries, in order. */
  function SnippetQueries(blocks: seq<string>): (r: seq<string>)
    ensures |r| == |blocks|
  {
    seq(|blocks|, k requires 0 <= k < |blocks| => StripBackticks(blocks[k]))
  }

  /** What `get_snippets_to_modify` returns. */
  datatype Fetched = Fetched(queries: seq<string>, terms: seq<string>, analysis: string)

  /** The result of `get_snippets_to_modify` for a given reply: the stripped
      analysis, the terms and the queries, or "No snippets found in file" when
      the reply quoted no snippet. */
  function SnippetsToModify(reply: FetchReply): (r: Result<Fetched, ModifyError>)
    ensures r.Err? <==> |reply.snippetBlocks| == 0
    ensures r.Err? ==> r.error == NoSnippetsFound
    ensures r.Ok? ==> r.value.terms == ExtractionTerms(reply.termBlocks)
    ensures r.Ok? ==> (|r.value.queries| == |reply.snippetBlocks|
      && forall k :: 0 <= k < |reply.snippetBlocks| ==> r.value.queries[k] == StripBackticks(reply.snippetBlocks[k]))
  {
    var analysis := match reply.analysis case Some(a) => Strip(a, Whitespace) case None => "";
    var queries := SnippetQueries(reply.snippetBlocks);
    if |queries| == 0 then Err(NoSnippetsFound)
    else Ok(Fetched(queries, ExtractionTerms(reply.termBlocks), analysis))
  }

  /** The inner loop over the lines of one extraction-terms block. */
  method CollectLineTerms(lines: seq<string>) returns (terms: seq<string>)
    ensures terms == LineTerms(lines)
  {
    terms := [];
    for j := 0 to |lines|
      invariant terms == LineTerms(lines[..j])
    {
      var term := Strip(lines[j], Whitespace);
      if term != [] {
        terms := terms + [term];
      }
      assert lines[..j + 1][..j] == lines[..j];
    }
    assert lines[..|lines|] == lines;
  }

  /** The outer loop over the extraction-terms blocks. */
  method CollectTerms(blocks: seq<string>) returns (terms: seq<string>)
    ensures terms == ExtractionTerms(blocks)
  {
    terms := [];
    for b := 0 to |blocks|
      invariant terms == ExtractionTerms(blocks[..b])
    {
      var found := CollectLineTerms(Split(blocks[b], '\n'));
      terms := terms + found;
      assert blocks[..b + 1][..b] == blocks[..b];
    }
    assert blocks[..|blocks|] == blocks;
  }

  /** The loop over the quoted snippet blocks. */
  method CollectQueries(blocks: seq<string>) returns (queries: seq<string>)
    ensures queries == SnippetQueries(blocks)
  {
    queries := [];
    for q := 0 to |blocks|
      invariant queries == SnippetQueries(blocks[..q])
    {
      queries := queries + [StripBackticks(blocks[q])];
    }
    assert blocks[..|blocks|] == blocks;
  }

  /** `get_snippets_to_modify` after the chat call. */
  method GetSnippetsToModify(reply: FetchReply) returns (r: Result<Fetched, ModifyError>)
    ensures r == SnippetsToModify(reply)
  {
    var analysis := match reply.analysis case Some(a) => Strip(a, Whitespace) case None => "";
    var terms := CollectTerms(reply.termBlocks);
    var queries := CollectQueries(reply.snippetBlocks);
    if |queries| == 0 {
      return Err(NoSnippetsFound);
    }
    r := Ok(Fetched(queries, terms, analysis));
  }
}
