/** The boundary of the snippet-localisation engine: the error signal it raises,
    the values it exchanges, and the helpers and chat replies it consumes.
    Every helper whose source is not part of this model, and every reply of a
    text-generation bot, is an arbitrary total function here. */
module Collaborators {
  import opened Wrappers

  /** The messages `UnneededEditError` is raised with, plus the two other ways
      `update_file` can fail: an `IndexError` on a hunk index and an exception
      from the syntax snapper during the re-snap of fused windows. */
  datatype ModifyError =
    | NoSnippetsFound
    | NoSnippetsSelected
    | NoSnippetsEdited
    | SnippetIndexOutOfRange(index: nat)
    | SnapFailed(line: int)

  /** A line range `[start, end)` with a similarity score (`Match` of the
      search-and-replace utilities). */
  datatype Match = Match(start: int, end: int, score: real)

  /** The fields of `FileChangeRequest` that the modelled code reads or writes. */
  datatype RequestState = RequestState(
    instructions: string,
    newContent: string,
    entity: Option<string>,
    failedSandboxTest: bool)

  /** The groups captured from the fetch bot's reply: the analysis block (if
      any), every `<extraction_terms>` body and every `<snippet_to_modify>` body. */
  datatype FetchReply = FetchReply(
    analysis: Option<string>,
    termBlocks: seq<string>,
    snippetBlocks: seq<string>)

  /** One `<<<<<<< ORIGINAL (index=N) ... ======= ... >>>>>>> UPDATED` block,
      as captured (the index group is all digits, hence a natural number). */
  datatype Hunk = Hunk(index: nat, originalCode: string, updatedCode: string)

  /** The verdict object `update_file` returns; `requiredRaw` is the raw answer
      that `additional_changes_required` is read from. */
  datatype ChangeValidation = ChangeValidation(additionalChanges: string, requiredRaw: string)

  /** What the change validator yields: the patched file text and its own map
      from snippet index to updated snippet. */
  datatype Validated = Validated(result: string, updatedSnippets: map<nat, string>)

  /** Helpers defined in files that are not part of this model. The file being
      edited is passed explicitly where the source passes it.
      - `findBestMatch(query, file)`: `find_best_match`
      - `splitEllipses(query)`: `split_ellipses`
      - `surrounding(file, line)`: `CodeTree.get_lines_surrounding`, `None` when it raises
      - `findFunctionCalls(name, file)`: `find_function_calls`
      - `slidingWindow(original, search, replace)`: the first component of
        `sliding_window_replacement`
      - `validate(file, request, selected, updated)`: `ChangeValidator.create`
        followed by `apply_validated_changes` and its `updated_snippets`
      - `changesRequired(v)`: `ChangeValidation.additional_changes_required`
      - `generateDiff(old, new)`: `generate_diff`
      - `pythonSpan(file, entity)`: the content of `extract_python_span` */
  datatype Tools = Tools(
    findBestMatch: (string, string) -> Match,
    splitEllipses: string -> seq<string>,
    surrounding: (string, int) -> Option<(int, int)>,
    findFunctionCalls: (string, string) -> seq<(int, int)>,
    slidingWindow: (seq<string>, seq<string>, seq<string>) -> seq<string>,
    validate: (string, RequestState, seq<string>, map<nat, string>) -> Validated,
    changesRequired: ChangeValidation -> bool,
    generateDiff: (string, string) -> string,
    pythonSpan: (string, string) -> string)

  /** What a bot prompt is built from: the code shown, the "changes made"
      message and the request text. */
  datatype Shown = Shown(code: string, changesMade: string, request: string)

  /** The replies of the chat bots, as functions of what they are shown.
      - `fetch(shown)`: the fetch bot's reply, already split into its groups
      - `prune(snippets, shown)`: the indices the pruning bot keeps
      - `update(snippets, shown, failedSandboxTest)`: the hunks parsed from the
        update bot's reply (after the plan bot's analysis, which it is shown)
      - `leftover(code, instructions)`: the leftover-comment extractor */
  datatype Bots = Bots(
    fetch: Shown -> FetchReply,
    prune: (seq<string>, Shown) -> seq<int>,
    update: (seq<string>, Shown, bool) -> seq<Hunk>,
    leftover: (string, string) -> seq<string>)
}
