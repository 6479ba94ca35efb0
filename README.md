# Sweep's snippet editor and embedding batcher, modelled in Dafny

This project models the deterministic core of two files of Sweep, an
assistant that edits a repository file by file.

`sweepai/agents/modify_bot.py` edits one file in several stages:

- A fetch bot names the snippets to change and the terms to search for.
- `update_file` turns those into line windows: it collects candidate
  matches, sorts them, fuses nearby ones and, for Python files, snaps them to
  syntax boundaries.
- It cuts the snippets out, lets a pruning bot keep some of them, and chains
  the update bot's search-and-replace hunks per snippet.
- A change validator produces the new file, whose trailing newlines are
  restored.
- `try_update_file` runs this once and then up to three more rounds, which
  address leftover comments and validator verdicts.

`sweepai/core/vector_db.py` embeds texts in several steps:

- It normalises the texts.
- It cuts the list into batches and embeds each batch.
- When the service reports too many tokens, it halves a batch recursively.
- It merges the new embeddings with those already in a cache.

Everything these pieces call but do not define is a parameter of the model.
That covers chat bots, text matching, syntax trees, the diff generator, the
validator, the embedding service, the cache, the token counter and the
truncator. Each one is an arbitrary total function, held in the `Tools`,
`Bots`, `Loop` and `Embedder` records. The proofs therefore hold for every
possible reply.

Module by module:

- `Wrappers` holds `Option` and `Result`.
- `PyStr` states the Python `str` and list operations the code uses, with
  Python's semantics:
  - `strip` and `rstrip` with a character set;
  - `find` and `rfind`;
  - clamped slicing;
  - `split`, `join`, `splitlines` and `count`.
- `Collaborators` holds the value types and the helper signatures.
- `Fences` models `strip_backticks`.
- `FetchSnippets` models the post-processing of the fetch reply.
- `Candidates` models match collection and the Python re-snap.
- `MatchFusion` models the sort key, `fuse_matches` and the fuse loop.
- `Patching` models snippet selection, pruning, hunk chaining, recombination
  and trailing newlines.
- `ChangesMade` models `get_diffs_message`.
- `UpdateFile` composes the stages of `update_file`.
- `ModifyBot` models `try_update_file` over a mutable `FileChangeRequest`.
- `VectorDb` models `chunk`, the batching of `embed_text_array`,
  `openai_call_embedding` and the cache merge of `openai_with_expo_backoff`.

A loop in the source becomes a method with loop invariants. Each such method
is proved equal to a specification function, and the properties are lemmas
about that function. The cache slots are an `array` filled in place. The file
change request is a class whose fields the retry loop reassigns. The source
sorts the candidates with a float key `start + end * 0.00001`. The model uses
the exact real-valued key, and a lemma shows that the key orders matches
lexicographically by `(start, end)` when every `end` is below 100000.

Three behaviours of the code that a reader might not expect:

- **Rounds of `try_update_file`.** The loop runs three rounds, and each round
  can call `update_file` twice. That makes up to seven `update_file` calls in
  all.
- **File used by the verdict branch.** The branch taken on
  `additional_changes_required` edits the ORIGINAL `file_contents`, not the
  latest result.
- **Exception in the re-snap.** `CodeTree.get_lines_surrounding` raising
  during the re-snap of fused windows is not caught. In the model it is an
  error, `SnapFailed`.

## Model

| member | source | states |
|---|---|---|
| `Fences.StripBackticks` | sweepai/agents/modify_bot.py:157-166 | the result never begins or ends with a newline |
| `Fences.StripBackticksEmptyQuotes` | sweepai/agents/modify_bot.py:164-165 | any input that strips to `""` gives the empty string |
| `Fences.StripBackticksFenceWithoutNewline` | sweepai/agents/modify_bot.py:159-160 | a fenced input without any newline keeps only its last character, because `find` returns -1 |
| `Fences.StripBackticksPlain` | sweepai/agents/modify_bot.py:157-166 | an already stripped, unfenced input other than `""` is returned unchanged |
| `Fences.DropOpeningFenceLine` | sweepai/agents/modify_bot.py:159-160 | an opening fence loses exactly its fence-and-language line; the newline stays |
| `Fences.DropClosingFenceLine` | sweepai/agents/modify_bot.py:161-162 | a closing fence is cut at the newline before it |
| `Fences.StripBackticksEmptyFence` | sweepai/agents/modify_bot.py:634-639 | a fence with a language line and no body, like the module's own example, gives the empty string |
| `Fences.StripBackticksFenced` | sweepai/agents/modify_bot.py:157-166 | a fenced body with no newline at either end comes back exactly |
| `FetchSnippets.LineTerms` | sweepai/agents/modify_bot.py:354-357 | every term kept is non-empty and equal to its own strip; there are at most as many terms as lines |
| `FetchSnippets.ExtractionTerms` | sweepai/agents/modify_bot.py:347-357 | every extraction term is non-empty and equal to its own strip |
| `FetchSnippets.LineTermsOfCleanLines` | sweepai/agents/modify_bot.py:354-357 | lines that are already clean terms are all kept, in order |
| `FetchSnippets.SnippetQueries` | sweepai/agents/modify_bot.py:358-365 | there is one query per snippet block |
| `FetchSnippets.SnippetsToModify` | sweepai/agents/modify_bot.py:337-369 | fails exactly when there is no snippet block, with "No snippets found in file"; otherwise the terms are the cleaned terms and query k is `strip_backticks` of block k |
| `FetchSnippets.CollectLineTerms` | sweepai/agents/modify_bot.py:354-357 | the inner term loop computes `LineTerms` |
| `FetchSnippets.CollectTerms` | sweepai/agents/modify_bot.py:347-357 | the nested term loops compute `ExtractionTerms` |
| `FetchSnippets.CollectQueries` | sweepai/agents/modify_bot.py:358-365 | the query loop computes `SnippetQueries` |
| `FetchSnippets.GetSnippetsToModify` | sweepai/agents/modify_bot.py:315-369 | the post-processing of the fetch reply computes `SnippetsToModify` |
| `Candidates.SectionMatchesAccepted` | sweepai/agents/modify_bot.py:386-389 | a match is collected iff it is the best match of some section and scores above 50 |
| `Candidates.QuoteMatchesAccepted` | sweepai/agents/modify_bot.py:383-393 | a match is collected iff some query accepts it, either whole or through one of its ellipsis sections |
| `Candidates.QuoteScoresAbove` | sweepai/agents/modify_bot.py:383-393 | every quotation match collected scores above 50 |
| `Candidates.FewEllipsesMatchWhole` | sweepai/agents/modify_bot.py:384-393 | a query with at most two `...` is matched whole and is kept only above 50 |
| `Candidates.LineHitsPerTerm` | sweepai/agents/modify_bot.py:396-413 | a line gives one range per keyword it contains: the surrounding span, or the line itself when that raises, with end + 1 and score 100 |
| `Candidates.NonPythonLineHits` | sweepai/agents/modify_bot.py:400-413 | in a non-Python file, each keyword hit on line i is `Match(i, i + 1, 100)` |
| `Candidates.CallSiteMatches` | sweepai/agents/modify_bot.py:416-425 | there is one match per call site found |
| `Candidates.HeaderMatch` | sweepai/agents/modify_bot.py:426-434 | the header match ends between line 1 and line 10 |
| `Candidates.CandidatesEndWithHeader` | sweepai/agents/modify_bot.py:426-437 | the candidate list is never empty and ends with `Match(0, e, 100)` where 1 <= e <= 10, so "No matches found in file" cannot be raised |
| `Candidates.CollectSectionMatches` | sweepai/agents/modify_bot.py:386-389 | the section loop computes `SectionMatches` |
| `Candidates.CollectQuoteMatches` | sweepai/agents/modify_bot.py:383-393 | the query loop computes `QuoteMatches` |
| `Candidates.CollectLineHits` | sweepai/agents/modify_bot.py:397-413 | the keyword loop for one line computes `LineHits` |
| `Candidates.CollectKeywordMatches` | sweepai/agents/modify_bot.py:395-413 | the line loop computes `KeywordMatches` |
| `Candidates.CollectCallMatches` | sweepai/agents/modify_bot.py:416-425 | the call-site loops compute `CallMatches` |
| `Candidates.CollectMatches` | sweepai/agents/modify_bot.py:383-434 | `best_matches` is, in order, the quotation, keyword, call and header matches |
| `Candidates.ResnapSpec` | sweepai/agents/modify_bot.py:465-477 | the re-snap succeeds iff every window snaps; window k becomes the k-th snapped window; a failure is the first window's failure |
| `Candidates.SnapKeepsScore` | sweepai/agents/modify_bot.py:470-475 | a snapped window keeps its score |
| `Candidates.ResnapLoop` | sweepai/agents/modify_bot.py:465-477 | the re-snap loop computes `Resnap` |
| `Candidates.EarlyErrorSticks` | sweepai/agents/modify_bot.py:465-477 | once a window fails to snap, later windows do not change the outcome |
| `MatchFusion.Insert` | sweepai/agents/modify_bot.py:441 | inserting into a key-sorted list keeps it sorted and adds exactly one element |
| `MatchFusion.SortMatches` | sweepai/agents/modify_bot.py:441 | the sorted candidates are ordered by the key and are a permutation of the input |
| `MatchFusion.KeyOrderIsLexicographic` | sweepai/agents/modify_bot.py:441 | when ends are below 100000, key order is lexicographic order on (start, end), in both directions |
| `MatchFusion.SortedByStart` | sweepai/agents/modify_bot.py:441 | the sorted candidates are lexicographically sorted, hence sorted by start |
| `MatchFusion.FuseMatches` | sweepai/agents/modify_bot.py:443-448 | the fused start, end and score are the minimum start, maximum end and minimum score of the two matches |
| `MatchFusion.FuseLoop` | sweepai/agents/modify_bot.py:450-464 | the fuse loop computes `Fuse` |
| `MatchFusion.FuseFromCount` | sweepai/agents/modify_bot.py:455-464 | the rest of the scan yields at least one window and at most one per remaining match plus one |
| `MatchFusion.FuseCount` | sweepai/agents/modify_bot.py:450-464 | there are at least one and at most as many windows as candidates |
| `MatchFusion.FuseFromCovers` | sweepai/agents/modify_bot.py:455-464 | the first window covers the running window, and every later match lies in some window |
| `MatchFusion.FuseCovers` | sweepai/agents/modify_bot.py:450-464 | every candidate range lies inside some output window |
| `MatchFusion.FuseFromSeparated` | sweepai/agents/modify_bot.py:455-464 | over start-sorted input, consecutive windows are more than 5 lines apart |
| `MatchFusion.FuseSeparated` | sweepai/agents/modify_bot.py:450-464 | between consecutive windows, `next.start - prev.end > 5` |
| `MatchFusion.FuseFromWellFormed` | sweepai/agents/modify_bot.py:455-464 | fusing keeps `start <= end` for every window |
| `MatchFusion.SeparatedDisjoint` | sweepai/agents/modify_bot.py:450-464 | separated, well-formed windows are sorted by start and pairwise disjoint |
| `MatchFusion.SeparatedChain` | sweepai/agents/modify_bot.py:450-464 | any earlier window ends before any later one starts |
| `MatchFusion.FuseDisjoint` | sweepai/agents/modify_bot.py:450-464 | over start-sorted, well-formed candidates the windows are sorted by start and pairwise disjoint |
| `MatchFusion.SortAndFuse` | sweepai/agents/modify_bot.py:441-464 | sorting then fusing well-formed candidates with ends below 100000 gives between 1 and n windows that are sorted by start, pairwise disjoint, more than 5 lines apart, and cover every candidate |
| `MatchFusion.FuseFromSeparatedIdentity` | sweepai/agents/modify_bot.py:455-464 | scanning already separated windows changes nothing |
| `MatchFusion.FuseIdempotent` | sweepai/agents/modify_bot.py:450-464 | fusing the fused windows again gives the same windows |
| `MatchFusion.FuseAllExtremes` | sweepai/agents/modify_bot.py:443-448 | a group's window starts at the group's minimum start, ends at its maximum end and has its minimum score |
| `MatchFusion.GroupsFrom` | sweepai/agents/modify_bot.py:455-464 | every group the scan closes is non-empty |
| `MatchFusion.Groups` | sweepai/agents/modify_bot.py:450-464 | every group of merged candidates is non-empty |
| `MatchFusion.GroupsFromFlatten` | sweepai/agents/modify_bot.py:455-464 | the groups, concatenated, are the open group followed by the rest of the input |
| `MatchFusion.GroupsFromWindows` | sweepai/agents/modify_bot.py:455-464 | the scan's windows are the fusions of its groups |
| `MatchFusion.FuseIsWindowsOfGroups` | sweepai/agents/modify_bot.py:450-464 | the candidates split into consecutive groups, and each window is the fusion of one group, so its score is the minimum score merged into it |
| `Patching.SelectSnippets` | sweepai/agents/modify_bot.py:479-483 | there is one snippet per window |
| `Patching.SelectLoop` | sweepai/agents/modify_bot.py:479-483 | the selection loop computes `SelectSnippets` |
| `Patching.WholeFileSnippet` | sweepai/agents/modify_bot.py:480-483 | a window from line 0 to at least the last line cuts out the whole file unchanged (`"\n".join(file.split("\n"))` is the file) |
| `Patching.SnippetIsItsLines` | sweepai/agents/modify_bot.py:480-483 | for an in-range window, the snippet's lines are exactly the file's lines `start .. end` |
| `Patching.KeptIndicesSpec` | sweepai/agents/modify_bot.py:512-516 | the kept positions are exactly the in-range positions named by the pruner, increasing |
| `Patching.KeptIsSubsequence` | sweepai/agents/modify_bot.py:512-516 | the pruned list is the subsequence of the snippets at the kept positions, in order |
| `Patching.PruneLoop` | sweepai/agents/modify_bot.py:512-516 | the pruning loop computes `Kept` |
| `Patching.NoHunksFor` | sweepai/agents/modify_bot.py:572-588 | an index that no hunk names has no hunks to apply |
| `Patching.ChainOk` | sweepai/agents/modify_bot.py:572-588 | chaining succeeds iff every hunk names an existing snippet |
| `Patching.ChainError` | sweepai/agents/modify_bot.py:577 | a failure names the first out-of-range hunk index |
| `Patching.ChainKeys` | sweepai/agents/modify_bot.py:578-582 | the updated indices are exactly those some hunk names |
| `Patching.ChainValues` | sweepai/agents/modify_bot.py:577-588 | each updated snippet is its original snippet with that index's hunks applied in order |
| `Patching.ChainStep` | sweepai/agents/modify_bot.py:577-588 | a hunk applies to the latest version of its snippet, or to the original when it is the snippet's first hunk |
| `Patching.ChainLoop` | sweepai/agents/modify_bot.py:572-588 | the hunk loop over the `updated_snippets` dictionary computes `Chain` |
| `Patching.ChainErrorSticks` | sweepai/agents/modify_bot.py:572-577 | after an out-of-range hunk, later hunks do not change the outcome |
| `Patching.FirstIndex` | sweepai/agents/modify_bot.py:610 | `list.index` gives the first position holding the snippet |
| `Patching.RecombineDistinct` | sweepai/agents/modify_bot.py:606-613 | with pairwise different snippets, `new_code` is, in index order, the validator's version of each snippet that both the bot and the validator updated |
| `Patching.RecombineLoop` | sweepai/agents/modify_bot.py:606-613 | the recombination loop computes `Recombine` |
| `Patching.TrailingNewlinesKept` | sweepai/agents/modify_bot.py:615-616 | the result has exactly the file's number of trailing newlines, and the rest is `result.rstrip("\n")` |
| `ChangesMade.MessageEmptyIff` | sweepai/agents/modify_bot.py:207-221 | the message is empty iff no diff was recorded, the file is unchanged and there are no additional diffs |
| `ChangesMade.MessageShape` | sweepai/agents/modify_bot.py:207-221 | otherwise the message opens with the "Changes Made" header and ends with the additional diffs and `</diff>` |
| `ChangesMade.MessageBody` | sweepai/agents/modify_bot.py:210-220 | for an unchanged file the body is the recorded diff; otherwise the body ends with `generate_diff(old, file)` |
| `UpdateFile.UpdateFileOutcome` | sweepai/agents/modify_bot.py:371-631 | a successful `update_file` keeps the file's trailing newlines, returns the "no" verdict, and under `DEBUG` has no leftover comments |
| `UpdateFile.EditOutcome` | sweepai/agents/modify_bot.py:479-631 | the stages after windowing keep trailing newlines and return the "no" verdict |
| `UpdateFile.SingleSnippetSkipsPruner` | sweepai/agents/modify_bot.py:491-516 | with a single snippet, whatever the pruning bot would answer the outcome is the same, and the update bot is handed the one selected snippet unchanged |
| `UpdateFile.NonPythonWindowsShape` | sweepai/agents/modify_bot.py:383-464 | for well-formed candidates with ends below 100000, a non-Python file's windows are sorted by start, pairwise disjoint, more than 5 lines apart, and cover every candidate |
| `UpdateFile.NoSnippetsSelectedOnlyFromPruner` | sweepai/agents/modify_bot.py:491-510 | "No snippets selected" needs more than one window |
| `UpdateFile.FuseCandidates` | sweepai/agents/modify_bot.py:383-464 | collecting, sorting and fusing computes `Fuse(SortMatches(CandidateMatches(...)))` |
| `UpdateFile.ComputeWindows` | sweepai/agents/modify_bot.py:441-477 | the windows are the fused candidates, re-snapped for Python files |
| `UpdateFile.EditSnippets` | sweepai/agents/modify_bot.py:479-631 | selection through leftover extraction computes `Edit` |
| `UpdateFile.Update` | sweepai/agents/modify_bot.py:371-631 | `update_file` computes `UpdateFileSpec` |
| `ModifyBot.FileChangeRequest.constructor` | sweepai/agents/modify_bot.py:253 | a copy of a request has the same field values |
| `ModifyBot.AttemptMethod` | sweepai/agents/modify_bot.py:230-249 | one attempt is `get_snippets_to_modify` followed by `update_file` |
| `ModifyBot.AttemptOutcome` | sweepai/agents/modify_bot.py:230-249 | a successful attempt keeps the trailing newlines and returns the "no" verdict |
| `ModifyBot.AddressLeftover` | sweepai/agents/modify_bot.py:251-282 | the leftover branch edits the latest result under a copied request and leaves the caller's request unchanged |
| `ModifyBot.AddressVerdict` | sweepai/agents/modify_bot.py:283-312 | the verdict branch rewrites the request's new content and instructions, then edits the original file |
| `ModifyBot.RunRound` | sweepai/agents/modify_bot.py:250-312 | one round is the leftover branch followed by the verdict branch |
| `ModifyBot.RetryUnfold` | sweepai/agents/modify_bot.py:250 | a round of the loop is its step followed by the remaining rounds |
| `ModifyBot.TryUpdateFile` | sweepai/agents/modify_bot.py:223-313 | the method returns the result, or the error, of `TryUpdate`, and leaves the request in the state `TryUpdate` describes |
| `ModifyBot.RetryAttempts` | sweepai/agents/modify_bot.py:250-312 | each round makes at most two attempts, and at most one under `DEBUG` |
| `ModifyBot.TryUpdateAttempts` | sweepai/agents/modify_bot.py:223-313 | `try_update_file` makes between 1 and 7 attempts, and at most 4 under `DEBUG`; an attempt is a `get_snippets_to_modify` call, followed by `update_file` when that call succeeds |
| `ModifyBot.RetryQuiescent` | sweepai/agents/modify_bot.py:250-312 | with no leftover comments and no changes required, the rounds change nothing |
| `ModifyBot.TryUpdateSettled` | sweepai/agents/modify_bot.py:241-313 | a first attempt with nothing left to do is the final result, made in one attempt |
| `ModifyBot.RetryKeepsRequest` | sweepai/agents/modify_bot.py:250-312 | when each attempt returns a verdict that requires nothing, the request is never rewritten |
| `ModifyBot.AttemptsReturnNoChanges` | sweepai/agents/modify_bot.py:598-603 | every successful attempt returns the fixed "no" verdict |
| `ModifyBot.TryUpdateKeepsRequest` | sweepai/agents/modify_bot.py:283-285 | if the "no" verdict requires nothing, the caller's request is left unchanged |
| `ModifyBot.RetryTrailingNewlines` | sweepai/agents/modify_bot.py:250-312 | rounds whose attempts keep trailing newlines keep them in the final result |
| `ModifyBot.AttemptsKeepTrailing` | sweepai/agents/modify_bot.py:615-616 | every successful attempt keeps the trailing newlines of the text it edits |
| `ModifyBot.TryUpdateTrailingNewlines` | sweepai/agents/modify_bot.py:223-313 | a successful `try_update_file` returns text with exactly the file's trailing newlines |
| `VectorDb.Blank` | sweepai/core/vector_db.py:40 | the result is non-empty, and a non-empty text is kept |
| `VectorDb.Normalised` | sweepai/core/vector_db.py:38-40 | a text becomes its first 25000 characters, and an empty text becomes `" "`; either way the length is 1 to 25000 |
| `VectorDb.NormalisedAll` | sweepai/core/vector_db.py:38-40 | normalising keeps the number of texts |
| `VectorDb.BlankAll` | sweepai/core/vector_db.py:74 | blanking keeps the number of texts |
| `VectorDb.Slices` | sweepai/core/vector_db.py:75 | there are ceil(n / size) slices |
| `VectorDb.ChunkFromFlatten` | sweepai/core/vector_db.py:42-43 | the batches concatenate back to the texts |
| `VectorDb.ChunkFromCount` | sweepai/core/vector_db.py:42-43 | there are ceil(n / size) batches |
| `VectorDb.ChunkFromAt` | sweepai/core/vector_db.py:42-43 | batch k is the clamped slice starting k batch sizes in |
| `VectorDb.ChunkFromSizes` | sweepai/core/vector_db.py:42-43 | every batch has 1 to `size` texts, and all but the last have exactly `size` |
| `VectorDb.ChunkTexts` | sweepai/core/vector_db.py:36-43 | every text `chunk` yields has length 1 to 25000 |
| `VectorDb.ChunkBatches` | sweepai/core/vector_db.py:36-43 | for a positive size the batches concatenate to the normalised texts, number ceil(n / size), and all but the last are full |
| `VectorDb.ChunkIsSlices` | sweepai/core/vector_db.py:42-43 | `chunk`'s batches are the slices `embed_text_array` builds |
| `VectorDb.EmbedBatchesCover` | sweepai/core/vector_db.py:72-75 | `embed_text_array`'s batches are contiguous, cover the blanked texts in order, number ceil(n / size), and all but the last are full |
| `VectorDb.CallEmbedding` | sweepai/core/vector_db.py:135-149 | an empty batch embeds to the empty list without calling the service |
| `VectorDb.HalvingKeepsOrder` | sweepai/core/vector_db.py:135-149 | with a service that embeds text by text, a successful halving gives the per-text embeddings of the batch, in order |
| `VectorDb.HalvingSucceeds` | sweepai/core/vector_db.py:139-147 | if single texts always embed and every failure is the splittable token-limit error, halving always succeeds |
| `VectorDb.HalvingErrors` | sweepai/core/vector_db.py:141-149 | a failure is the service's error on some contiguous sub-batch, and that error was not splittable |
| `VectorDb.FillFromIs` | sweepai/core/vector_db.py:163-168 | a slot is filled exactly when its cache value is present, only up to where the fill stops |
| `VectorDb.CachedSlots` | sweepai/core/vector_db.py:161-168 | slot j holds the cached embedding iff the lookup succeeded and entry j is a hit before the fill stops; otherwise it is empty |
| `VectorDb.NonePositions` | sweepai/core/vector_db.py:193 | the empty positions, all of them, increasing |
| `VectorDb.UncachedAtPositions` | sweepai/core/vector_db.py:170-172 | the uncached texts are exactly the texts at the empty positions, in order |
| `VectorDb.PlaceFromIs` | sweepai/core/vector_db.py:196-197 | the k-th listed position receives the k-th embedding, and every other slot is untouched |
| `VectorDb.PlaceNew` | sweepai/core/vector_db.py:193-197 | after placement no slot is empty, the k-th empty slot holds the k-th new embedding, and cached slots keep their value |
| `VectorDb.PlaceNewFills` | sweepai/core/vector_db.py:196-197 | after placement no slot is empty |
| `VectorDb.FillSlots` | sweepai/core/vector_db.py:163-168 | the in-place fill loop over the slot array computes `FillFrom` |
| `VectorDb.PlaceSlots` | sweepai/core/vector_db.py:196-197 | the in-place placement loop computes `PlaceFrom` |
| `VectorDb.EmbedWithBackoff` | sweepai/core/vector_db.py:157-211 | the method computes `WithBackoff` |
| `VectorDb.AllCached` | sweepai/core/vector_db.py:173-175 | when every text is cached, the result does not depend on the embedding service and is the cached embeddings |
| `VectorDb.BackoffMerge` | sweepai/core/vector_db.py:161-197 | cached positions keep their embedding, and the k-th empty position gets the k-th embedding of the uncached texts |
| `VectorDb.MergeKeepsOrder` | sweepai/core/vector_db.py:170-197 | merging correct cached embeddings with the per-text embeddings of the uncached texts gives the per-text embeddings of the whole batch |
| `VectorDb.BackoffKeepsOrder` | sweepai/core/vector_db.py:157-211 | with a faithful service and a faithful cache, a successful result is the per-text embedding of the batch in every case except the truncation retry (a failed first call on the uncached texts with one of them over the 8192-token limit), which `VectorDb.BackoffTruncatedKeepsOrder` covers |
| `VectorDb.AllCachedKeepsOrder` | sweepai/core/vector_db.py:161-175 | with every text cached and a cache that agrees with the embedding, the result is the per-text embedding of the batch |
| `VectorDb.BackoffDirectValue` | sweepai/core/vector_db.py:176-197 | away from the truncation retry, a successful result with some uncached text means the first call on the uncached texts succeeded, and the result is that call's embeddings placed into the empty slots |
| `VectorDb.DirectMergeKeepsOrder` | sweepai/core/vector_db.py:179-197 | when the first call on the uncached texts succeeds, with a faithful service and cache, placing its embeddings gives the per-text embedding of the batch |
| `VectorDb.MergeFresh` | sweepai/core/vector_db.py:193-197 | placing any per-text embedding of the uncached texts gives each empty position the embedding of its own text and keeps the cached ones |
| `VectorDb.MergeTruncated` | sweepai/core/vector_db.py:188-197 | placing the embeddings of the truncated uncached texts gives each empty position the embedding of its truncated text |
| `VectorDb.BackoffTruncatedValue` | sweepai/core/vector_db.py:182-197 | after a failed first call with some text over the token limit, a successful result is the merge of the embeddings of the truncated uncached texts |
| `VectorDb.BackoffTruncatedKeepsOrder` | sweepai/core/vector_db.py:182-197 | on the truncation path, with a faithful service and cache, a successful result holds the cached embedding at each cached position and the embedding of the truncated text at every other one |
| `VectorDb.EmbedAll` | sweepai/core/vector_db.py:89 | embedding all batches succeeds iff each batch does, with one result per batch, in order |
| `VectorDb.EmbedAllError` | sweepai/core/vector_db.py:89 | a failure is the first failing batch's error |
| `VectorDb.EmbedTextArrayPerBatch` | sweepai/core/vector_db.py:72-90 | `embed_text_array` returns one result per batch of `BATCH_SIZE` blanked texts, each the backoff embedding of that batch |

## Left out

- Chat bots and prompts:
  - The fetch, plan, update, prune and leftover-comment bots are functions
    from what they are shown to their parsed reply.
  - The prompt templates, the `ChatGPT` sessions and the `messages[:-2]`
    history truncation are not modelled.
  - The plan bot's analysis only feeds the update bot, so it is folded into
    the update reply.
- Parsing: regular-expression capture of the `<extraction_terms>`,
  `<snippet_to_modify>`, `<analysis_and_identification>` and `ORIGINAL/UPDATED`
  blocks. The model starts from the captured groups. The `strip("\n")` of the
  two captured hunk sides is modelled, in `Patching.ApplyHunk`.
- Helpers whose source is not part of this model are arbitrary functions, and
  their internals are not modelled:
  - `find_best_match`, `split_ellipses`, `CodeTree`, `extract_python_span`,
    `find_function_calls`, `generate_diff`;
  - the change validator;
  - `sliding_window_replacement`, of which only the first component is used.
- `CodeTree.from_code`: its own failure on an unparsable Python file is not
  modelled. An exception from `get_lines_surrounding` is modelled: during
  keyword collection it falls back to the line itself, and during the re-snap
  it is the error `SnapFailed`.
- Sort key:
  - Floating-point rounding of `start + end * 0.00001` is not modelled; the key
    is exact.
  - The model sorts by insertion. Like Python's `sort`, it is stable: an
    element goes after every element whose key is not greater.
- `uuid` identifiers, the `copy.deepcopy` of fields other than the four the
  code reads, and the `chunking` flag are not modelled: they only reach prompts
  or identifiers.
- `Candidates.CallSiteMatches`: states only the number of matches. That each
  call site `(s, e)` becomes `Match(s, e + 1, 100)` is its definition.
- Re-snap: the Python re-snap is not fused again. The disjointness and
  separation lemmas hold for the fused windows before it, not after it.
- Recombination: `selected_snippets.index` finds the first equal snippet.
  `Patching.RecombineDistinct` describes the result only when the snippets are
  pairwise different. With duplicates, the model keeps the source's
  first-match behaviour but proves nothing further about it.
- Embedding service: OpenAI, Voyage and SageMaker are one function
  `service` from a batch to embeddings or an error. The model does not cover:
  - the `normalize_l2` and `cosine_similarity` float arithmetic;
  - numpy array conversion and concatenation;
  - the slice to 512 dimensions.
- Cache I/O: a `lookup` function models Redis `mget`, `json` decoding and its
  failure. The key hashing, `CACHE_VERSION`, and the final `mset` write and its
  swallowed failure are not modelled, because they have no effect on the
  returned value.
- `backoff.on_exception` retries on `Timeout`: with a deterministic service
  every retry would return the same answer, so they are not modelled.
  Inside the function a `Timeout` is logged and swallowed, and the
  `new_embeddings` variable is then unbound at its next use. That path is
  modelled as the error `UnboundEmbeddings`.
- Tokens: `tiktoken` counting and truncation are functions of the `Embedder`
  record.
- Concurrency: the `multiprocessing.Pool` in `embed_text_array` maps
  `openai_with_expo_backoff` over the batches in order. It is modelled as the
  sequential map.
- Laziness of `chunk`: `chunk` is a generator, so a zero `batch_size` raises
  only when iteration starts. The model returns the error `ZeroStep`.
- `chunk`'s logging, and the unused `get_query_texts_similarity`, are not
  modelled.
- Configuration: module globals such as `DEBUG` and `BATCH_SIZE` are
  parameters. Whether a Redis client exists is the `hasCache` field.
