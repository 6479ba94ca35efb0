/** `try_update_file` of `ModifyBot` in `modify_bot.py`: one fetch-and-update
    attempt, then up to three rounds that re-run it on the leftover comments
    and on the validator's verdict, mutating the file change request in place. */
module ModifyBot {
  import opened Wrappers
  import opened PyStr
  import opened Collaborators
  import opened FetchSnippets
  import opened ChangesMade
  import opened UpdateFile

  /** The fields of `FileChangeRequest` the retry loop reads and writes. */
  class FileChangeRequest {
    var instructions: string
    var newContent: string
    var entity: Option<string>
    var failedSandboxTest: bool

    constructor (s: RequestState)
      ensures Snapshot() == s
    {
      instructions := s.instructions;
      newContent := s.newContent;
      entity := s.entity;
      failedSandboxTest := s.failedSandboxTest;
    }

    /** The request's current field values. */
    function Snapshot(): RequestState
      reads this
    {
      RequestState(instructions, newContent, entity, failedSandboxTest)
    }
  }

  /** What the fetch bot is shown for a file and a request. */
  function FetchShown(ctx: Context, file: string, req: RequestState): Shown
  {
    Shown(ShownCode(ctx.tools, file, req), DiffsMessage(ctx.tools, ctx.history, file), req.instructions)
  }

  /** `get_snippets_to_modify` followed by `update_file` on the same file and request. */
  function Attempt(ctx: Context, file: string, req: RequestState): Result<Outcome, ModifyError>
  {
    match SnippetsToModify(ctx.bots.fetch(FetchShown(ctx, file, req)))
    case Err(e) => Err(e)
    case Ok(f) => UpdateFileSpec(ctx, file, req, f.queries, f.terms, f.analysis)
  }

  method AttemptMethod(ctx: Context, file: string, req: RequestState) returns (r: Result<Outcome, ModifyError>)
    ensures r == LoopOf(ctx).attempt(file, req)
  {
    var fetched := GetSnippetsToModify(ctx.bots.fetch(FetchShown(ctx, file, req)));
    if fetched.Err? {
      return Err(fetched.error);
    }
    r := Update(ctx, file, req, fetched.value.queries, fetched.value.terms, fetched.value.analysis);
  }

  /** A successful attempt keeps the trailing newlines of the file it ran on and
      returns the fixed "no" verdict. */
  lemma AttemptOutcome(ctx: Context, file: string, req: RequestState)
    ensures var r := Attempt(ctx, file, req);
      r.Ok? ==> (TrailingCount(r.value.result, '\n') == TrailingCount(file, '\n') && r.value.validation == NoChanges)
  {
    var fetched := SnippetsToModify(ctx.bots.fetch(FetchShown(ctx, file, req)));
    if fetched.Ok? {
      var f := fetched.value;
      UpdateFileOutcome(ctx, file, req, f.queries, f.terms, f.analysis);
    }
  }

  const LeftoverInstructions := "Address all of the unfinished code changes here: \n"

  /** `for _ in range(3)`. */
  const Rounds := 3

  /** The state of the retry loop: the last attempt's outcome (or the error it
      raised), the fields of `file_change_request`, and how many attempts ran. */
  datatype Progress = Progress(status: Result<Outcome, ModifyError>, request: RequestState, attempts: nat)

  /** The deep copy made for the leftover round: its new content is the last
      result and its instructions list the leftover comments. */
  function LeftoverRequest(req: RequestState, newFile: string, leftover: seq<string>): RequestState
  {
    req.(newContent := newFile, instructions := LeftoverInstructions + Join(leftover, "\n"))
  }

  /** `Attempt` as a value, for the retry loop. */
  function AttemptFn(ctx: Context): (string, RequestState) -> Result<Outcome, ModifyError>
  {
    (file, req) => Attempt(ctx, file, req)
  }

  /** The parts of the context the retry loop itself consults. */
  datatype Loop = Loop(
    attempt: (string, RequestState) -> Result<Outcome, ModifyError>,
    changesRequired: ChangeValidation -> bool,
    debug: bool)

  function LoopOf(ctx: Context): Loop
  {
    Loop(AttemptFn(ctx), ctx.tools.changesRequired, ctx.debug)
  }

  /** One iteration of the retry loop. The leftover branch runs on the last
      result with a copy of the request; the verdict branch updates the request
      itself and runs on the original file contents. */
  function Round(l: Loop, file: string, p: Progress): Progress
    requires p.status.Ok?
  {
    var p1 := LeftoverStep(l, p);
    if p1.status.Err? then p1 else VerdictStep(l, file, p1)
  }

  /** Re-running on the last result to address its leftover comments. */
  function LeftoverStep(l: Loop, p: Progress): Progress
    requires p.status.Ok?
  {
    var out := p.status.value;
    if out.leftover != [] && !l.debug then
      Progress(l.attempt(out.result, LeftoverRequest(p.request, out.result, out.leftover)), p.request, p.attempts + 1)
    else p
  }

  /** Re-running on the original file when the verdict requires more changes. */
  function VerdictStep(l: Loop, file: string, p: Progress): Progress
    requires p.status.Ok?
  {
    var v := p.status.value.validation;
    if l.changesRequired(v) then
      var req := p.request.(newContent := p.status.value.result, instructions := v.additionalChanges);
      Progress(l.attempt(file, req), req, p.attempts + 1)
    else p
  }

  /** The remaining `rounds` iterations; an error ends the loop. */
  function RetryFrom(l: Loop, file: string, p: Progress, rounds: nat): Progress
    decreases rounds
  {
    if rounds == 0 || p.status.Err? then p else RetryFrom(l, file, Round(l, file, p), rounds - 1)
  }

  /** `try_update_file` for a file and the request's initial fields. */
  function TryUpdate(ctx: Context, file: string, req: RequestState): Progress
  {
    var l := LoopOf(ctx);
    RetryFrom(l, file, Progress(l.attempt(file, req), req, 1), Rounds)
  }

  /** The leftover-comments half of the loop body: the request is copied, so
      only the copy's fields change. */
  method AddressLeftover(ctx: Context, current: Outcome, fcr: FileChangeRequest, ghost attempts: nat)
    returns (next: Result<Outcome, ModifyError>, ghost after: nat)
    ensures LeftoverStep(LoopOf(ctx), Progress(Ok(current), fcr.Snapshot(), attempts))
         == Progress(next, fcr.Snapshot(), after)
  {
    next := Ok(current);
    after := attempts;
    if current.leftover != [] && !ctx.debug {
      var copy := new FileChangeRequest(fcr.Snapshot());
      copy.newContent := current.result;
      copy.instructions := LeftoverInstructions + Join(current.leftover, "\n");
      assert copy.Snapshot() == LeftoverRequest(fcr.Snapshot(), current.result, current.leftover);
      next := AttemptMethod(ctx, current.result, copy.Snapshot());
      after := after + 1;
    }
  }

  /** The verdict half of the loop body: the request itself is updated. */
  method AddressVerdict(ctx: Context, file: string, current: Outcome, fcr: FileChangeRequest, ghost attempts: nat)
    returns (next: Result<Outcome, ModifyError>, ghost after: nat)
    modifies fcr
    ensures VerdictStep(LoopOf(ctx), file, Progress(Ok(current), old(fcr.Snapshot()), attempts))
         == Progress(next, fcr.Snapshot(), after)
  {
    next := Ok(current);
    after := attempts;
    if ctx.tools.changesRequired(current.validation) {
      fcr.newContent := current.result;
      fcr.instructions := current.validation.additionalChanges;
      next := AttemptMethod(ctx, file, fcr.Snapshot());
      after := after + 1;
    }
  }

  /** The body of the `for` loop of `try_update_file`, on the outcome of the
      previous attempt; an error ends the iteration early. */
  method RunRound(ctx: Context, file: string, current: Outcome, fcr: FileChangeRequest, ghost attempts: nat)
    returns (next: Result<Outcome, ModifyError>, ghost after: nat)
    modifies fcr
    ensures Round(LoopOf(ctx), file, Progress(Ok(current), old(fcr.Snapshot()), attempts))
         == Progress(next, fcr.Snapshot(), after)
  {
    next, after := AddressLeftover(ctx, current, fcr, attempts);
    if next.Ok? {
      next, after := AddressVerdict(ctx, file, next.value, fcr, after);
    }
  }

  lemma RetryUnfold(l: Loop, file: string, p: Progress, rounds: nat)
    requires rounds > 0 && p.status.Ok?
    ensures RetryFrom(l, file, p, rounds) == RetryFrom(l, file, Round(l, file, p), rounds - 1)
  {
  }

  /** `try_update_file`: the new file, or the error one of its attempts raised. */
  method TryUpdateFile(ctx: Context, file: string, fcr: FileChangeRequest) returns (r: Result<string, ModifyError>)
    modifies fcr
    ensures var p := TryUpdate(ctx, file, old(fcr.Snapshot()));
      fcr.Snapshot() == p.request
      && r == (if p.status.Ok? then Ok(p.status.value.result) else Err(p.status.error))
  {
    var l := LoopOf(ctx);
    ghost var spec := TryUpdate(ctx, file, fcr.Snapshot());
    var first := AttemptMethod(ctx, file, fcr.Snapshot());
    if first.Err? {
      return Err(first.error);
    }
    var current := first.value;
    ghost var attempts := 1;
    for i := 0 to Rounds
      invariant RetryFrom(l, file, Progress(Ok(current), fcr.Snapshot(), attempts), Rounds - i) == spec
    {
      ghost var before := Progress(Ok(current), fcr.Snapshot(), attempts);
      RetryUnfold(l, file, before, Rounds - i);
      var next;
      next, attempts := RunRound(ctx, file, current, fcr, attempts);
      if next.Err? {
        return Err(next.error);
      }
      current := next.value;
    }
    r := Ok(current.result);
  }

  /** Every iteration runs at most two attempts, and only the verdict one
      under `DEBUG`. */
  lemma {:induction false} RetryAttempts(l: Loop, file: string, p: Progress, rounds: nat)
    ensures p.attempts <= RetryFrom(l, file, p, rounds).attempts <= p.attempts + 2 * rounds
    ensures l.debug ==> RetryFrom(l, file, p, rounds).attempts <= p.attempts + rounds
    decreases rounds
  {
    if rounds > 0 && p.status.Ok? {
      RetryAttempts(l, file, Round(l, file, p), rounds - 1);
    }
  }

  /** `try_update_file` makes at least one and at most seven attempts (at
      most four under `DEBUG`); each attempt is a `get_snippets_to_modify`
      call, followed by `update_file` when that call succeeds. */
  lemma TryUpdateAttempts(ctx: Context, file: string, req: RequestState)
    ensures 1 <= TryUpdate(ctx, file, req).attempts <= 1 + 2 * Rounds
    ensures ctx.debug ==> TryUpdate(ctx, file, req).attempts <= 1 + Rounds
  {
    RetryAttempts(LoopOf(ctx), file, Progress(Attempt(ctx, file, req), req, 1), Rounds);
  }

  /** A settled outcome (no leftover comments to address, no further changes
      required) is a fixed point of an iteration. */
  lemma {:induction false} RetryQuiescent(l: Loop, file: string, p: Progress, rounds: nat)
    requires p.status.Ok?
    requires p.status.value.leftover == [] || l.debug
    requires !l.changesRequired(p.status.value.validation)
    ensures RetryFrom(l, file, p, rounds) == p
    decreases rounds
  {
    if rounds > 0 {
      assert Round(l, file, p) == p;
      RetryQuiescent(l, file, p, rounds - 1);
    }
  }

  /** When the first attempt leaves nothing to address, its result is returned
      after exactly one attempt and the request is left as it was. */
  lemma TryUpdateSettled(ctx: Context, file: string, req: RequestState)
    requires Attempt(ctx, file, req).Ok?
    requires Attempt(ctx, file, req).value.leftover == [] || ctx.debug
    requires !ctx.tools.changesRequired(Attempt(ctx, file, req).value.validation)
    ensures TryUpdate(ctx, file, req) == Progress(Attempt(ctx, file, req), req, 1)
  {
    RetryQuiescent(LoopOf(ctx), file, Progress(Attempt(ctx, file, req), req, 1), Rounds);
  }

  /** Every successful attempt returns the verdict `v`. */
  ghost predicate AlwaysReturns(l: Loop, v: ChangeValidation)
  {
    forall f, r :: l.attempt(f, r).Ok? ==> l.attempt(f, r).value.validation == v
  }

  /** If the verdict every attempt returns does not require changes, the
      verdict branch never runs, so the request's fields are never changed. */
  lemma {:induction false} RetryKeepsRequest(l: Loop, file: string, p: Progress, rounds: nat, v: ChangeValidation)
    requires AlwaysReturns(l, v) && !l.changesRequired(v)
    requires p.status.Ok? ==> p.status.value.validation == v
    ensures RetryFrom(l, file, p, rounds).request == p.request
    decreases rounds
  {
    if rounds > 0 && p.status.Ok? {
      RetryKeepsRequest(l, file, Round(l, file, p), rounds - 1, v);
    }
  }

  lemma AttemptsReturnNoChanges(ctx: Context)
    ensures AlwaysReturns(LoopOf(ctx), NoChanges)
  {
    forall f, r | LoopOf(ctx).attempt(f, r).Ok?
      ensures LoopOf(ctx).attempt(f, r).value.validation == NoChanges
    {
      AttemptOutcome(ctx, f, r);
    }
  }

  /** With the fixed "no" verdict not requiring changes, `try_update_file`
      leaves the request's fields as they were. */
  lemma TryUpdateKeepsRequest(ctx: Context, file: string, req: RequestState)
    requires !ctx.tools.changesRequired(NoChanges)
    ensures TryUpdate(ctx, file, req).request == req
  {
    AttemptOutcome(ctx, file, req);
    AttemptsReturnNoChanges(ctx);
    RetryKeepsRequest(LoopOf(ctx), file, Progress(Attempt(ctx, file, req), req, 1), Rounds, NoChanges);
  }

  /** Every successful attempt keeps the trailing newlines of the file it ran on. */
  ghost predicate KeepsTrailing(l: Loop)
  {
    forall f, r :: l.attempt(f, r).Ok? ==> TrailingCount(l.attempt(f, r).value.result, '\n') == TrailingCount(f, '\n')
  }

  /** Whatever the rounds run on, a successful result keeps the original file's
      trailing newlines. */
  lemma {:induction false} RetryTrailingNewlines(l: Loop, file: string, p: Progress, rounds: nat)
    requires KeepsTrailing(l)
    requires p.status.Ok? ==> TrailingCount(p.status.value.result, '\n') == TrailingCount(file, '\n')
    ensures var q := RetryFrom(l, file, p, rounds);
      q.status.Ok? ==> TrailingCount(q.status.value.result, '\n') == TrailingCount(file, '\n')
    decreases rounds
  {
    if rounds > 0 && p.status.Ok? {
      RetryTrailingNewlines(l, file, Round(l, file, p), rounds - 1);
    }
  }

  lemma AttemptsKeepTrailing(ctx: Context)
    ensures KeepsTrailing(LoopOf(ctx))
  {
    forall f, r | LoopOf(ctx).attempt(f, r).Ok?
      ensures TrailingCount(LoopOf(ctx).attempt(f, r).value.result, '\n') == TrailingCount(f, '\n')
    {
      AttemptOutcome(ctx, f, r);
    }
  }

  /** The file `try_update_file` returns ends in exactly as many newlines as
      the file it was given. */
  lemma TryUpdateTrailingNewlines(ctx: Context, file: string, req: RequestState)
    ensures var q := TryUpdate(ctx, file, req);
      q.status.Ok? ==> TrailingCount(q.status.value.result, '\n') == TrailingCount(file, '\n')
  {
    AttemptOutcome(ctx, file, req);
    AttemptsKeepTrailing(ctx);
    RetryTrailingNewlines(LoopOf(ctx), file, Progress(Attempt(ctx, file, req), req, 1), Rounds);
  }
}
