/**
 * One file's journey through the job pipeline and the fan-in of all files'
 * outcomes. The network operations, the spreadsheet read, the request
 * builder and the credential refreshes are the parameters of a `FileWorld`:
 * their outcomes are given, and the model fixes the order in which they are
 * used, the one-shot retry on an authorisation failure, what appears on the
 * file's progress bar, and how outcomes are counted.
 */
module Pipeline {
  import opened Wrappers
  import Excel
  import Util
  import AuthEdge
  import Board

  /** The statuses that trigger a credential refresh and one retry. */
  const AuthRetryStatuses: set<int> := {401, 403, 419}

  /** The four network operations a file goes through, in this order. */
  datatype Op = FetchCache | PostSearch | PollUntilDone | DownloadOut

  function StageIndex(op: Op): nat {
    match op
    case FetchCache => 0
    case PostSearch => 1
    case PollUntilDone => 2
    case DownloadOut => 3
  }

  /** An HTTP client; `generation` counts the credential refreshes it was opened after. */
  datatype Client = Client(generation: nat)

  /**
   * The keyword arguments the operations take: `client`, `rows`,
   * `single_spec_items`, `vms`, `ansa_dlfs`, `job_id`, `done_url`, `filename`.
   */
  datatype Arg = ClientArg | RowsArg | ItemsArg | VmsArg | AnsaDlfsArg | JobIdArg | DoneUrlArg | FilenameArg

  /** A keyword argument's value or a value an operation returns. */
  datatype Value =
    | ClientValue(client: Client)
    | RowsValue(rows: seq<Excel.SpecRow>)
    | TextValue(text: string)
    | BoolValue(b: bool)
    | Opaque(id: nat)

  type Kwargs = map<Arg, Value>

  /** The errors that end a file's processing, as `process_file` raises them. */
  datatype FileError =
    | HttpStatusError(status: int)
    | MissingClient
    | NoRowsFound
    | AuthFailed(error: AuthEdge.AuthError)
    | OtherError(message: string)

  /** A duration measured by the clock, left opaque. */
  datatype Duration = Duration(ticks: nat)

  /**
   * Everything outside the modelled code that one file's processing consults.
   * `refresh(k)` is the outcome of the `k`-th refresh this file triggers;
   * `generation` is the number of refreshes behind the file's first client;
   * `elapsed` is the clock's reading at the end and `elapsedText` its
   * formatted form.
   */
  datatype FileWorld = FileWorld(
    read: Result<seq<Excel.SpecRow>, FileError>,
    vms: Result<Value, FileError>,
    net: (Op, Kwargs) -> Result<Value, FileError>,
    refresh: nat -> Result<(), FileError>,
    build: (seq<Excel.SpecRow>, Value) -> Result<Value, FileError>,
    generation: nat,
    elapsed: Duration,
    elapsedText: string)

  /** The messages a file shows on its bar, after its tag. */
  datatype Note =
    | Reading | NoRows | Authenticating | Fetching | Refreshing
    | Building | Posting | Polling | Downloading | Done(elapsedText: string)

  function NoteText(tag: string, note: Note): string {
    tag + " " +
    match note
    case Reading => "Reading specs"
    case NoRows => "No rows found"
    case Authenticating => "Authenticating"
    case Fetching => "Fetching single spec"
    case Refreshing => "Refreshing auth\U{2026}"
    case Building => "Building DCT"
    case Posting => "Posting /search"
    case Polling => "Polling"
    case Downloading => "Downloading"
    case Done(e) => "DONE \U{2713} (" + e + ")"
  }

  /** What a file's processing does that can be observed. */
  datatype Event =
    | Progress(note: Note, percent: int)
    | BoardFail(note: Note)
    | BoardComplete(note: Note)
    | OpenClient(client: Client)
    | Call(op: Op, kw: Kwargs)
    | Refresh

  /** The calls among the events, in order. */
  function Calls(events: seq<Event>): seq<(Op, Kwargs)> {
    if events == [] then []
    else (if events[0].Call? then [(events[0].op, events[0].kw)] else []) + Calls(events[1..])
  }

  /** The operations among the events, in order. */
  function Ops(events: seq<Event>): seq<Op> {
    if events == [] then []
    else (if events[0].Call? then [events[0].op] else []) + Ops(events[1..])
  }

  function CountRefreshes(events: seq<Event>): nat {
    if events == [] then 0
    else (if events[0].Refresh? then 1 else 0) + CountRefreshes(events[1..])
  }

  /** No event marks the bar done or failed. */
  predicate NoVerdict(events: seq<Event>) {
    forall k :: 0 <= k < |events| ==> !events[k].BoardComplete? && !events[k].BoardFail?
  }

  lemma Single(e: Event)
    ensures Calls([e]) == if e.Call? then [(e.op, e.kw)] else []
    ensures Ops([e]) == if e.Call? then [e.op] else []
    ensures CountRefreshes([e]) == if e.Refresh? then 1 else 0
  {
    assert [e][1..] == [];
  }

  lemma {:induction false} EventsAppend(a: seq<Event>, b: seq<Event>)
    ensures Calls(a + b) == Calls(a) + Calls(b)
    ensures Ops(a + b) == Ops(a) + Ops(b)
    ensures CountRefreshes(a + b) == CountRefreshes(a) + CountRefreshes(b)
  {
    if a != [] {
      assert (a + b)[1..] == a[1..] + b;
      EventsAppend(a[1..], b);
    } else {
      assert a + b == b;
    }
  }

  // ---------------------------------------------------------------------------
  // `with_auth_retry`
  // ---------------------------------------------------------------------------

  predicate IsAuthFailure(r: Result<Value, FileError>) {
    r.Failure? && r.error.HttpStatusError? && r.error.status in AuthRetryStatuses
  }

  /** The outcome of one wrapped call, what it did, and how many refreshes it used. */
  datatype Attempt = Attempt(outcome: Result<Value, FileError>, events: seq<Event>, refreshes: nat)

  /** The client opened after this file's `done + 1`-th refresh. */
  function RefreshedClient(w: FileWorld, done: nat): Client {
    Client(w.generation + done + 1)
  }

  /**
   * `with_auth_retry(call, **kw)` for the operation `op`, where `done`
   * refreshes have already been triggered by this file. An authorisation
   * failure shows the refresh on the bar, refreshes, opens a new client and
   * calls once more with only `client` replaced.
   */
  function WithAuthRetry(w: FileWorld, op: Op, kw: Kwargs, done: nat): Attempt {
    if ClientArg !in kw then Attempt(Failure(MissingClient), [], 0)
    else
      var first := w.net(op, kw);
      if !IsAuthFailure(first) then Attempt(first, [Call(op, kw)], 0)
      else
        var refreshing := [Call(op, kw), Progress(Refreshing, 20), Refresh];
        match w.refresh(done)
        case Failure(f) => Attempt(Failure(f), refreshing, 1)
        case Success(_) =>
          var kw2 := kw[ClientArg := ClientValue(RefreshedClient(w, done))];
          Attempt(w.net(op, kw2), refreshing + [OpenClient(RefreshedClient(w, done)), Call(op, kw2)], 1)
  }

  /** The events of a retry whose refresh succeeded, piece by piece. */
  lemma RetryEvents(op: Op, kw: Kwargs, kw2: Kwargs, c: Client)
    ensures var ev := [Call(op, kw), Progress(Refreshing, 20), Refresh] + [OpenClient(c), Call(op, kw2)];
      && Calls(ev) == [(op, kw), (op, kw2)]
      && Ops(ev) == [op, op]
      && CountRefreshes(ev) == 1
      && NoVerdict(ev)
  {
    var head := [Call(op, kw), Progress(Refreshing, 20), Refresh];
    var tail := [OpenClient(c), Call(op, kw2)];
    RefreshFailedEvents(op, kw);
    ReopenEvents(op, kw2, c);
    EventsAppend(head, tail);
  }

  /** The events of the second attempt: a new client, then one call. */
  lemma ReopenEvents(op: Op, kw: Kwargs, c: Client)
    ensures var ev := [OpenClient(c), Call(op, kw)];
      && Calls(ev) == [(op, kw)] && Ops(ev) == [op] && CountRefreshes(ev) == 0 && NoVerdict(ev)
  {
    assert [OpenClient(c), Call(op, kw)] == [OpenClient(c)] + [Call(op, kw)];
    EventsAppend([OpenClient(c)], [Call(op, kw)]);
    Single(OpenClient(c));
    Single(Call(op, kw));
  }

  /** The events of a retry whose refresh failed. */
  lemma RefreshFailedEvents(op: Op, kw: Kwargs)
    ensures var ev := [Call(op, kw), Progress(Refreshing, 20), Refresh];
      && Calls(ev) == [(op, kw)] && Ops(ev) == [op] && CountRefreshes(ev) == 1 && NoVerdict(ev)
  {
    assert [Call(op, kw), Progress(Refreshing, 20), Refresh] == [Call(op, kw)] + [Progress(Refreshing, 20)] + [Refresh];
    EventsAppend([Call(op, kw)], [Progress(Refreshing, 20)]);
    EventsAppend([Call(op, kw)] + [Progress(Refreshing, 20)], [Refresh]);
    Single(Call(op, kw));
    Single(Progress(Refreshing, 20));
    Single(Refresh);
  }

  /**
   * The retry rule. A refresh happens exactly when the first call fails with
   * status 401, 403 or 419; otherwise the first outcome, success or any other
   * error, is returned unchanged after a single call. A failed refresh ends
   * the attempt with its error; after a successful one the operation is
   * called a second time, with a new client and every other argument
   * unchanged, and that call's outcome is final.
   */
  lemma RetryRule(w: FileWorld, op: Op, kw: Kwargs, done: nat)
    requires ClientArg in kw
    ensures var a := WithAuthRetry(w, op, kw, done);
      && a.refreshes == CountRefreshes(a.events) <= 1
      && (a.refreshes == 1 <==> IsAuthFailure(w.net(op, kw)))
      && (!IsAuthFailure(w.net(op, kw)) ==> a.outcome == w.net(op, kw) && Calls(a.events) == [(op, kw)])
      && (IsAuthFailure(w.net(op, kw)) && w.refresh(done).Failure? ==>
            a.outcome == Failure(w.refresh(done).error) && Calls(a.events) == [(op, kw)])
      && (IsAuthFailure(w.net(op, kw)) && w.refresh(done).Success? ==>
            && |Calls(a.events)| == 2
            && Calls(a.events)[0] == (op, kw)
            && Calls(a.events)[1].0 == op
            && Calls(a.events)[1].1 == kw[ClientArg := ClientValue(RefreshedClient(w, done))]
            && a.outcome == w.net(op, Calls(a.events)[1].1))
  {
    if IsAuthFailure(w.net(op, kw)) {
      if w.refresh(done).Success? {
        RetryEvents(op, kw, kw[ClientArg := ClientValue(RefreshedClient(w, done))], RefreshedClient(w, done));
      } else {
        RefreshFailedEvents(op, kw);
      }
    } else {
      Single(Call(op, kw));
    }
  }

  /** The retried call changes `client` only: same operation, same argument names, same other values. */
  lemma RetryKeepsOtherArgs(w: FileWorld, op: Op, kw: Kwargs, done: nat)
    ensures forall c :: c in Calls(WithAuthRetry(w, op, kw, done).events) ==>
      && c.0 == op
      && c.1.Keys == kw.Keys
      && (forall k :: k in kw && k != ClientArg ==> c.1[k] == kw[k])
  {
    if ClientArg in kw {
      RetryRule(w, op, kw, done);
    }
  }

  /** `assert "client" in kw`: without a client nothing is called at all. */
  lemma RetryNeedsClient(w: FileWorld, op: Op, kw: Kwargs, done: nat)
    requires ClientArg !in kw
    ensures WithAuthRetry(w, op, kw, done).outcome == Failure(MissingClient)
    ensures Calls(WithAuthRetry(w, op, kw, done).events) == []
  {
  }

  /** The operations a wrapped call performs: its own, once or twice; and it never marks the bar. */
  lemma AttemptOps(w: FileWorld, op: Op, kw: Kwargs, done: nat)
    requires ClientArg in kw
    ensures var a := WithAuthRetry(w, op, kw, done);
      && (Ops(a.events) == [op] || Ops(a.events) == [op, op])
      && NoVerdict(a.events)
  {
    if IsAuthFailure(w.net(op, kw)) {
      if w.refresh(done).Success? {
        RetryEvents(op, kw, kw[ClientArg := ClientValue(RefreshedClient(w, done))], RefreshedClient(w, done));
      } else {
        RefreshFailedEvents(op, kw);
      }
    } else {
      Single(Call(op, kw));
    }
  }

  // ---------------------------------------------------------------------------
  // `process_file`
  // ---------------------------------------------------------------------------

  /** The position of the last `/` in `path`, or -1. */
  function LastSlash(path: string): (i: int)
    ensures -1 <= i < |path|
  {
    if path == [] then -1
    else if path[|path| - 1] == '/' then |path| - 1
    else LastSlash(path[..|path| - 1])
  }

  /** `LastSlash` finds the last `/`: there is one at the position it returns and none after it. */
  lemma {:induction false} LastSlashSpec(path: string)
    ensures LastSlash(path) >= 0 ==> path[LastSlash(path)] == '/'
    ensures forall j :: LastSlash(path) < j < |path| ==> path[j] != '/'
  {
    if path != [] && path[|path| - 1] != '/' {
      var init := path[..|path| - 1];
      LastSlashSpec(init);
      assert forall j :: 0 <= j < |init| ==> init[j] == path[j];
    }
  }

  /** The last component of a `/`-separated path: what follows its last `/`. */
  function BaseName(path: string): string {
    path[LastSlash(path) + 1..]
  }

  /** A base name holds no `/`, and what precedes it in the path is empty or ends with one. */
  lemma BaseNameSpec(path: string)
    ensures '/' !in BaseName(path)
    ensures LastSlash(path) >= 0 ==> path[LastSlash(path)] == '/'
  {
    LastSlashSpec(path);
    var i := LastSlash(path);
    var b := path[i + 1..];
    forall k | 0 <= k < |b| ensures b[k] != '/' {
      assert b[k] == path[i + 1 + k];
    }
  }

  /** `f"[{Path(xlsx).stem}]"`. */
  function Tag(xlsx: string): string {
    "[" + Util.Stem(BaseName(xlsx)) + "]"
  }

  /** `f"{Path(xlsx).stem}.dctzip"`. */
  function OutName(xlsx: string): string {
    Util.Stem(BaseName(xlsx)) + ".dctzip"
  }

  /** What a file's processing ends with, and everything it did on the way. */
  datatype FileRun = FileRun(outcome: Result<Duration, FileError>, events: seq<Event>)

  /** The part of a run done so far: its events and the refreshes it triggered. */
  datatype Partial = Partial(events: seq<Event>, refreshes: nat)

  /** What every stage of one file works with: its rows, the VMS filter, its first client, its output name. */
  datatype Context = Context(rows: seq<Excel.SpecRow>, vms: Value, client: Client, outName: string)

  /** The events before the first network call. */
  function Opening(w: FileWorld): seq<Event> {
    [Progress(Reading, 5), Progress(Authenticating, 15), OpenClient(Client(w.generation)), Progress(Fetching, 25)]
  }

  /** `process_file(xlsx, auth, line_idx, board)` for a file whose surroundings are `w`. */
  function ProcessFile(xlsx: string, w: FileWorld): FileRun {
    match w.read
    case Failure(f) => FileRun(Failure(f), [Progress(Reading, 5)])
    case Success(rows) =>
      if rows == [] then FileRun(Failure(NoRowsFound), [Progress(Reading, 5), BoardFail(NoRows)])
      else
        match w.vms
        case Failure(f) => FileRun(Failure(f), [Progress(Reading, 5)])
        case Success(vms) =>
          var ctx := Context(rows, vms, Client(w.generation), OutName(xlsx));
          Stages(w, ctx, FetchCache, RowsValue(rows), Partial(Opening(w), 0))
  }

  /**
   * The keyword arguments of stage `op`, given what the previous stage
   * produced (`input`: the rows, the request items, the job id, the done
   * URL). Every stage is first called with the file's original client.
   */
  function StageArgs(ctx: Context, op: Op, input: Value): (kw: Kwargs)
    ensures ClientArg in kw && kw[ClientArg] == ClientValue(ctx.client)
  {
    match op
    case FetchCache => map[ClientArg := ClientValue(ctx.client), RowsArg := input]
    case PostSearch => map[ClientArg := ClientValue(ctx.client), ItemsArg := input, VmsArg := ctx.vms, AnsaDlfsArg := BoolValue(false)]
    case PollUntilDone => map[ClientArg := ClientValue(ctx.client), JobIdArg := input]
    case DownloadOut => map[ClientArg := ClientValue(ctx.client), DoneUrlArg := input, FilenameArg := TextValue(ctx.outName)]
  }

  /** Where one stage leaves the file: finished (with success or an error), or at the next stage. */
  datatype Step = Stop(run: FileRun) | Next(op: Op, input: Value, p: Partial)

  /**
   * One stage `op`: the wrapped call, then the progress shown before the
   * next stage (after the cache fetch, the request items are built in
   * between); after the download the bar is marked done. An error ends the
   * file.
   */
  function StageStep(w: FileWorld, ctx: Context, op: Op, input: Value, p: Partial): (s: Step)
    ensures s.Next? ==> StageIndex(s.op) == StageIndex(op) + 1
  {
    var a := WithAuthRetry(w, op, StageArgs(ctx, op, input), p.refreshes);
    var events := p.events + a.events;
    var refreshes := p.refreshes + a.refreshes;
    match a.outcome
    case Failure(f) => Stop(FileRun(Failure(f), events))
    case Success(v) =>
      match op
      case FetchCache =>
        (match w.build(ctx.rows, v)
         case Failure(f) => Stop(FileRun(Failure(f), events + [Progress(Building, 40)]))
         case Success(items) => Next(PostSearch, items, Partial(events + [Progress(Building, 40), Progress(Posting, 45)], refreshes)))
      case PostSearch => Next(PollUntilDone, v, Partial(events + [Progress(Polling, 55)], refreshes))
      case PollUntilDone => Next(DownloadOut, v, Partial(events + [Progress(Downloading, 80)], refreshes))
      case DownloadOut => Stop(FileRun(Success(w.elapsed), events + [BoardComplete(Done(w.elapsedText))]))
  }

  /** The stages from `op` on, until one stops the file. */
  function Stages(w: FileWorld, ctx: Context, op: Op, input: Value, p: Partial): FileRun
    decreases 3 - StageIndex(op)
  {
    match StageStep(w, ctx, op, input, p)
    case Stop(r) => r
    case Next(op', v, q) => Stages(w, ctx, op', v, q)
  }

  /** A file with no rows fails before any client is opened or any operation called, and marks its bar failed. */
  lemma NoRowsBeforeNetwork(xlsx: string, w: FileWorld)
    requires w.read == Success([])
    ensures ProcessFile(xlsx, w).outcome == Failure(NoRowsFound)
    ensures var ev := ProcessFile(xlsx, w).events;
      && Ops(ev) == [] && CountRefreshes(ev) == 0
      && (forall k :: 0 <= k < |ev| ==> !ev[k].OpenClient?)
      && ev[|ev| - 1] == BoardFail(NoRows)
  {
    assert ProcessFile(xlsx, w).events == [Progress(Reading, 5)] + [BoardFail(NoRows)];
    EventsAppend([Progress(Reading, 5)], [BoardFail(NoRows)]);
    Single(Progress(Reading, 5));
    Single(BoardFail(NoRows));
  }

  /**
   * Operations in stage order: the first is the cache fetch, each next one
   * is the same operation or the next stage, and no operation runs three
   * times in a row.
   */
  predicate InStageOrder(ops: seq<Op>) {
    && (|ops| > 0 ==> ops[0] == FetchCache)
    && (forall i :: 0 < i < |ops| ==> StageIndex(ops[i - 1]) <= StageIndex(ops[i]) <= StageIndex(ops[i - 1]) + 1)
    && (forall i :: 0 <= i && i + 2 < |ops| ==> ops[i] != ops[i + 2])
  }

  /** The operations so far end with stage `k` (`-1`: none yet). */
  predicate EndsAtStage(ops: seq<Op>, k: int) {
    if k < 0 then ops == [] else |ops| > 0 && StageIndex(ops[|ops| - 1]) == k
  }

  /** Appending one stage's call or calls keeps the stage order. */
  lemma ExtendStages(ops: seq<Op>, more: seq<Op>, op: Op)
    requires InStageOrder(ops) && EndsAtStage(ops, StageIndex(op) - 1)
    requires more == [op] || more == [op, op]
    ensures InStageOrder(ops + more) && EndsAtStage(ops + more, StageIndex(op))
  {
    var r := ops + more;
    assert forall i :: |ops| <= i < |r| ==> r[i] == op;
    if ops != [] {
      assert r[0] == ops[0];
      ExtendStepBound(ops, more, op);
      ExtendNoTriple(ops, more, op);
    }
  }

  /** After one more stage's calls, each operation is the previous one or the next stage. */
  lemma ExtendStepBound(ops: seq<Op>, more: seq<Op>, op: Op)
    requires InStageOrder(ops) && ops != [] && StageIndex(ops[|ops| - 1]) + 1 == StageIndex(op)
    requires more == [op] || more == [op, op]
    ensures var r := ops + more;
      forall i :: 0 < i < |r| ==> StageIndex(r[i - 1]) <= StageIndex(r[i]) <= StageIndex(r[i - 1]) + 1
  {
    var r := ops + more;
    forall i | 0 < i < |r|
      ensures StageIndex(r[i - 1]) <= StageIndex(r[i]) <= StageIndex(r[i - 1]) + 1
    {
      if i < |ops| {
        assert r[i - 1] == ops[i - 1] && r[i] == ops[i];
      } else if i == |ops| {
        assert r[i - 1] == ops[|ops| - 1] && r[i] == op;
      } else {
        assert r[i - 1] == op && r[i] == op;
      }
    }
  }

  /** After one more stage's calls, still no operation runs three times in a row. */
  lemma ExtendNoTriple(ops: seq<Op>, more: seq<Op>, op: Op)
    requires InStageOrder(ops) && ops != [] && StageIndex(ops[|ops| - 1]) + 1 == StageIndex(op)
    requires more == [op] || more == [op, op]
    ensures var r := ops + more; forall i :: 0 <= i && i + 2 < |r| ==> r[i] != r[i + 2]
  {
    var r := ops + more;
    forall i | 0 <= i && i + 2 < |r| ensures r[i] != r[i + 2] {
      if i + 2 < |ops| {
        assert r[i] == ops[i] && r[i + 2] == ops[i + 2];
      } else if i == |ops| - 2 {
        assert StageIndex(ops[i]) <= StageIndex(ops[i + 1]);
        assert r[i] == ops[i] && r[i + 2] == op;
      } else {
        assert r[i] == ops[|ops| - 1] && r[i + 2] == op;
      }
    }
  }

  /** The facts each stage lemma below hands on to the next one. */
  predicate StagesSoFar(p: Partial, k: int) {
    InStageOrder(Ops(p.events)) && EndsAtStage(Ops(p.events), k) && NoVerdict(p.events)
  }

  /** What a run from a stage on looks like, stated on its events. */
  predicate WellFormedRun(r: FileRun, w: FileWorld) {
    && InStageOrder(Ops(r.events))
    && (r.outcome.Success? <==> |r.events| > 0 && r.events[|r.events| - 1].BoardComplete?)
    && (r.outcome.Success? ==>
          && r.outcome.value == w.elapsed
          && r.events[|r.events| - 1] == BoardComplete(Done(w.elapsedText))
          && EndsAtStage(Ops(r.events), 3)
          && NoVerdict(r.events[..|r.events| - 1]))
    && (r.outcome.Failure? ==> NoVerdict(r.events))
  }

  /** One stage's attempt and the progress events after it keep the stage order. */
  lemma AppendKeepsStages(p: Partial, a: Attempt, op: Op, extra: seq<Event>)
    requires StagesSoFar(p, StageIndex(op) - 1)
    requires Ops(a.events) == [op] || Ops(a.events) == [op, op]
    requires NoVerdict(a.events)
    requires Ops(extra) == [] && NoVerdict(extra)
    ensures StagesSoFar(Partial(p.events + a.events + extra, p.refreshes + a.refreshes), StageIndex(op))
    ensures StagesSoFar(Partial(p.events + a.events, p.refreshes + a.refreshes), StageIndex(op))
  {
    EventsAppend(p.events, a.events);
    EventsAppend(p.events + a.events, extra);
    ExtendStages(Ops(p.events), Ops(a.events), op);
  }

  lemma ProgressOnly(n1: Note, p1: int, n2: Note, p2: int)
    ensures Ops([Progress(n1, p1)]) == [] && NoVerdict([Progress(n1, p1)])
    ensures Ops([Progress(n1, p1), Progress(n2, p2)]) == [] && NoVerdict([Progress(n1, p1), Progress(n2, p2)])
  {
    Single(Progress(n1, p1));
    Single(Progress(n2, p2));
    assert [Progress(n1, p1), Progress(n2, p2)] == [Progress(n1, p1)] + [Progress(n2, p2)];
    EventsAppend([Progress(n1, p1)], [Progress(n2, p2)]);
  }

  /** A run that stops with an error after events that mark nothing. */
  lemma FailedRunShape(ev: seq<Event>, f: FileError, w: FileWorld)
    requires InStageOrder(Ops(ev)) && NoVerdict(ev)
    ensures WellFormedRun(FileRun(Failure(f), ev), w)
  {
  }

  /** A run that completes after the download. */
  lemma FinishedRunShape(ev: seq<Event>, w: FileWorld)
    requires InStageOrder(Ops(ev)) && EndsAtStage(Ops(ev), 3) && NoVerdict(ev)
    ensures WellFormedRun(FileRun(Success(w.elapsed), ev + [BoardComplete(Done(w.elapsedText))]), w)
  {
    var finish := BoardComplete(Done(w.elapsedText));
    var all := ev + [finish];
    EventsAppend(ev, [finish]);
    Single(finish);
    assert Ops(all) == Ops(ev);
    assert all[..|all| - 1] == ev && all[|all| - 1] == finish;
  }

  /** One stage keeps the stage order; where it stops the file, the run is well formed. */
  lemma StepShape(w: FileWorld, ctx: Context, op: Op, input: Value, p: Partial)
    requires StagesSoFar(p, StageIndex(op) - 1)
    ensures match StageStep(w, ctx, op, input, p)
      case Stop(r) => WellFormedRun(r, w)
      case Next(_, _, q) => StagesSoFar(q, StageIndex(op))
  {
    var kw := StageArgs(ctx, op, input);
    var a := WithAuthRetry(w, op, kw, p.refreshes);
    if a.outcome.Failure? {
      AttemptOps(w, op, kw, p.refreshes);
      assert Ops([]) == [] && NoVerdict([]);
      AppendKeepsStages(p, a, op, []);
      FailedRunShape(p.events + a.events, a.outcome.error, w);
    } else {
      SucceededStepShape(w, ctx, op, input, p);
    }
  }

  /** A stage whose operation succeeded hands on the stages so far, or finishes the run. */
  lemma SucceededStepShape(w: FileWorld, ctx: Context, op: Op, input: Value, p: Partial)
    requires StagesSoFar(p, StageIndex(op) - 1)
    requires WithAuthRetry(w, op, StageArgs(ctx, op, input), p.refreshes).outcome.Success?
    ensures match StageStep(w, ctx, op, input, p)
      case Stop(r) => WellFormedRun(r, w)
      case Next(_, _, q) => StagesSoFar(q, StageIndex(op))
  {
    var kw := StageArgs(ctx, op, input);
    var a := WithAuthRetry(w, op, kw, p.refreshes);
    AttemptOps(w, op, kw, p.refreshes);
    var base := p.events + a.events;
    match op
    case FetchCache =>
      ProgressOnly(Building, 40, Posting, 45);
      AppendKeepsStages(p, a, op, [Progress(Building, 40)]);
      AppendKeepsStages(p, a, op, [Progress(Building, 40), Progress(Posting, 45)]);
      if w.build(ctx.rows, a.outcome.value).Failure? {
        FailedRunShape(base + [Progress(Building, 40)], w.build(ctx.rows, a.outcome.value).error, w);
      }
    case PostSearch =>
      ProgressOnly(Polling, 55, Polling, 55);
      AppendKeepsStages(p, a, op, [Progress(Polling, 55)]);
    case PollUntilDone =>
      ProgressOnly(Downloading, 80, Downloading, 80);
      AppendKeepsStages(p, a, op, [Progress(Downloading, 80)]);
    case DownloadOut =>
      assert Ops([]) == [] && NoVerdict([]);
      AppendKeepsStages(p, a, op, []);
      FinishedRunShape(base, w);
  }

  /** The stages from `op` on call the operations in stage order and end as a run should. */
  lemma {:induction false} StagesShape(w: FileWorld, ctx: Context, op: Op, input: Value, p: Partial)
    requires StagesSoFar(p, StageIndex(op) - 1)
    ensures WellFormedRun(Stages(w, ctx, op, input, p), w)
    decreases 3 - StageIndex(op)
  {
    StepShape(w, ctx, op, input, p);
    match StageStep(w, ctx, op, input, p)
    case Stop(r) =>
    case Next(op', v, q) => StagesShape(w, ctx, op', v, q);
  }

  /** The events before the first call call nothing and mark nothing. */
  lemma OpeningShape(w: FileWorld)
    ensures StagesSoFar(Partial(Opening(w), 0), -1)
  {
    var e := Opening(w);
    assert e[3..][1..] == [];
    assert Ops(e[3..]) == [];
    assert e[2..][1..] == e[3..];
    assert Ops(e[2..]) == [];
    assert e[1..][1..] == e[2..];
    assert Ops(e[1..]) == [];
    assert Ops(e) == [];
  }

  /**
   * Stages run in their fixed order and a failure ends the file: the
   * operations called are the stages in order, each once or (after a
   * refresh) twice; the run succeeds, reporting its elapsed time, exactly
   * when its last event marks the bar done, which only happens after the
   * download; the only failure that marks the bar is a sheet without rows.
   */
  lemma ProcessFileStages(xlsx: string, w: FileWorld)
    ensures var r := ProcessFile(xlsx, w);
      && InStageOrder(Ops(r.events))
      && (r.outcome.Success? <==> |r.events| > 0 && r.events[|r.events| - 1].BoardComplete?)
      && (r.outcome.Success? ==>
            && r.outcome.value == w.elapsed
            && r.events[|r.events| - 1] == BoardComplete(Done(w.elapsedText))
            && EndsAtStage(Ops(r.events), 3)
            && NoVerdict(r.events[..|r.events| - 1]))
      && (r.outcome.Failure? && w.read != Success([]) ==> NoVerdict(r.events))
  {
    match w.read
    case Failure(f) =>
      ReadFailedShape(f, w);
    case Success(rows) =>
      if rows == [] {
        NoRowsBeforeNetwork(xlsx, w);
      } else {
        match w.vms
        case Failure(f) =>
          ReadFailedShape(f, w);
        case Success(vms) =>
          OpeningShape(w);
          var ctx := Context(rows, vms, Client(w.generation), OutName(xlsx));
          StagesShape(w, ctx, FetchCache, RowsValue(rows), Partial(Opening(w), 0));
          assert ProcessFile(xlsx, w) == Stages(w, ctx, FetchCache, RowsValue(rows), Partial(Opening(w), 0));
      }
  }

  /** A file that fails before any stage has only its reading progress event. */
  lemma ReadFailedShape(f: FileError, w: FileWorld)
    ensures WellFormedRun(FileRun(Failure(f), [Progress(Reading, 5)]), w)
  {
    Single(Progress(Reading, 5));
  }

  /** A spreadsheet that cannot be read, or a VMS filter that cannot be loaded, ends the file with that error before any call. */
  lemma ReadFailureEndsFile(xlsx: string, w: FileWorld)
    requires w.read.Failure? || (w.read.Success? && w.read.value != [] && w.vms.Failure?)
    ensures ProcessFile(xlsx, w).outcome == Failure(if w.read.Failure? then w.read.error else w.vms.error)
    ensures ProcessFile(xlsx, w).events == [Progress(Reading, 5)]
    ensures Ops(ProcessFile(xlsx, w).events) == []
  {
    Single(Progress(Reading, 5));
  }

  /**
   * A stage stops the file exactly when its wrapped call fails, when the
   * request items cannot be built after the cache fetch, or after the
   * download; an error stops it with that error.
   */
  lemma StageStepStops(w: FileWorld, ctx: Context, op: Op, input: Value, p: Partial)
    ensures var a := WithAuthRetry(w, op, StageArgs(ctx, op, input), p.refreshes);
      StageStep(w, ctx, op, input, p).Stop? <==>
        a.outcome.Failure? || op == DownloadOut || (op == FetchCache && w.build(ctx.rows, a.outcome.value).Failure?)
    ensures var a := WithAuthRetry(w, op, StageArgs(ctx, op, input), p.refreshes);
      a.outcome.Failure? ==> StageStep(w, ctx, op, input, p) == Stop(FileRun(Failure(a.outcome.error), p.events + a.events))
    ensures var a := WithAuthRetry(w, op, StageArgs(ctx, op, input), p.refreshes);
      a.outcome.Success? && op == FetchCache && w.build(ctx.rows, a.outcome.value).Failure? ==>
        StageStep(w, ctx, op, input, p).run.outcome == Failure(w.build(ctx.rows, a.outcome.value).error)
    ensures var a := WithAuthRetry(w, op, StageArgs(ctx, op, input), p.refreshes);
      a.outcome.Success? && op == DownloadOut ==> StageStep(w, ctx, op, input, p).run.outcome == Success(w.elapsed)
  {
  }

  /**
   * The first stage whose wrapped call fails decides the file: the run ends
   * with that error, and the operations called are those before it and this
   * stage's own, once or twice; no later stage is called.
   */
  lemma FirstFailureEndsFile(w: FileWorld, ctx: Context, op: Op, input: Value, p: Partial)
    requires WithAuthRetry(w, op, StageArgs(ctx, op, input), p.refreshes).outcome.Failure?
    ensures var a := WithAuthRetry(w, op, StageArgs(ctx, op, input), p.refreshes);
      && Stages(w, ctx, op, input, p).outcome == Failure(a.outcome.error)
      && (Ops(Stages(w, ctx, op, input, p).events) == Ops(p.events) + [op] ||
          Ops(Stages(w, ctx, op, input, p).events) == Ops(p.events) + [op, op])
  {
    var kw := StageArgs(ctx, op, input);
    var a := WithAuthRetry(w, op, kw, p.refreshes);
    AttemptOps(w, op, kw, p.refreshes);
    EventsAppend(p.events, a.events);
    assert Stages(w, ctx, op, input, p) == FileRun(Failure(a.outcome.error), p.events + a.events);
  }

  /** Request items that cannot be built end the file with that error after the cache fetch, before the search is posted. */
  lemma BuildFailureEndsFile(w: FileWorld, ctx: Context, input: Value, p: Partial)
    requires WithAuthRetry(w, FetchCache, StageArgs(ctx, FetchCache, input), p.refreshes).outcome.Success?
    requires w.build(ctx.rows, WithAuthRetry(w, FetchCache, StageArgs(ctx, FetchCache, input), p.refreshes).outcome.value).Failure?
    ensures var a := WithAuthRetry(w, FetchCache, StageArgs(ctx, FetchCache, input), p.refreshes);
      && Stages(w, ctx, FetchCache, input, p).outcome == Failure(w.build(ctx.rows, a.outcome.value).error)
      && (Ops(Stages(w, ctx, FetchCache, input, p).events) == Ops(p.events) + [FetchCache] ||
          Ops(Stages(w, ctx, FetchCache, input, p).events) == Ops(p.events) + [FetchCache, FetchCache])
  {
    var kw := StageArgs(ctx, FetchCache, input);
    var a := WithAuthRetry(w, FetchCache, kw, p.refreshes);
    AttemptOps(w, FetchCache, kw, p.refreshes);
    ProgressOnly(Building, 40, Building, 40);
    EventsAppend(p.events, a.events);
    EventsAppend(p.events + a.events, [Progress(Building, 40)]);
    assert Stages(w, ctx, FetchCache, input, p).events == p.events + a.events + [Progress(Building, 40)];
  }

  /** The four stages in their order. */
  const AllOps: seq<Op> := [FetchCache, PostSearch, PollUntilDone, DownloadOut]

  /** With every call succeeding and the items built, one stage makes one call and moves on, or completes after the download. */
  lemma HappyStep(w: FileWorld, ctx: Context, op: Op, input: Value, p: Partial)
    requires forall o, kw :: w.net(o, kw).Success?
    requires forall v :: w.build(ctx.rows, v).Success?
    ensures var s := StageStep(w, ctx, op, input, p);
      && (s.Stop? <==> op == DownloadOut)
      && (s.Next? ==> Ops(s.p.events) == Ops(p.events) + [op])
      && (s.Stop? ==> s.run.outcome == Success(w.elapsed) && Ops(s.run.events) == Ops(p.events) + [op])
  {
    var kw := StageArgs(ctx, op, input);
    var a := WithAuthRetry(w, op, kw, p.refreshes);
    assert a.events == [Call(op, kw)] && a.outcome.Success?;
    Single(Call(op, kw));
    EventsAppend(p.events, a.events);
    var base := p.events + a.events;
    var extra := match op
      case FetchCache => [Progress(Building, 40), Progress(Posting, 45)]
      case PostSearch => [Progress(Polling, 55)]
      case PollUntilDone => [Progress(Downloading, 80)]
      case DownloadOut => [BoardComplete(Done(w.elapsedText))];
    ProgressOnly(Building, 40, Posting, 45);
    ProgressOnly(Polling, 55, Downloading, 80);
    Single(BoardComplete(Done(w.elapsedText)));
    EventsAppend(base, extra);
  }

  /** Every call succeeding and the request items being built: one call per stage from `op` on, then success. */
  lemma {:induction false} HappyStages(w: FileWorld, ctx: Context, op: Op, input: Value, p: Partial)
    requires forall o, kw :: w.net(o, kw).Success?
    requires forall v :: w.build(ctx.rows, v).Success?
    ensures Stages(w, ctx, op, input, p).outcome == Success(w.elapsed)
    ensures Ops(Stages(w, ctx, op, input, p).events) == Ops(p.events) + AllOps[StageIndex(op)..]
    decreases 3 - StageIndex(op)
  {
    HappyStep(w, ctx, op, input, p);
    assert AllOps[StageIndex(op)..] == [op] + AllOps[StageIndex(op) + 1..];
    match StageStep(w, ctx, op, input, p)
    case Stop(r) =>
    case Next(op', v, q) =>
      HappyStages(w, ctx, op', v, q);
  }

  /** A readable sheet with rows, with every call succeeding and the items built: the file calls each stage once, in order, and succeeds. */
  lemma AllSucceedCompletes(xlsx: string, w: FileWorld)
    requires w.read.Success? && w.read.value != [] && w.vms.Success?
    requires forall o, kw :: w.net(o, kw).Success?
    requires forall v :: w.build(w.read.value, v).Success?
    ensures ProcessFile(xlsx, w).outcome == Success(w.elapsed)
    ensures Ops(ProcessFile(xlsx, w).events) == AllOps
  {
    var ctx := Context(w.read.value, w.vms.value, Client(w.generation), OutName(xlsx));
    OpeningShape(w);
    HappyStages(w, ctx, FetchCache, RowsValue(w.read.value), Partial(Opening(w), 0));
    assert ProcessFile(xlsx, w) == Stages(w, ctx, FetchCache, RowsValue(w.read.value), Partial(Opening(w), 0));
  }

  // ---------------------------------------------------------------------------
  // The file's progress bar
  // ---------------------------------------------------------------------------

  /** What one event of the file tagged `tag` does to the bars when it runs on `line`. */
  function ApplyEvent(bars: map<int, Board.Bar>, line: int, tag: string, e: Event): map<int, Board.Bar> {
    match e
    case Progress(note, percent) => Board.Progressed(bars, line, NoteText(tag, note), percent)
    case BoardFail(note) => Board.Failed(bars, line, NoteText(tag, note))
    case BoardComplete(note) => Board.Completed(bars, line, NoteText(tag, note))
    case _ => bars
  }

  function BoardAfter(bars: map<int, Board.Bar>, line: int, tag: string, events: seq<Event>): (r: map<int, Board.Bar>)
    ensures r.Keys == bars.Keys
  {
    if events == [] then bars
    else ApplyEvent(BoardAfter(bars, line, tag, events[..|events| - 1]), line, tag, events[|events| - 1])
  }

  /** A file only ever touches its own bar and keeps percentages in range. */
  lemma {:induction false} BoardAfterFrame(bars: map<int, Board.Bar>, line: int, tag: string, events: seq<Event>)
    requires Board.InRange(bars)
    ensures Board.InRange(BoardAfter(bars, line, tag, events))
    ensures forall k :: k in bars && k != line ==> BoardAfter(bars, line, tag, events)[k] == bars[k]
  {
    if events != [] {
      var before := BoardAfter(bars, line, tag, events[..|events| - 1]);
      BoardAfterFrame(bars, line, tag, events[..|events| - 1]);
      match events[|events| - 1]
      case Progress(note, p) => Board.ProgressedEffect(before, line, NoteText(tag, note), p);
      case BoardFail(note) => Board.FailedEffect(before, line, NoteText(tag, note));
      case BoardComplete(note) => Board.CompletedEffect(before, line, NoteText(tag, note));
      case _ =>
    }
  }

  /** Events that mark nothing leave the bar's closed and red flags as they were. */
  lemma {:induction false} NoVerdictKeepsFlags(bars: map<int, Board.Bar>, line: int, tag: string, events: seq<Event>)
    requires line in bars && NoVerdict(events)
    ensures BoardAfter(bars, line, tag, events)[line].closed == bars[line].closed
    ensures BoardAfter(bars, line, tag, events)[line].red == bars[line].red
  {
    if events != [] {
      NoVerdictKeepsFlags(bars, line, tag, events[..|events| - 1]);
    }
  }

  /**
   * The file's own bar at the end: full and closed after a success; red and
   * closed after a sheet without rows; after any other failure neither
   * closed nor red by the file (only `close_all` closes it).
   */
  lemma FileBarVerdict(bars: map<int, Board.Bar>, line: int, xlsx: string, w: FileWorld)
    requires line in bars
    ensures var r := ProcessFile(xlsx, w);
      var after := BoardAfter(bars, line, Tag(xlsx), r.events);
      && (r.outcome.Success? ==> after[line].n == Board.Total && after[line].closed)
      && (w.read == Success([]) ==> after[line].red && after[line].closed)
      && (r.outcome.Failure? && w.read != Success([]) ==>
            after[line].closed == bars[line].closed && after[line].red == bars[line].red)
  {
    var r := ProcessFile(xlsx, w);
    ProcessFileStages(xlsx, w);
    if w.read == Success([]) {
      NoRowsBeforeNetwork(xlsx, w);
    } else if r.outcome.Failure? {
      NoVerdictKeepsFlags(bars, line, Tag(xlsx), r.events);
    }
  }

  // ---------------------------------------------------------------------------
  // `run_pipeline`: the fan-in of outcomes
  // ---------------------------------------------------------------------------

  function SuccessOptions(rs: seq<Result<Duration, FileError>>): (os: seq<Option<Duration>>)
    ensures |os| == |rs|
    ensures forall i :: 0 <= i < |rs| ==> os[i] == if rs[i].Success? then Some(rs[i].value) else None
  {
    seq(|rs|, i requires 0 <= i < |rs| => if rs[i].Success? then Some(rs[i].value) else None)
  }

  /** The durations of the successful files, in file order. */
  function Successes(rs: seq<Result<Duration, FileError>>): seq<Duration> {
    Somes(SuccessOptions(rs))
  }

  function FailureCount(rs: seq<Result<Duration, FileError>>): nat {
    if rs == [] then 0
    else FailureCount(rs[..|rs| - 1]) + (if rs[|rs| - 1].Failure? then 1 else 0)
  }

  function LogOptions(files: seq<string>, rs: seq<Result<Duration, FileError>>): (os: seq<Option<(string, FileError)>>)
    requires |files| == |rs|
    ensures |os| == |rs|
    ensures forall i :: 0 <= i < |rs| ==>
      os[i] == if rs[i].Failure? then Some((Util.Stem(BaseName(files[i])), rs[i].error)) else None
  {
    seq(|rs|, i requires 0 <= i < |rs| =>
      if rs[i].Failure? then Some((Util.Stem(BaseName(files[i])), rs[i].error)) else None)
  }

  /** The error lines: the failing files' stems with their errors, in file order. */
  function FailureLog(files: seq<string>, rs: seq<Result<Duration, FileError>>): seq<(string, FileError)>
    requires |files| == |rs|
  {
    Somes(LogOptions(files, rs))
  }

  function Min(a: nat, b: nat): nat {
    if a <= b then a else b
  }

  lemma FailureCountSnoc(rs: seq<Result<Duration, FileError>>, i: nat)
    requires i < |rs|
    ensures FailureCount(rs[..i + 1]) == FailureCount(rs[..i]) + if rs[i].Failure? then 1 else 0
  {
    assert rs[..i + 1][..i] == rs[..i];
  }

  /** The aggregation loop of `run_pipeline` over `zip(files, results)`. */
  method Aggregate(files: seq<string>, results: seq<Result<Duration, FileError>>)
    returns (failures: nat, durations: seq<Duration>, log: seq<(string, FileError)>)
    ensures var m := Min(|files|, |results|);
      && failures == FailureCount(results[..m])
      && durations == Successes(results[..m])
      && log == FailureLog(files[..m], results[..m])
  {
    var m := Min(|files|, |results|);
    ghost var os := SuccessOptions(results[..m]);
    ghost var ls := LogOptions(files[..m], results[..m]);
    failures, durations, log := 0, [], [];
    for i := 0 to m
      invariant failures == FailureCount(results[..i])
      invariant durations == Somes(os[..i])
      invariant log == Somes(ls[..i])
    {
      FailureCountSnoc(results, i);
      SomesPrefixStep(os, i);
      SomesPrefixStep(ls, i);
      var res := results[i];
      if res.Failure? {
        failures := failures + 1;
        log := log + [(Util.Stem(BaseName(files[i])), res.error)];
      } else {
        durations := durations + [res.value];
      }
    }
    assert os[..m] == os;
    assert ls[..m] == ls;
  }

  /** Every file has exactly one terminal outcome. */
  lemma {:induction false} OutcomesPartition(rs: seq<Result<Duration, FileError>>)
    ensures FailureCount(rs) + |Successes(rs)| == |rs|
  {
    if rs != [] {
      var init := rs[..|rs| - 1];
      OutcomesPartition(init);
      assert SuccessOptions(rs)[..|rs| - 1] == SuccessOptions(init);
    }
  }

  /** The durations are exactly the successful results, in file order. */
  lemma SuccessesInOrder(rs: seq<Result<Duration, FileError>>)
    ensures var ks := Kept(SuccessOptions(rs));
      && |ks| == |Successes(rs)|
      && (forall t, u :: 0 <= t < u < |ks| ==> ks[t] < ks[u])
      && (forall t :: 0 <= t < |ks| ==> ks[t] < |rs| && rs[ks[t]] == Success(Successes(rs)[t]))
      && (forall i :: 0 <= i < |rs| && rs[i].Success? ==> i in ks)
  {
    var os := SuccessOptions(rs);
    var ks := Kept(os);
    forall t | 0 <= t < |ks| ensures ks[t] < |rs| && rs[ks[t]] == Success(Successes(rs)[t]) {
      assert os[ks[t]] == Some(Successes(rs)[t]);
    }
  }

  /** Counting splits over a split batch. */
  lemma AggregateSplits(a: seq<Result<Duration, FileError>>, b: seq<Result<Duration, FileError>>)
    ensures Successes(a + b) == Successes(a) + Successes(b)
    ensures FailureCount(a + b) == FailureCount(a) + FailureCount(b)
  {
    assert SuccessOptions(a + b) == SuccessOptions(a) + SuccessOptions(b);
    SomesAppend(SuccessOptions(a), SuccessOptions(b));
    OutcomesPartition(a);
    OutcomesPartition(b);
    OutcomesPartition(a + b);
  }

  /** The outcome of every file of the batch, each computed from its own surroundings. */
  function Outcomes(files: seq<string>, worlds: seq<FileWorld>): (rs: seq<Result<Duration, FileError>>)
    requires |files| == |worlds|
    ensures |rs| == |files|
  {
    if files == [] then []
    else
      var n := |files| - 1;
      Outcomes(files[..n], worlds[..n]) + [ProcessFile(files[n], worlds[n]).outcome]
  }

  /** The `i`-th outcome is that of processing the `i`-th file in its own surroundings. */
  lemma {:induction false} OutcomeAt(files: seq<string>, worlds: seq<FileWorld>, i: nat)
    requires |files| == |worlds| && i < |files|
    ensures Outcomes(files, worlds)[i] == ProcessFile(files[i], worlds[i]).outcome
  {
    var n := |files| - 1;
    if i < n {
      OutcomeAt(files[..n], worlds[..n], i);
    }
  }

  /** Failure isolation: changing what one file meets leaves every other file's outcome as it was. */
  lemma FailureIsolation(files: seq<string>, worlds: seq<FileWorld>, j: nat, other: FileWorld)
    requires |files| == |worlds| && j < |worlds|
    ensures forall i :: 0 <= i < |files| && i != j ==> Outcomes(files, worlds[j := other])[i] == Outcomes(files, worlds)[i]
  {
    forall i | 0 <= i < |files| && i != j
      ensures Outcomes(files, worlds[j := other])[i] == Outcomes(files, worlds)[i]
    {
      OutcomeAt(files, worlds[j := other], i);
      OutcomeAt(files, worlds, i);
    }
  }

  /** Three files of which the middle one has no rows and the others succeed: one failure, two durations. */
  lemma MiddleFileWithoutRows(rs: seq<Result<Duration, FileError>>, d0: Duration, d2: Duration)
    requires rs == [Success(d0), Failure(NoRowsFound), Success(d2)]
    ensures FailureCount(rs) == 1 && Successes(rs) == [d0, d2]
  {
    assert SuccessOptions(rs) == [Some(d0), None, Some(d2)];
    SomesPrefixStep(SuccessOptions(rs), 0);
    SomesPrefixStep(SuccessOptions(rs), 1);
    SomesPrefixStep(SuccessOptions(rs), 2);
    assert SuccessOptions(rs)[..3] == SuccessOptions(rs);
    assert SuccessOptions(rs)[..0] == [];
    FailureCountSnoc(rs, 0);
    FailureCountSnoc(rs, 1);
    FailureCountSnoc(rs, 2);
    assert rs[..3] == rs;
    assert rs[..0] == [];
  }

  /** Apply one file's bar updates to the board, in order. */
  method ApplyEvents(board: Board.ConsoleBoard, line: int, tag: string, events: seq<Event>)
    requires board.Valid()
    modifies board
    ensures board.n == old(board.n) && board.Valid()
    ensures board.bars == BoardAfter(old(board.bars), line, tag, events)
  {
    for i := 0 to |events|
      invariant board.n == old(board.n) && board.Valid()
      invariant board.bars == BoardAfter(old(board.bars), line, tag, events[..i])
    {
      assert events[..i + 1][..i] == events[..i];
      match events[i]
      case Progress(note, percent) => board.SetProgress(line, NoteText(tag, note), percent);
      case BoardFail(note) => board.Fail(line, NoteText(tag, note));
      case BoardComplete(note) => board.Complete(line, NoteText(tag, note));
      case _ =>
    }
    assert events[..|events|] == events;
  }

  /**
   * The task for file `line` of the batch, on slot `line` of the board: its
   * bar updates are applied, and only that slot changes.
   */
  method RunFile(board: Board.ConsoleBoard, files: seq<string>, worlds: seq<FileWorld>, line: nat)
    returns (outcome: Result<Duration, FileError>)
    requires |files| == |worlds| && line < |files|
    requires board.Valid() && line < board.n
    modifies board
    ensures board.n == old(board.n) && board.Valid()
    ensures outcome == Outcomes(files, worlds)[line]
    ensures board.bars == BoardAfter(old(board.bars), line, Tag(files[line]), ProcessFile(files[line], worlds[line]).events)
    ensures forall k :: k in old(board.bars) && k != line ==> board.bars[k] == old(board.bars)[k]
    ensures outcome.Success? ==> board.bars[line].n == Board.Total
    ensures worlds[line].read == Success([]) ==> board.bars[line].red
  {
    var xlsx, w := files[line], worlds[line];
    var run := ProcessFile(xlsx, w);
    OutcomeAt(files, worlds, line);
    ApplyEvents(board, line, Tag(xlsx), run.events);
    FileBarVerdict(old(board.bars), line, xlsx, w);
    BoardAfterFrame(old(board.bars), line, Tag(xlsx), run.events);
    outcome := run.outcome;
  }

  /** The board after the bar updates `evs[i]` of the first `n` files have been applied, file `i` on slot `i` under tag `tags[i]`. */
  function BoardsAfter(bars: map<int, Board.Bar>, tags: seq<string>, evs: seq<seq<Event>>, n: nat): map<int, Board.Bar>
    requires |tags| == |evs| && n <= |tags|
  {
    if n == 0 then bars
    else BoardAfter(BoardsAfter(bars, tags, evs, n - 1), n - 1, tags[n - 1], evs[n - 1])
  }

  function Tags(files: seq<string>): (tags: seq<string>)
    ensures |tags| == |files|
  {
    seq(|files|, i requires 0 <= i < |files| => Tag(files[i]))
  }

  /** Each file's events, processed in its own surroundings. */
  function FileEvents(files: seq<string>, worlds: seq<FileWorld>): (evs: seq<seq<Event>>)
    requires |files| == |worlds|
    ensures |evs| == |files|
  {
    seq(|files|, i requires 0 <= i < |files| => ProcessFile(files[i], worlds[i]).events)
  }

  /** The board after the first `n` files of the batch have each applied their bar updates on their own slot, one after another. */
  function FilesBoard(bars: map<int, Board.Bar>, files: seq<string>, worlds: seq<FileWorld>, n: nat): map<int, Board.Bar>
    requires |files| == |worlds| && n <= |files|
  {
    BoardsAfter(bars, Tags(files), FileEvents(files, worlds), n)
  }

  /** Applying one more file. */
  lemma FilesBoardStep(bars: map<int, Board.Bar>, files: seq<string>, worlds: seq<FileWorld>, i: nat,
                        before: map<int, Board.Bar>, after: map<int, Board.Bar>)
    requires |files| == |worlds| && i < |files|
    requires before == FilesBoard(bars, files, worlds, i)
    requires after == BoardAfter(before, i, Tag(files[i]), ProcessFile(files[i], worlds[i]).events)
    ensures after == FilesBoard(bars, files, worlds, i + 1)
  {
  }

  /** Applying files keeps the board's slots and its percentages in range. */
  lemma {:induction false} BoardsAfterFrame(bars: map<int, Board.Bar>, tags: seq<string>, evs: seq<seq<Event>>, n: nat)
    requires |tags| == |evs| && n <= |tags| && Board.InRange(bars)
    ensures Board.InRange(BoardsAfter(bars, tags, evs, n))
    ensures BoardsAfter(bars, tags, evs, n).Keys == bars.Keys
  {
    if n > 0 {
      BoardsAfterFrame(bars, tags, evs, n - 1);
      BoardAfterFrame(BoardsAfter(bars, tags, evs, n - 1), n - 1, tags[n - 1], evs[n - 1]);
    }
  }

  /** The files after file `k` leave slot `k` as file `k` left it. */
  lemma {:induction false} BoardsAfterLater(bars: map<int, Board.Bar>, tags: seq<string>, evs: seq<seq<Event>>, k: nat, n: nat)
    requires |tags| == |evs| && k < n <= |tags| && Board.InRange(bars) && k in bars
    ensures k in BoardsAfter(bars, tags, evs, n) && k in BoardsAfter(bars, tags, evs, k + 1)
    ensures BoardsAfter(bars, tags, evs, n)[k] == BoardsAfter(bars, tags, evs, k + 1)[k]
    decreases n
  {
    BoardsAfterFrame(bars, tags, evs, n);
    BoardsAfterFrame(bars, tags, evs, k + 1);
    if n > k + 1 {
      BoardsAfterLater(bars, tags, evs, k, n - 1);
      BoardsAfterFrame(bars, tags, evs, n - 1);
      BoardAfterFrame(BoardsAfter(bars, tags, evs, n - 1), n - 1, tags[n - 1], evs[n - 1]);
    }
  }

  /** File `k` leaves its slot full after a success and red after a sheet without rows. */
  lemma FileSlotVerdict(bars: map<int, Board.Bar>, files: seq<string>, worlds: seq<FileWorld>, k: nat)
    requires |files| == |worlds| && k < |files| && Board.InRange(bars) && k in bars
    ensures k in FilesBoard(bars, files, worlds, k + 1)
    ensures Outcomes(files, worlds)[k].Success? ==> FilesBoard(bars, files, worlds, k + 1)[k].n == Board.Total
    ensures worlds[k].read == Success([]) ==> FilesBoard(bars, files, worlds, k + 1)[k].red
  {
    var tags, evs := Tags(files), FileEvents(files, worlds);
    BoardsAfterFrame(bars, tags, evs, k);
    FileBarVerdict(BoardsAfter(bars, tags, evs, k), k, files[k], worlds[k]);
    OutcomeAt(files, worlds, k);
  }

  /** Once every file has run, each slot holds its own file's verdict. */
  lemma FilesBoardVerdicts(bars: map<int, Board.Bar>, files: seq<string>, worlds: seq<FileWorld>)
    requires |files| == |worlds|
    requires Board.InRange(bars) && forall k :: 0 <= k < |files| ==> k in bars
    ensures forall k :: 0 <= k < |files| ==> k in FilesBoard(bars, files, worlds, |files|)
    ensures forall k :: 0 <= k < |files| && Outcomes(files, worlds)[k].Success? ==>
      FilesBoard(bars, files, worlds, |files|)[k].n == Board.Total
    ensures forall k :: 0 <= k < |files| && worlds[k].read == Success([]) ==>
      FilesBoard(bars, files, worlds, |files|)[k].red
  {
    forall k | 0 <= k < |files|
      ensures k in FilesBoard(bars, files, worlds, |files|)
      ensures Outcomes(files, worlds)[k].Success? ==> FilesBoard(bars, files, worlds, |files|)[k].n == Board.Total
      ensures worlds[k].read == Success([]) ==> FilesBoard(bars, files, worlds, |files|)[k].red
    {
      BoardsAfterLater(bars, Tags(files), FileEvents(files, worlds), k, |files|);
      FileSlotVerdict(bars, files, worlds, k);
    }
  }

  /** Collecting one more outcome. */
  lemma PrefixStep(outcomes: seq<Result<Duration, FileError>>, results: seq<Result<Duration, FileError>>, i: nat,
                   outcome: Result<Duration, FileError>)
    requires i < |outcomes| && results == outcomes[..i] && outcome == outcomes[i]
    ensures results + [outcome] == outcomes[..i + 1]
  {
  }

  /** `asyncio.gather` over the files' tasks, file `i` on slot `i`, with every task's outcome collected. */
  method RunAll(board: Board.ConsoleBoard, files: seq<string>, worlds: seq<FileWorld>)
    returns (results: seq<Result<Duration, FileError>>)
    requires |files| == |worlds|
    requires board.Valid() && board.n == |files|
    modifies board
    ensures board.Valid() && board.n == |files|
    ensures results == Outcomes(files, worlds)
    ensures board.bars == FilesBoard(old(board.bars), files, worlds, |files|)
  {
    ghost var outcomes := Outcomes(files, worlds);
    results := [];
    for i := 0 to |files|
      invariant board.Valid() && board.n == |files|
      invariant results == outcomes[..i]
      invariant board.bars == FilesBoard(old(board.bars), files, worlds, i)
    {
      ghost var before := board.bars;
      var outcome := RunFile(board, files, worlds, i);
      FilesBoardStep(old(board.bars), files, worlds, i, before, board.bars);
      PrefixStep(outcomes, results, i, outcome);
      results := results + [outcome];
    }
  }

  /** What `run_pipeline` returns: the failure count, the durations, the total time. */
  datatype Summary = Summary(failures: nat, durations: seq<Duration>, totalTime: Duration)

  /**
   * `run_pipeline(files)`: the initial refresh (whose failure ends the run),
   * the board with one slot per file, every file processed and its bar
   * updates applied, all bars closed, and the outcomes counted. The clock's
   * total is the parameter `totalTime`. Files are applied to the board one
   * after another; as each touches only its own slot, any interleaving of
   * their updates leaves the same board.
   */
  method RunPipeline(
    files: seq<string>,
    initialLogin: Result<(map<string, string>, map<string, string>), AuthEdge.AuthError>,
    worlds: seq<FileWorld>,
    totalTime: Duration)
    returns (r: Result<Summary, FileError>, bars: map<int, Board.Bar>)
    requires |worlds| == |files|
    ensures initialLogin.Failure? ==> r == Failure(AuthFailed(initialLogin.error)) && bars == map[]
    ensures initialLogin.Success? ==>
      r == Success(Summary(FailureCount(Outcomes(files, worlds)), Successes(Outcomes(files, worlds)), totalTime))
    ensures initialLogin.Success? ==>
      bars == Board.AllClosed(FilesBoard(Board.Progressed(Board.InitialBars(|files|), 0, "Initial authentication", 10), files, worlds, |files|))
    ensures initialLogin.Success? ==> forall i :: i in bars <==> 0 <= i < |files|
    ensures initialLogin.Success? ==> forall i :: 0 <= i < |files| ==>
      && bars[i].closed
      && (Outcomes(files, worlds)[i].Success? ==> bars[i].n == Board.Total)
      && (worlds[i].read == Success([]) ==> bars[i].red)
  {
    var auth := new AuthEdge.AsyncAuth();
    var refreshed := auth.Refresh(initialLogin);
    if refreshed.Failure? {
      return Failure(AuthFailed(refreshed.error)), map[];
    }
    var board := new Board.ConsoleBoard(|files|);
    board.SetProgress(0, "Initial authentication", 10);
    ghost var start := board.bars;
    var results := RunAll(board, files, worlds);
    FilesBoardVerdicts(start, files, worlds);
    ghost var beforeClose := board.bars;
    board.CloseAll();
    Board.AllClosedEffect(beforeClose);
    var failures, durations, _ := Aggregate(files, results);
    assert results[..|files|] == results;
    assert files[..|files|] == files;
    return Success(Summary(failures, durations, totalTime)), board.bars;
  }
}
