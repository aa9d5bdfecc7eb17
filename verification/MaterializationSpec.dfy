/**
 * The delivery materialization service as a state machine. Every operation is one
 * function from the state under the lock, and the world's answers, to the next state.
 * The log is a history of what happened; no operation reads it. failureRun is a history
 * variable too: the first failure and every failed retry since the last clean pass,
 * counted without the 32-bit limit of consecutiveFailures.
 */
module MaterializationSpec {
  import opened Basics
  import opened Catchup

  const GUINT_MODULUS := 0x1_0000_0000
  const DEFAULT_RETRY_INITIAL_MS := 5000
  const DEFAULT_RETRY_MAX_MS := 300000
  const MICROS_PER_MS := 1000

  datatype PassKind = PassCatchUp | PassPostIngest | PassRetry

  /** A record about to be appended, and how far behind the journal end it lands. */
  datatype Draft = Draft(account: string, kind: Kind, offsetGap: nat, sequenceGap: nat)

  function NextRecord(j: seq<Record>, d: Draft): Record
  {
    var end := if j == [] then Position(0, 0) else Position(j[|j| - 1].pos.offset + 1, j[|j| - 1].pos.sequence);
    Record(Position(end.offset + d.offsetGap, end.sequence + 1 + d.sequenceGap), d.account, d.kind)
  }

  function Extend(j: seq<Record>, drafts: seq<Draft>): seq<Record>
    decreases |drafts|
  {
    if drafts == [] then j else Extend(j + [NextRecord(j, drafts[0])], drafts[1..])
  }

  datatype Event =
    | Queued(account: string)
    | Scanned(report: Report)
    | ScanAborted
    | Extracted(account: string, ok: bool, appended: nat)
    | Refreshed(account: string, ok: bool)
    | Dropped(account: string)
    | PassClean
    | PassFailed(kind: PassKind, aborted: bool, signature: string, at: int, warned: bool, stopped: bool, window: int)

  datatype State = State(
    journal: seq<Record>,
    catalog: Catalog,
    retrySource: Option<nat>,
    nextSource: nat,
    attached: set<nat>,
    retryInitial: nat,
    retryMax: nat,
    retryInterval: nat,
    consecutiveFailures: nat,
    failureRun: nat,
    aborted: bool,
    stopped: bool,
    holds: seq<Hold>,
    cursor: Option<Position>,
    refreshInstalled: bool,
    extractInstalled: bool,
    pending: set<string>,
    refreshHolds: seq<Hold>,
    warnedSignature: Option<string>,
    warnedAt: int,
    log: seq<Event>)

  function Init(): State
  {
    State([], Catalog(None, {}), None, 0, {}, DEFAULT_RETRY_INITIAL_MS, DEFAULT_RETRY_MAX_MS,
          DEFAULT_RETRY_INITIAL_MS, 0, 0, false, false, [], None, false, false, {}, [], None, 0, [])
  }

  /** appended: the records the extraction journaled, also when it fails. */
  datatype ExtractAnswer = ExtractAnswer(error: Option<string>, appended: seq<Draft>)

  /** What the world answers during one pass, its follow-up included. growth is what other
      threads made durable before each scan. */
  datatype PassEnv = PassEnv(
    growth: seq<Draft>,
    scan: ScanEnv,
    extract: string -> ExtractAnswer,
    followUpGrowth: seq<Draft>,
    followUpScan: ScanEnv,
    refresh: string -> Option<string>,
    now: int)

  // ----- one scan -----

  function RunScan(s: State, kind: PassKind, growth: seq<Draft>, env: ScanEnv): (State, ScanOutcome)
  {
    var resume := kind.PassPostIngest?;
    var j := Extend(s.journal, growth);
    var (c, out) := Pass(j, s.catalog, if resume then s.cursor else None, if resume then s.holds else [], env);
    (s.(journal := j, catalog := c,
        log := s.log + [if out.Completed? then Scanned(out.report) else ScanAborted]), out)
  }

  function QueueMaterialized(s: State, report: Report): State
  {
    s.(pending := s.pending + report.materialized)
  }

  // ----- extraction and refresh -----

  function Unheld(s: State, report: Report): set<string>
  {
    set a | a in s.pending && !Held(report.holds, a) && !Held(s.refreshHolds, a)
  }

  function RefreshHold(account: string, message: string): Hold
  {
    Hold(account, Position(0, 0), message)
  }

  function ExtractOne(s: State, account: string, answer: ExtractAnswer): State
  {
    s.(journal := Extend(s.journal, answer.appended),
       refreshHolds := if answer.error.None? then s.refreshHolds
                       else s.refreshHolds + [RefreshHold(account, "fact extraction failed: " + answer.error.value)],
       log := s.log + [Extracted(account, answer.error.None?, |answer.appended|)])
  }

  function ExtractAll(s: State, accounts: seq<string>, extract: string -> ExtractAnswer): State
    decreases |accounts|
  {
    if accounts == [] then s
    else ExtractAll(ExtractOne(s, accounts[0], extract(accounts[0])), accounts[1..], extract)
  }

  predicate AppendedAny(accounts: seq<string>, extract: string -> ExtractAnswer)
  {
    exists i :: 0 <= i < |accounts| && |extract(accounts[i]).appended| > 0
  }

  ghost function ExtractPending(s: State, report: Report, extract: string -> ExtractAnswer): (State, bool)
  {
    if !s.extractInstalled then (s, false)
    else
      var accounts := SortedSet(Unheld(s, report));
      (ExtractAll(s, accounts, extract), AppendedAny(accounts, extract))
  }

  function RefreshOne(s: State, account: string, error: Option<string>): State
  {
    if error.None? then
      s.(pending := s.pending - {account}, log := s.log + [Refreshed(account, true)])
    else
      s.(refreshHolds := s.refreshHolds + [RefreshHold(account, error.value)],
         log := s.log + [Refreshed(account, false)])
  }

  function RefreshAll(s: State, accounts: seq<string>, refresh: string -> Option<string>): State
    decreases |accounts|
  {
    if accounts == [] then s
    else RefreshAll(RefreshOne(s, accounts[0], refresh(accounts[0])), accounts[1..], refresh)
  }

  function DropAll(s: State, accounts: seq<string>): State
    decreases |accounts|
  {
    if accounts == [] then s
    else DropAll(s.(pending := s.pending - {accounts[0]}, log := s.log + [Dropped(accounts[0])]), accounts[1..])
  }

  ghost function RefreshPending(s: State, report: Report, refresh: string -> Option<string>): State
  {
    if s.refreshInstalled then RefreshAll(s, SortedSet(Unheld(s, report)), refresh)
    else DropAll(s, SortedSet(set a | a in s.pending && !Held(s.refreshHolds, a)))
  }

  /** A scan, extraction for its pending accounts, a follow-up scan when records were
      extracted, and the refresh; the outcome is that of the last scan. */
  ghost function DerivedPass(s: State, kind: PassKind, env: PassEnv): (State, ScanOutcome)
  {
    var (s1, out) := RunScan(s, kind, env.growth, env.scan);
    if out.Aborted? then (s1, out) else AfterScan(s1, kind, env, out.report)
  }

  ghost function AfterScan(s: State, kind: PassKind, env: PassEnv, report: Report): (State, ScanOutcome)
  {
    var (s', appended) := ExtractPending(QueueMaterialized(s, report).(refreshHolds := []), report, env.extract);
    if appended then FollowUp(s', kind, env) else (RefreshPending(s', report, env.refresh), Completed(report))
  }

  ghost function FollowUp(s: State, kind: PassKind, env: PassEnv): (State, ScanOutcome)
  {
    var (s', out) := RunScan(s, kind, env.followUpGrowth, env.followUpScan);
    if out.Aborted? then (s', out)
    else (RefreshPending(QueueMaterialized(s', out.report), out.report, env.refresh), out)
  }

  // ----- the failure signature -----

  const UNIT_SEPARATOR: char := 0x1f as char
  const RECORD_SEPARATOR: char := 0x1e as char

  function HoldPart(h: Hold): string
  {
    h.account + [UNIT_SEPARATOR] + h.message
  }

  function RefreshPart(h: Hold): string
  {
    "refresh" + [UNIT_SEPARATOR] + h.account + [UNIT_SEPARATOR] + h.message
  }

  function SignatureParts(holds: seq<Hold>, refreshHolds: seq<Hold>): seq<string>
  {
    seq(|holds|, i requires 0 <= i < |holds| => HoldPart(holds[i])) +
    seq(|refreshHolds|, i requires 0 <= i < |refreshHolds| => RefreshPart(refreshHolds[i]))
  }

  function Join(parts: seq<string>, separator: char): string
  {
    if parts == [] then ""
    else if |parts| == 1 then parts[0]
    else parts[0] + [separator] + Join(parts[1..], separator)
  }

  function AbortSignature(e: Error): string
  {
    "abort" + [UNIT_SEPARATOR] + e.domain + [UNIT_SEPARATOR] + e.code + [UNIT_SEPARATOR] + e.message
  }

  function HoldSignature(holds: seq<Hold>, refreshHolds: seq<Hold>): string
  {
    Join(Sort(SignatureParts(holds, refreshHolds)), RECORD_SEPARATOR)
  }

  function FailureSignature(out: ScanOutcome, refreshHolds: seq<Hold>): string
  {
    match out
    case Aborted(e) => AbortSignature(e)
    case Completed(report) => HoldSignature(report.holds, refreshHolds)
  }

  // ----- finishing a pass -----

  function FinishClean(s: State): State
  {
    s.(consecutiveFailures := 0, failureRun := 0, aborted := false, retryInterval := s.retryInitial,
       holds := [], cursor := None, warnedSignature := None, retrySource := None,
       log := s.log + [PassClean])
  }

  function Window(s: State): int
  {
    s.retryMax * MICROS_PER_MS
  }

  predicate Warns(s: State, signature: string, now: int)
  {
    s.stopped || s.warnedSignature != Some(signature) || now - s.warnedAt >= Window(s)
  }

  function Doubled(s: State): nat
  {
    if s.retryInterval > s.retryMax / 2 then s.retryMax else s.retryInterval * 2
  }

  function ScheduleRetry(s: State): State
  {
    s.(retrySource := Some(s.nextSource), nextSource := s.nextSource + 1, attached := s.attached + {s.nextSource})
  }

  function CountFailure(s: State, kind: PassKind): State
  {
    if kind.PassRetry? then
      s.(consecutiveFailures := (s.consecutiveFailures + 1) % GUINT_MODULUS, failureRun := s.failureRun + 1,
         retryInterval := Doubled(s))
    else
      s.(consecutiveFailures := if s.consecutiveFailures == 0 then 1 else s.consecutiveFailures,
         failureRun := if s.failureRun == 0 then 1 else s.failureRun)
  }

  function RecordFailure(s: State, kind: PassKind, out: ScanOutcome, signature: string, now: int): State
  {
    var s1 := s.(aborted := out.Aborted?,
                 holds := if out.Completed? then out.report.holds else s.holds,
                 cursor := if out.Completed? && out.report.holds != [] then out.report.scannedThrough else None);
    var s2 := CountFailure(s1, kind);
    var s3 := if !s2.stopped && s2.retrySource.None? then ScheduleRetry(s2) else s2;
    var warn := Warns(s, signature, now);
    s3.(warnedSignature := if warn then Some(signature) else s3.warnedSignature,
        warnedAt := if warn then now else s3.warnedAt,
        log := s3.log + [PassFailed(kind, out.Aborted?, signature, now, warn, s.stopped, Window(s))])
  }

  function FinishPass(s: State, kind: PassKind, out: ScanOutcome, now: int): State
  {
    if out.Completed? && out.report.holds == [] && s.refreshHolds == [] then FinishClean(s)
    else RecordFailure(s, kind, out, FailureSignature(out, s.refreshHolds), now)
  }

  ghost function RunAndFinish(s: State, kind: PassKind, env: PassEnv): State
  {
    var (s', out) := DerivedPass(s, kind, env);
    FinishPass(s', kind, out, env.now)
  }

  // ----- the published list of held accounts -----

  function Accounts(holds: seq<Hold>): seq<string>
  {
    seq(|holds|, i requires 0 <= i < |holds| => holds[i].account)
  }

  /** Accounts held only at refresh. */
  function Unlisted(holds: seq<Hold>, refreshHolds: seq<Hold>): seq<string>
  {
    if refreshHolds == [] then []
    else
      (if Held(holds, refreshHolds[0].account) then [] else [refreshHolds[0].account]) +
      Unlisted(holds, refreshHolds[1..])
  }

  function HeldAccounts(s: State): seq<string>
  {
    Accounts(s.holds) + Unlisted(s.holds, s.refreshHolds)
  }

  // ----- operations -----

  datatype Op =
    | Append(drafts: seq<Draft>)
    | CatchUp(env: PassEnv)
    | PostIngest(env: PassEnv)
    | Fire(source: nat, env: PassEnv)
    | Destroy(source: nat)
    | Stop
    | SetBackoff(initial: nat, max: nat)
    | SetRefresh(installed: bool)
    | SetExtract(installed: bool)
    | QueueRefresh(account: string)

  /** An explicit catch-up reports an abort to its caller instead of recording it. */
  ghost function CatchUpStep(s: State, env: PassEnv): State
  {
    var (s', out) := DerivedPass(s, PassCatchUp, env);
    if out.Aborted? then s'.(cursor := None) else FinishPass(s', PassCatchUp, out, env.now)
  }

  /** A timeout source dispatched by the main loop; one-shot, and stale unless it is the
      current retry source of a service that is not stopped. */
  ghost function FireStep(s: State, source: nat, env: PassEnv): State
  {
    if source !in s.attached then s
    else
      var s1 := s.(attached := s.attached - {source});
      if s.stopped || s.retrySource != Some(source) then s1
      else RunAndFinish(s1.(retrySource := None), PassRetry, env)
  }

  ghost function Step(s: State, op: Op): State
  {
    match op
    case Append(drafts) => s.(journal := Extend(s.journal, drafts))
    case CatchUp(env) => CatchUpStep(s, env)
    case PostIngest(env) => RunAndFinish(s, PassPostIngest, env)
    case Fire(source, env) => FireStep(s, source, env)
    case Destroy(source) =>
      // g_source_destroy of a source taken out of the service after the lock was released
      if s.retrySource == Some(source) then s else s.(attached := s.attached - {source})
    case Stop => s.(stopped := true, retrySource := None)
    case SetBackoff(initial, max) =>
      if 0 < initial <= max < GUINT_MODULUS then
        s.(retryInitial := initial, retryMax := max, retryInterval := initial)
      else s
    case SetRefresh(installed) => s.(refreshInstalled := installed)
    case SetExtract(installed) => s.(extractInstalled := installed)
    case QueueRefresh(account) =>
      if account == "" then s else s.(pending := s.pending + {account}, log := s.log + [Queued(account)])
  }

  ghost function Run(s: State, ops: seq<Op>): State
    decreases |ops|
  {
    if ops == [] then s else Run(Step(s, ops[0]), ops[1..])
  }
}
