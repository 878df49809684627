/** The durable activation journal and its handlers. A handler reads the journal, changes its copy and
    writes it back, several times in one request, all under the activation lease. Reads and writes of the
    file succeed; every other answer from outside is a parameter. */
module Activation {
  import opened Options
  import opened Identity
  import opened Idempotency

  const HISTORY_LIMIT: nat := 50
  const MAX_REVISION: nat := 0xFFFF_FFFF_FFFF_FFFF
  const CONDITIONAL_FORCE_CAPABILITY: string := "ConditionalActivationForce"

  datatype Phase =
    | Current | InstalledPending | Checking | Blocked | Activating | Forcing | Activated | Failed | Cancelled

  datatype CheckTrigger = Installed | Scheduled | Manual | Forced | Recovered

  datatype CheckResult = CheckBlocked | CheckActivated | CheckFailed | CheckCancelled

  datatype CheckRecord = CheckRecord(sequence: nat, trigger: CheckTrigger, result: CheckResult, blockerCount: nat,
                                     detail: Message)

  datatype Failure = Failure(message: Message, retryable: bool)

  datatype Blocker = Blocker(sessionId: string, sessionRevision: nat)

  /** The journal as stored. */
  datatype JournalData = JournalData(
    attemptId: string,
    revision: nat,
    phase: Phase,
    installed: ExecutableIdentity,
    running: Option<RunningIdentity>,
    blockers: seq<Blocker>,
    history: seq<CheckRecord>,
    failure: Option<Failure>,
    memory: Memory)

  /** A new attempt, not written yet. */
  function NewAttempt(attemptId: string, installed: ExecutableIdentity, running: Option<RunningIdentity>): JournalData {
    JournalData(attemptId, 0, InstalledPending, installed, running, [], [], None, Memory([], []))
  }

  predicate SupportsForce(running: Option<RunningIdentity>) {
    && running.Some?
    && running.value.server.Some?
    && CONDITIONAL_FORCE_CAPABILITY in running.value.server.value.capabilities
  }

  function BlockerSet(blockers: seq<Blocker>): set<(string, nat)> {
    set i | 0 <= i < |blockers| :: (blockers[i].sessionId, blockers[i].sessionRevision)
  }

  /** At most fifty checks are kept, numbered without a gap. */
  ghost predicate HistorySound(history: seq<CheckRecord>) {
    |history| <= HISTORY_LIMIT && Numbered(history)
  }

  ghost predicate Numbered(history: seq<CheckRecord>) {
    forall i :: 0 <= i < |history| - 1 ==> history[i + 1].sequence == history[i].sequence + 1
  }

  ghost predicate JournalSound(d: JournalData) {
    Sound(d.memory) && HistorySound(d.history)
  }

  /** One more check in the history. */
  function Recorded(history: seq<CheckRecord>, trigger: CheckTrigger, result: CheckResult, blockers: nat,
                    detail: Message): (r: seq<CheckRecord>)
    ensures |r| > 0 && r[|r| - 1].trigger == trigger && r[|r| - 1].result == result
    ensures r[|r| - 1].blockerCount == blockers && r[|r| - 1].detail == detail
  {
    var sequence := if history == [] then 1 else history[|history| - 1].sequence + 1;
    var all := history + [CheckRecord(sequence, trigger, result, blockers, detail)];
    if |all| > HISTORY_LIMIT then all[|all| - HISTORY_LIMIT..] else all
  }

  lemma NewestKept<T>(s: seq<T>, x: T, newest: seq<T>)
    requires 0 < |newest| <= |s| + 1 && newest == (s + [x])[|s| + 1 - |newest|..]
    ensures forall i :: 0 <= i < |newest| - 1 ==> newest[i] == s[|s| + 1 - |newest| + i]
  {
  }

  /** The newest of the checks before it stay, fifty with the new one. */
  lemma RecordedKeepsNewest(history: seq<CheckRecord>, trigger: CheckTrigger, result: CheckResult, blockers: nat,
                            detail: Message)
    requires |history| <= HISTORY_LIMIT
    ensures var r := Recorded(history, trigger, result, blockers, detail);
            && |r| == (if |history| < HISTORY_LIMIT then |history| + 1 else HISTORY_LIMIT)
            && forall i :: 0 <= i < |r| - 1 ==> r[i] == history[|history| + 1 - |r| + i]
  {
    var r := Recorded(history, trigger, result, blockers, detail);
    NewestKept(history, r[|r| - 1], r);
  }

  lemma NumberedSuffix(history: seq<CheckRecord>, drop: nat)
    requires Numbered(history) && drop <= |history|
    ensures Numbered(history[drop..])
  {
    forall i | 0 <= i < |history[drop..]| - 1
      ensures history[drop..][i + 1].sequence == history[drop..][i].sequence + 1
    {
      assert history[drop..][i] == history[drop + i] && history[drop..][i + 1] == history[drop + i + 1];
    }
  }

  lemma RecordedSound(history: seq<CheckRecord>, trigger: CheckTrigger, result: CheckResult, blockers: nat,
                      detail: Message)
    requires HistorySound(history)
    ensures HistorySound(Recorded(history, trigger, result, blockers, detail))
  {
    var sequence := if history == [] then 1 else history[|history| - 1].sequence + 1;
    var all := history + [CheckRecord(sequence, trigger, result, blockers, detail)];
    assert Numbered(all);
    if |all| > HISTORY_LIMIT {
      NumberedSuffix(all, |all| - HISTORY_LIMIT);
    }
  }

  function Bumped(revision: nat): (r: nat) {
    if revision < MAX_REVISION then revision + 1 else MAX_REVISION
  }

  /** Within one attempt every write raised the revision, until it saturates. */
  ghost predicate Ordered(writes: seq<JournalData>) {
    forall i, j :: 0 <= i < j < |writes| && writes[i].attemptId == writes[j].attemptId ==>
      writes[i].revision < writes[j].revision || writes[j].revision == MAX_REVISION
  }

  /** So equal attempt and revision mean that no write came between: what a client observed under them
      is the current journal. */
  lemma ObservedIsCurrent(writes: seq<JournalData>, i: nat, attempt: string, revision: nat)
    requires Ordered(writes) && i < |writes| && revision < MAX_REVISION
    requires writes[i].attemptId == writes[|writes| - 1].attemptId == attempt
    requires writes[i].revision == writes[|writes| - 1].revision == revision
    ensures i == |writes| - 1 && writes[i] == writes[|writes| - 1]
  {
  }

  /** The working copy of the journal. */
  class Journal {
    var attemptId: string
    var revision: nat
    var phase: Phase
    var installed: ExecutableIdentity
    var running: Option<RunningIdentity>
    var blockers: seq<Blocker>
    var history: seq<CheckRecord>
    var failure: Option<Failure>
    var idempotencyKeys: seq<string>
    var idempotencyRejections: seq<Rejection>

    ghost function View(): JournalData
      reads this
    {
      JournalData(attemptId, revision, phase, installed, running, blockers, history, failure,
                  Memory(idempotencyKeys, idempotencyRejections))
    }

    function Data(): (d: JournalData)
      reads this
      ensures d == View()
    {
      JournalData(attemptId, revision, phase, installed, running, blockers, history, failure,
                  Memory(idempotencyKeys, idempotencyRejections))
    }

    constructor Of(d: JournalData)
      ensures View() == d
    {
      attemptId, revision, phase, installed, running := d.attemptId, d.revision, d.phase, d.installed, d.running;
      blockers, history, failure := d.blockers, d.history, d.failure;
      idempotencyKeys, idempotencyRejections := d.memory.keys, d.memory.rejections;
    }

    method RememberIdempotencyKey(key: string) returns (added: bool)
      requires Sound(View().memory)
      modifies this`idempotencyKeys, this`idempotencyRejections
      ensures added <==> key != "" && key !in old(idempotencyKeys)
      ensures View().memory == if added then Remembered(old(View().memory), key) else old(View().memory)
    {
      if key == "" || key in idempotencyKeys {
        return false;
      }
      ghost var before := View().memory;
      idempotencyKeys := idempotencyKeys + [key];
      if |idempotencyKeys| > IDEMPOTENCY_LIMIT {
        idempotencyKeys := idempotencyKeys[|idempotencyKeys| - IDEMPOTENCY_LIMIT..];
        idempotencyRejections := Retained(idempotencyRejections, idempotencyKeys);
      } else {
        assert forall i :: 0 <= i < |idempotencyRejections| ==> idempotencyRejections[i].key in before.keys;
        RetainedAll(idempotencyRejections, idempotencyKeys);
      }
      return true;
    }

    method RememberIdempotencyRejection(key: string, status: Status) returns (added: bool)
      requires Sound(View().memory)
      modifies this`idempotencyKeys, this`idempotencyRejections
      ensures added <==> Rememberable(status.code) && key != "" && key !in old(idempotencyKeys)
      ensures View().memory == if added then After(old(View().memory), key, Rejected(status)) else old(View().memory)
    {
      if !Rememberable(status.code) {
        return false;
      }
      added := RememberIdempotencyKey(key);
      if added {
        idempotencyRejections := idempotencyRejections + [Rejection(key, status.code, status.message)];
      }
    }

    method RememberAcceptedIdempotencyRejection(key: string, status: Status) returns (added: bool)
      modifies this`idempotencyRejections
      ensures added <==> Rememberable(status.code) && key != "" && key in idempotencyKeys
                         && FindRejection(old(idempotencyRejections), key).None?
      ensures idempotencyRejections == old(idempotencyRejections)
                                       + if added then [Rejection(key, status.code, status.message)] else []
    {
      if !Rememberable(status.code) {
        return false;
      }
      if key == "" || key !in idempotencyKeys || FindRejection(idempotencyRejections, key).Some? {
        return false;
      }
      idempotencyRejections := idempotencyRejections + [Rejection(key, status.code, status.message)];
      return true;
    }

    method Record(trigger: CheckTrigger, result: CheckResult, detail: Message)
      modifies this`history
      ensures history == Recorded(old(history), trigger, result, |blockers|, detail)
    {
      var sequence := if history == [] then 1 else history[|history| - 1].sequence + 1;
      history := history + [CheckRecord(sequence, trigger, result, |blockers|, detail)];
      if |history| > HISTORY_LIMIT {
        history := history[|history| - HISTORY_LIMIT..];
      }
    }
  }

  // ----- answers from outside

  datatype Result<T> = Ok(value: T) | Err(error: string)

  datatype FinishWorld = FinishWorld(apiReady: Result<()>, running: Option<RunningIdentity>,
                                     expected: Result<ExecutableIdentity>)

  datatype CheckWorld = CheckWorld(
    installed: Result<ExecutableIdentity>,
    running: Option<RunningIdentity>,
    lifecycleLive: bool,
    ownerDisproven: bool,
    blockers: Result<seq<Blocker>>,
    restart: Result<()>,
    blockersAfter: Result<seq<Blocker>>,
    finish: FinishWorld)

  predicate FinishVerifies(f: FinishWorld) {
    f.apiReady.Ok? && f.expected.Ok? && f.running.Some? && RunningServiceHasBuild(f.running.value, f.expected.value)
  }

  /** Why the replacement service was not verified. */
  function FinishFault(f: FinishWorld): Message {
    if f.apiReady.Err? then Detail(f.apiReady.error)
    else if f.expected.Err? then Detail(f.expected.error)
    else UnexpectedIdentity
  }

  /** The recorded target is the executable, and the running service has it already. */
  predicate RunsTarget(d: JournalData, w: CheckWorld)
    requires w.installed.Ok?
  {
    && MatchesRecordedTarget(d.installed, w.installed.value)
    && w.running.Some?
    && RunningServiceHasBuild(w.running.value, Adopted(d.installed, w.installed.value))
  }

  /** No service is there at all, or it reported that nothing blocks. */
  predicate Quiescent(w: CheckWorld) {
    || (!(w.running.Some? && w.running.value.server.Some?) && !w.lifecycleLive && w.ownerDisproven)
    || w.blockers == Ok([])
  }

  /** The journal with one more key remembered. */
  function WithKey(d: JournalData, key: string): JournalData {
    d.(memory := Remembered(d.memory, key))
  }

  function WithRejection(m: Memory, key: string, status: Status): Memory {
    m.(rejections := m.rejections + [Rejection(key, status.code, status.message)])
  }

  /** A check starts a restart: the executable is the recorded target, does not run yet, and nothing blocks. */
  predicate Restarts(d: JournalData, w: CheckWorld)
    requires w.installed.Ok?
  {
    MatchesRecordedTarget(d.installed, w.installed.value) && !RunsTarget(d, w) && Quiescent(w)
  }

  /** A check ends activated: the target runs already, or it does after a restart that verifies. */
  predicate Activates(d: JournalData, w: CheckWorld)
    requires w.installed.Ok?
  {
    RunsTarget(d, w) || (Restarts(d, w) && w.restart.Ok? && FinishVerifies(w.finish))
  }

  /** The recorded target and service that a check leaves. A target that matches gains the provenance of the
      executable; the service is the one that was found, or its replacement once that verified. */
  predicate KeepsTarget(d: JournalData, before: JournalData, w: CheckWorld)
    requires w.installed.Ok?
  {
    if !MatchesRecordedTarget(before.installed, w.installed.value) then
      d.installed == before.installed && d.running == before.running
    else
      && d.installed == Adopted(before.installed, w.installed.value)
      && d.running == if Restarts(before, w) && Activates(before, w) then w.finish.running else w.running
  }

  datatype ForceRequest = ForceRequest(key: string, expectedAttempt: string, expectedRevision: nat,
                                       expectedBlockers: seq<Blocker>)

  datatype ForceWorld = ForceWorld(restart: Result<()>, blockersAfter: Result<seq<Blocker>>, finish: FinishWorld)

  /** How a force that was carried out is refused. */
  function ForceFault(w: ForceWorld): Status {
    if w.restart.Err? then Status(Aborted, Detail(w.restart.error)) else Status(Unavailable, FinishFault(w.finish))
  }

  datatype Request = Recheck(key: string, check: CheckWorld) | Force(force: ForceRequest, world: ForceWorld)

  function KeyOf(r: Request): string {
    match r
    case Recheck(key, _) => key
    case Force(request, _) => request.key
  }

  function Keys(requests: seq<Request>): seq<string> {
    seq(|requests|, i requires 0 <= i < |requests| => KeyOf(requests[i]))
  }

  function Outcomes(responses: seq<Response>): seq<Outcome> {
    seq(|responses|, i requires 0 <= i < |responses| => OutcomeOf(responses[i]))
  }

  lemma RunExtended(ms: seq<Memory>, keys: seq<string>, os: seq<Outcome>, key: string, o: Outcome, m: Memory)
    requires Run(ms, keys, os) && Handled(ms[|keys|], key, o, m)
    ensures Run(ms + [m], keys + [key], os + [o])
  {
  }

  /** What happens to an attempt: a client asks, a check is due, a new helper starts, the current service is
      found, or the recorded target is scheduled once more. */
  datatype Event =
    | Asked(request: Request)
    | CheckDue(world: CheckWorld)
    | HelperStarted
    | ServiceFound(installed: ExecutableIdentity, observed: RunningIdentity, current: Option<RuntimeRecord>)
    | Rescheduled(running: Option<RunningIdentity>)

  function RequestsOf(events: seq<Event>): seq<Request> {
    if events == [] then []
    else
      var last := events[|events| - 1];
      RequestsOf(events[..|events| - 1]) + if last.Asked? then [last.request] else []
  }

  /** The memory at the start, and after each request. */
  function MemoriesOf(journals: seq<JournalData>, events: seq<Event>): seq<Memory>
    requires |journals| == |events| + 1
  {
    if events == [] then [journals[0].memory]
    else
      var n := |events|;
      MemoriesOf(journals[..n], events[..n - 1]) + if events[n - 1].Asked? then [journals[n].memory] else []
  }

  /** A request with an empty or remembered key leaves the journal as it is, and only requests change its memory. */
  predicate Keeps(d: JournalData, e: Event, d': JournalData) {
    if e.Asked? then KeyOf(e.request) == "" || KeyOf(e.request) in d.memory.keys ==> d' == d
    else d'.memory == d.memory
  }

  /** `journals` are the journals before, between and after the events, and the requests among these are a run of
      the idempotency memory. */
  ghost predicate Served(journals: seq<JournalData>, events: seq<Event>, responses: seq<Response>) {
    && |journals| == |events| + 1
    && (forall i :: 0 <= i < |events| ==> Keeps(journals[i], events[i], journals[i + 1]))
    && Run(MemoriesOf(journals, events), Keys(RequestsOf(events)), Outcomes(responses))
  }

  lemma {:induction false} LastMemory(journals: seq<JournalData>, events: seq<Event>)
    requires |journals| == |events| + 1
    requires forall i :: 0 <= i < |events| ==> Keeps(journals[i], events[i], journals[i + 1])
    ensures |MemoriesOf(journals, events)| == |RequestsOf(events)| + 1
    ensures MemoriesOf(journals, events)[|RequestsOf(events)|] == journals[|events|].memory
  {
    if events != [] {
      LastMemory(journals[..|events|], events[..|events| - 1]);
    }
  }

  lemma EventsNext(journals: seq<JournalData>, events: seq<Event>, e: Event, d: JournalData)
    requires |journals| == |events| + 1
    ensures RequestsOf(events + [e]) == RequestsOf(events) + if e.Asked? then [e.request] else []
    ensures MemoriesOf(journals + [d], events + [e])
         == MemoriesOf(journals, events) + if e.Asked? then [d.memory] else []
  {
    assert (events + [e])[..|events|] == events && (journals + [d])[..|journals|] == journals;
  }

  lemma ServedOther(journals: seq<JournalData>, events: seq<Event>, responses: seq<Response>, e: Event, d: JournalData)
    requires Served(journals, events, responses) && !e.Asked? && d.memory == journals[|events|].memory
    ensures Served(journals + [d], events + [e], responses)
  {
    EventsNext(journals, events, e, d);
  }

  lemma ServedRequest(journals: seq<JournalData>, events: seq<Event>, responses: seq<Response>, request: Request,
                      response: Response, d: JournalData)
    requires Served(journals, events, responses) && Keeps(journals[|events|], Asked(request), d)
    requires Handled(journals[|events|].memory, KeyOf(request), OutcomeOf(response), d.memory)
    ensures Served(journals + [d], events + [Asked(request)], responses + [response])
  {
    EventsNext(journals, events, Asked(request), d);
    LastMemory(journals, events);
    RunExtended(MemoriesOf(journals, events), Keys(RequestsOf(events)), Outcomes(responses), KeyOf(request),
                OutcomeOf(response), d.memory);
    assert Keys(RequestsOf(events) + [request]) == Keys(RequestsOf(events)) + [KeyOf(request)];
    assert Outcomes(responses + [response]) == Outcomes(responses) + [OutcomeOf(response)];
  }

  datatype Response = Done(journal: JournalData) | Refused(status: Status)

  function OutcomeOf(r: Response): Outcome {
    match r
    case Done(_) => Accepted
    case Refused(status) => Rejected(status)
  }

  /** The journal a client must have seen for its force to be accepted. */
  predicate FenceHolds(d: JournalData, request: ForceRequest) {
    && d.attemptId == request.expectedAttempt
    && d.revision == request.expectedRevision
    && BlockerSet(d.blockers) == BlockerSet(request.expectedBlockers)
  }

  /** Whenever the journal had the attempt and the revision the client saw, it was `d`. */
  ghost predicate SeenOnlyAs(writes: seq<JournalData>, request: ForceRequest, d: JournalData) {
    forall i :: 0 <= i < |writes| ==>
      writes[i].attemptId == request.expectedAttempt && writes[i].revision == request.expectedRevision ==>
        writes[i] == d
  }

  function ValidateForceFence(d: JournalData, request: ForceRequest): (r: Option<Status>)
    ensures r.None? <==> FenceHolds(d, request)
    ensures r.Some? ==> r.value.code == Aborted && r.value.message != LeaseViolated
  {
    if d.attemptId != request.expectedAttempt
      then Some(Status(Aborted, AttemptChanged(request.expectedAttempt, d.attemptId)))
    else if d.revision != request.expectedRevision
      then Some(Status(Aborted, StatusChanged(request.expectedRevision, d.revision)))
    else if BlockerSet(request.expectedBlockers) != BlockerSet(d.blockers) then Some(Status(Aborted, BlockersChanged))
    else None
  }

  /** What a finished check leaves: phase, blockers and failure agree with its verdict. */
  ghost predicate Settled(d: JournalData, activated: bool) {
    && (activated <==> d.phase == Activated)
    && d.phase in {Activated, Blocked, Failed}
    && (d.phase == Blocked ==> d.blockers != [])
    && (d.phase == Activated ==> d.blockers == [] && d.failure.None? && d.running.Some? && d.running.value.server.Some?)
    && (d.phase == Failed ==> d.failure.Some?)
  }

  /** `h` grew by one check of this trigger, with a verdict that says whether it activated. */
  ghost predicate OneCheck(h: seq<CheckRecord>, before: seq<CheckRecord>, trigger: CheckTrigger, activated: bool) {
    && |h| > 0
    && var last := h[|h| - 1];
       && h == Recorded(before, trigger, last.result, last.blockerCount, last.detail)
       && (last.result == CheckActivated <==> activated)
       && last.result != CheckCancelled
  }

  /** What a check of an attempt leaves of it. */
  ghost predicate Checked(d: JournalData, before: JournalData, trigger: CheckTrigger, activated: bool) {
    && Settled(d, activated)
    && d.attemptId == before.attemptId && d.memory == before.memory
    && OneCheck(d.history, before.history, trigger, activated)
  }

  /** The newest check on file, and what it left. */
  ghost predicate Filed(d: JournalData, trigger: CheckTrigger, phase: Phase, blockers: seq<Blocker>,
                        failure: Option<Failure>, result: CheckResult, detail: Message) {
    && d.phase == phase && d.blockers == blockers && d.failure == failure
    && |d.history| > 0
    && var last := d.history[|d.history| - 1];
       && last.trigger == trigger && last.result == result
       && last.blockerCount == |blockers| && last.detail == detail
  }

  /** A failure that may be retried: with blockers the attempt is blocked, and failed without any. */
  ghost predicate FiledRetryable(d: JournalData, trigger: CheckTrigger, blockers: seq<Blocker>, message: Message) {
    && (blockers != [] ==> d.phase == Blocked)
    && (blockers == [] ==> d.phase == Failed)
    && Filed(d, trigger, d.phase, blockers, Some(Failure(message, true)), CheckFailed, message)
  }

  /** What verifying the replacement service leaves. */
  ghost predicate FiledFinish(d: JournalData, trigger: CheckTrigger, f: FinishWorld) {
    if FinishVerifies(f) then Filed(d, trigger, Activated, [], None, CheckActivated, Note(Verified))
    else FiledRetryable(d, trigger, [], FinishFault(f))
  }

  /** What a restart leaves; one that fails, with the blockers found afterwards. */
  ghost predicate FiledRestart(d: JournalData, trigger: CheckTrigger, restart: Result<()>,
                               blockersAfter: Result<seq<Blocker>>, f: FinishWorld) {
    match restart
    case Ok(_) => FiledFinish(d, trigger, f)
    case Err(error) =>
      FiledRetryable(d, trigger, if blockersAfter.Ok? then blockersAfter.value else [], Detail(error))
  }

  /** What is left when nothing was restarted because blockers were found, or could not be. */
  ghost predicate FiledUnready(d: JournalData, before: seq<Blocker>, trigger: CheckTrigger,
                               found: Result<seq<Blocker>>) {
    match found
    case Ok(blockers) => Filed(d, trigger, Blocked, blockers, None, CheckBlocked, Note(WaitingForQuiescence))
    case Err(error) =>
      Filed(d, trigger, Failed, before, Some(Failure(Detail(error), true)), CheckFailed, Detail(error))
  }

  /** What a check files for a target that is recorded: by whether it runs, may be restarted, or must wait. */
  ghost predicate FiledTarget(d: JournalData, before: seq<Blocker>, trigger: CheckTrigger, runs: bool, w: CheckWorld) {
    if runs then Filed(d, trigger, Activated, [], None, CheckActivated, Note(AlreadyActive))
    else if Quiescent(w) then FiledRestart(d, trigger, w.restart, w.blockersAfter, w.finish)
    else FiledUnready(d, before, trigger, w.blockers)
  }

  /** What a check files: an executable that is not the recorded target ends the attempt for good. */
  ghost predicate FiledCheck(d: JournalData, before: JournalData, trigger: CheckTrigger, w: CheckWorld)
    requires w.installed.Ok?
  {
    if MatchesRecordedTarget(before.installed, w.installed.value) then
      FiledTarget(d, before.blockers, trigger, RunsTarget(before, w), w)
    else
      Filed(d, trigger, Failed, before.blockers, Some(Failure(ExecutableChanged, false)), CheckFailed,
            Note(IdentityChanged))
  }

  /** What a check finds out and leaves, from the journal with the service it found. */
  ghost predicate Judged(d: JournalData, before: JournalData, trigger: CheckTrigger, activated: bool, restarted: bool,
                         runs: bool, w: CheckWorld) {
    && Checked(d, before, trigger, activated)
    && FiledTarget(d, before.blockers, trigger, runs, w)
    && (restarted <==> !runs && Quiescent(w))
    && (activated <==> runs || (restarted && w.restart.Ok? && FinishVerifies(w.finish)))
    && d.installed == before.installed
    && d.running == if restarted && activated then w.finish.running else w.running
  }

  /** The journal of a check that found the executable to be the target, with the service it found. */
  ghost predicate Looked(d: JournalData, before: JournalData, w: CheckWorld)
    requires w.installed.Ok?
  {
    && d.installed == Adopted(before.installed, w.installed.value) && d.running == w.running
    && d.failure.None? && d.blockers == before.blockers
    && d.attemptId == before.attemptId && d.memory == before.memory && d.history == before.history
  }

  /** What a whole check leaves of a journal, restarted or not. */
  ghost predicate CheckVerdict(d: JournalData, before: JournalData, trigger: CheckTrigger, activated: bool,
                               restarted: bool, w: CheckWorld)
    requires w.installed.Ok?
  {
    && Checked(d, before, trigger, activated)
    && FiledCheck(d, before, trigger, w)
    && (restarted <==> Restarts(before, w))
    && (activated <==> Activates(before, w))
    && KeepsTarget(d, before, w)
  }

  lemma ChangedIsVerdict(before: JournalData, d: JournalData, trigger: CheckTrigger, w: CheckWorld)
    requires w.installed.Ok? && !MatchesRecordedTarget(before.installed, w.installed.value)
    requires d.installed == before.installed && d.running == before.running
    requires d.attemptId == before.attemptId && d.memory == before.memory
    requires OneCheck(d.history, before.history, trigger, false)
    requires Filed(d, trigger, Failed, before.blockers, Some(Failure(ExecutableChanged, false)), CheckFailed,
                   Note(IdentityChanged))
    ensures CheckVerdict(d, before, trigger, false, false, w)
  {
  }

  lemma JudgedIsVerdict(before: JournalData, found: JournalData, d: JournalData, trigger: CheckTrigger,
                        activated: bool, restarted: bool, w: CheckWorld)
    requires w.installed.Ok? && MatchesRecordedTarget(before.installed, w.installed.value) && Looked(found, before, w)
    requires Judged(d, found, trigger, activated, restarted,
                    w.running.Some? && RunningServiceHasBuild(w.running.value, found.installed), w)
    ensures CheckVerdict(d, before, trigger, activated, restarted, w)
  {
  }

  /** A force that was carried out is handled as its answer says. */
  lemma ForceHandled(before: JournalData, d: JournalData, key: string, r: Response, w: ForceWorld)
    requires key != "" && key !in before.memory.keys && CarriedOut(d, r, w)
    requires r.Done? ==> d.memory == Remembered(before.memory, key)
    requires r.Refused? ==>
               Rememberable(r.status.code) && d.memory == WithRejection(Remembered(before.memory, key), key, r.status)
    ensures Handled(before.memory, key, OutcomeOf(r), d.memory)
  {
  }

  /** The journal with the rejection of a force that was carried out. */
  lemma RejectedForce(d: JournalData, d': JournalData, w: ForceWorld)
    requires !(w.restart.Ok? && FinishVerifies(w.finish)) && Settled(d, false)
    requires FiledRestart(d, Forced, w.restart, w.blockersAfter, w.finish)
    requires d' == d.(revision := d'.revision, memory := d'.memory)
    ensures CarriedOut(d', Refused(ForceFault(w)), w)
  {
  }

  /** What a force that was carried out leaves, and how it is answered. */
  ghost predicate CarriedOut(d: JournalData, r: Response, w: ForceWorld) {
    && (r.Done? <==> w.restart.Ok? && FinishVerifies(w.finish))
    && (r.Done? ==> r.journal == d)
    && (r.Refused? ==> r.status == ForceFault(w))
    && Settled(d, r.Done?)
    && FiledRestart(d, Forced, w.restart, w.blockersAfter, w.finish)
  }

  lemma RecordedIsOneCheck(before: seq<CheckRecord>, trigger: CheckTrigger, result: CheckResult, blockers: nat,
                           detail: Message)
    requires result != CheckCancelled
    ensures OneCheck(Recorded(before, trigger, result, blockers, detail), before, trigger, result == CheckActivated)
  {
  }

  /** What an accepted recheck leaves of the journal that remembers its key. It is carried out exactly when the
      executable is known; otherwise its rejection is filed, and never that the journal changed under the lease. */
  ghost predicate Rechecked(before: JournalData, d: JournalData, key: string, r: Response, w: CheckWorld) {
    && (r.Done? <==> w.installed.Ok?)
    && (r.Done? ==> r.journal == d && Checked(d, before, Manual, Activates(before, w)) && KeepsTarget(d, before, w))
    && (r.Done? ==> FiledCheck(d, before, Manual, w))
    && (r.Refused? ==>
          && r.status == Status(Internal, Detail(w.installed.error))
          && d == before.(revision := d.revision, memory := WithRejection(before.memory, key, r.status)))
  }

  /** What a check decides does not depend on the revision of the journal it starts from. */
  lemma RecheckHandled(before: JournalData, written: JournalData, d: JournalData, key: string, r: Response,
                       w: CheckWorld)
    requires key != "" && key !in before.memory.keys && written == WithKey(before, key).(revision := written.revision)
    requires Rechecked(written, d, key, r, w)
    ensures Rechecked(WithKey(before, key), d, key, r, w)
    ensures Handled(before.memory, key, OutcomeOf(r), d.memory)
  {
  }

  /** The service observed is still the current one, runs the executable, and is the recorded target. */
  predicate Settles(saved: Option<JournalData>, installed: ExecutableIdentity, observed: RunningIdentity,
                    current: Option<RuntimeRecord>) {
    && RunningServiceHasBuild(observed, installed)
    && current == Some(observed.runtime)
    && saved.Some?
    && MatchesRecordedTarget(saved.value.installed, installed)
  }

  /** What observing the current service leaves: the service and its build, and an attempt that is settled
      when it was not before. */
  ghost predicate ObservedAs(before: JournalData, installed: ExecutableIdentity, observed: RunningIdentity,
                             d: JournalData) {
    && d.phase in {Current, Activated}
    && d.running == Some(observed)
    && SameBuild(d.installed, installed)
    && d.memory == before.memory && d.attemptId == before.attemptId
    && (before.phase !in {Current, Activated} ==> Settled(d, true))
  }

  predicate Terminal(phase: Phase) {
    phase in {Current, Activated, Cancelled}
  }

  predicate Continued(saved: Option<JournalData>, installed: ExecutableIdentity) {
    saved.Some? && MatchesRecordedTarget(saved.value.installed, installed)
  }

  /** A pending attempt for the executable is on file. */
  predicate Awaits(saved: Option<JournalData>, installed: ExecutableIdentity) {
    Continued(saved, installed) && !Terminal(saved.value.phase)
  }

  /** The journal written for a stale service, on from the attempt it continues or as a new one. */
  function ScheduledJournal(saved: Option<JournalData>, installed: ExecutableIdentity,
                            running: Option<RunningIdentity>, freshAttempt: string): JournalData {
    var from := if Continued(saved, installed) then saved.value else NewAttempt(freshAttempt, installed, running);
    from.(installed := installed, running := running, phase := InstalledPending,
          failure := Some(Failure(StaleServiceRecorded, true)), revision := Bumped(from.revision))
  }

  /** A stale service leaves a pending attempt for the executable. It is the old attempt, with its idempotency
      memory, exactly when the target is the same, and a fresh one that remembers nothing otherwise. */
  lemma ScheduledAwaits(saved: Option<JournalData>, installed: ExecutableIdentity, running: Option<RunningIdentity>,
                        freshAttempt: string)
    ensures Awaits(Some(ScheduledJournal(saved, installed, running, freshAttempt)), installed)
    ensures var d := ScheduledJournal(saved, installed, running, freshAttempt);
            d.failure.Some?
            && d.attemptId == (if Continued(saved, installed) then saved.value.attemptId else freshAttempt)
            && d.memory == (if Continued(saved, installed) then saved.value.memory else Memory([], []))
            && d.phase == InstalledPending && d.installed == installed && d.running == running
            && d.failure == Some(Failure(StaleServiceRecorded, true))
            && d.history == (if Continued(saved, installed) then saved.value.history else [])
            && d.blockers == (if Continued(saved, installed) then saved.value.blockers else [])
  {
  }

  class ActivationFile {
    var saved: Option<JournalData>
    ghost var writes: seq<JournalData>

    ghost predicate Valid()
      reads this
    {
      && (saved.None? ==> writes == [])
      && (saved.Some? ==> |writes| > 0 && writes[|writes| - 1] == saved.value && JournalSound(saved.value))
      && Ordered(writes)
    }

    constructor ()
      ensures Valid() && saved.None? && writes == []
    {
      saved, writes := None, [];
    }

    method ReadRequired() returns (journal: Journal)
      requires saved.Some?
      ensures fresh(journal) && journal.View() == saved.value
    {
      journal := new Journal.Of(saved.value);
    }

    /** The journal continues what is stored, or starts an attempt nobody wrote before. */
    ghost predicate Continues(d: JournalData)
      reads this
    {
      || (saved.Some? && d.attemptId == saved.value.attemptId && d.revision == saved.value.revision)
      || (forall i :: 0 <= i < |writes| ==> writes[i].attemptId != d.attemptId)
    }

    method Write(journal: Journal)
      requires Valid() && Continues(journal.View()) && JournalSound(journal.View())
      modifies this, journal`revision
      ensures Valid() && saved == Some(old(journal.View()).(revision := Bumped(old(journal.revision))))
      ensures journal.View() == saved.value
      ensures writes == old(writes) + [saved.value]
    {
      journal.revision := Bumped(journal.revision);
      saved := Some(journal.Data());
      WriteOrdered(writes, journal.View());
      writes := writes + [journal.View()];
    }

    /** Adds a check to the history and writes the journal. */
    method RecordAndWrite(journal: Journal, trigger: CheckTrigger, result: CheckResult, detail: Message)
      requires Valid() && Continues(journal.View()) && JournalSound(journal.View())
      modifies this, journal`history, journal`revision
      ensures Valid() && saved.Some? && writes == old(writes) + [saved.value]
      ensures saved == Some(old(journal.View()).(
                revision := Bumped(old(journal.revision)),
                history := Recorded(old(journal.history), trigger, result, |old(journal.blockers)|, detail)))
      ensures result != CheckCancelled ==>
                OneCheck(saved.value.history, old(journal.history), trigger, result == CheckActivated)
      ensures Filed(saved.value, trigger, old(journal.phase), old(journal.blockers), old(journal.failure), result,
                    detail)
    {
      RecordedSound(journal.history, trigger, result, |journal.blockers|, detail);
      if result != CheckCancelled {
        RecordedIsOneCheck(journal.history, trigger, result, |journal.blockers|, detail);
      }
      journal.Record(trigger, result, detail);
      Write(journal);
    }

    /** Files a failure that may be retried, with the blockers found meanwhile. */
    method RecordRetryableFailure(trigger: CheckTrigger, blockers: seq<Blocker>, message: Message)
      returns (activated: bool)
      requires Valid() && saved.Some?
      modifies this
      ensures Valid() && saved.Some? && !activated && Checked(saved.value, old(saved.value), trigger, false)
      ensures FiledRetryable(saved.value, trigger, blockers, message)
      ensures saved.value.installed == old(saved.value.installed) && saved.value.running == old(saved.value.running)
      ensures writes == old(writes) + [saved.value]
    {
      var journal := ReadRequired();
      journal.blockers := blockers;
      journal.phase := if blockers == [] then Failed else Blocked;
      journal.failure := Some(Failure(message, true));
      RecordAndWrite(journal, trigger, CheckFailed, message);
      activated := false;
    }

    /** Verifies the replacement service, or files why it could not be verified. */
    method FinishActivation(trigger: CheckTrigger, f: FinishWorld) returns (activated: bool)
      requires Valid() && saved.Some?
      modifies this
      ensures Valid() && saved.Some? && (activated <==> FinishVerifies(f))
              && Checked(saved.value, old(saved.value), trigger, activated)
      ensures FiledFinish(saved.value, trigger, f)
      ensures saved.value.installed == old(saved.value.installed)
      ensures saved.value.running == if activated then f.running else old(saved.value.running)
      ensures writes == old(writes) + [saved.value]
    {
      if f.apiReady.Err? {
        activated := RecordRetryableFailure(trigger, [], Detail(f.apiReady.error));
      } else if f.expected.Err? {
        activated := RecordRetryableFailure(trigger, [], Detail(f.expected.error));
      } else if f.running.None? || !RunningServiceHasBuild(f.running.value, f.expected.value) {
        activated := RecordRetryableFailure(trigger, [], UnexpectedIdentity);
      } else {
        var journal := ReadRequired();
        journal.running := f.running;
        journal.phase := Activated;
        journal.blockers := [];
        journal.failure := None;
        RecordAndWrite(journal, trigger, CheckActivated, Note(Verified));
        activated := true;
      }
    }

    method ActivateQuiescentService(trigger: CheckTrigger, w: CheckWorld) returns (activated: bool)
      requires Valid() && saved.Some?
      modifies this
      ensures Valid() && saved.Some? && (activated <==> w.restart.Ok? && FinishVerifies(w.finish))
      ensures Checked(saved.value, old(saved.value), trigger, activated)
      ensures FiledRestart(saved.value, trigger, w.restart, w.blockersAfter, w.finish)
      ensures saved.value.installed == old(saved.value.installed)
      ensures saved.value.running == if activated then w.finish.running else old(saved.value.running)
      ensures writes == old(writes) + [saved.value]
    {
      if w.restart.Ok? {
        activated := FinishActivation(trigger, w.finish);
      } else {
        var blockers := if w.blockersAfter.Ok? then w.blockersAfter.value else [];
        activated := RecordRetryableFailure(trigger, blockers, Detail(w.restart.error));
      }
    }

    /** The service does not run the target: restart it at quiescence, or file what blocks. */
    method DecideRestart(journal: Journal, trigger: CheckTrigger, w: CheckWorld)
      returns (activated: bool, restarted: bool)
      requires Valid() && saved.Some? && Continues(journal.View()) && JournalSound(journal.View())
      requires journal.failure.None? && journal.running == w.running
      modifies this, journal
      ensures Valid() && saved.Some? && old(writes) < writes
      ensures Judged(saved.value, old(journal.View()), trigger, activated, restarted, false, w)
    {
      var reachable := journal.running.Some? && journal.running.value.server.Some?;
      restarted := (!reachable && !w.lifecycleLive && w.ownerDisproven) || w.blockers == Ok([]);
      if restarted {
        activated := RestartTarget(journal, trigger, w);
      } else {
        FileUnready(journal, trigger, w.blockers);
        activated := false;
      }
    }

    /** Writes that the attempt is activating, and restarts the service. */
    method RestartTarget(journal: Journal, trigger: CheckTrigger, w: CheckWorld) returns (activated: bool)
      requires Valid() && saved.Some? && Continues(journal.View()) && JournalSound(journal.View())
      requires Quiescent(w) && journal.running == w.running
      modifies this, journal
      ensures Valid() && saved.Some? && old(writes) < writes
      ensures Judged(saved.value, old(journal.View()), trigger, activated, true, false, w)
    {
      journal.phase := Activating;
      journal.blockers := [];
      Write(journal);
      activated := ActivateQuiescentService(trigger, w);
    }

    /** Files the blockers found, or that they could not be found. */
    method FileUnready(journal: Journal, trigger: CheckTrigger, found: Result<seq<Blocker>>)
      requires Valid() && saved.Some? && Continues(journal.View()) && JournalSound(journal.View())
      requires found != Ok([]) && journal.failure.None?
      modifies this, journal
      ensures Valid() && saved.Some? && writes == old(writes) + [saved.value]
      ensures Checked(saved.value, old(journal.View()), trigger, false)
      ensures FiledUnready(saved.value, old(journal.blockers), trigger, found)
      ensures saved.value.installed == old(journal.installed) && saved.value.running == old(journal.running)
    {
      match found {
        case Ok(blockers) => FileBlocked(journal, trigger, blockers);
        case Err(error) => FileUnknown(journal, trigger, error);
      }
    }

    /** Files the blockers that were found. */
    method FileBlocked(journal: Journal, trigger: CheckTrigger, found: seq<Blocker>)
      requires Valid() && saved.Some? && Continues(journal.View()) && JournalSound(journal.View())
      requires found != [] && journal.failure.None?
      modifies this, journal
      ensures Valid() && saved.Some? && writes == old(writes) + [saved.value]
      ensures Checked(saved.value, old(journal.View()), trigger, false)
      ensures Filed(saved.value, trigger, Blocked, found, None, CheckBlocked, Note(WaitingForQuiescence))
      ensures saved.value.installed == old(journal.installed) && saved.value.running == old(journal.running)
    {
      journal.phase := Blocked;
      journal.blockers := found;
      RecordAndWrite(journal, trigger, CheckBlocked, Note(WaitingForQuiescence));
    }

    /** Files that the blockers could not be found. */
    method FileUnknown(journal: Journal, trigger: CheckTrigger, error: string)
      requires Valid() && saved.Some? && Continues(journal.View()) && JournalSound(journal.View())
      modifies this, journal
      ensures Valid() && saved.Some? && writes == old(writes) + [saved.value]
      ensures Checked(saved.value, old(journal.View()), trigger, false)
      ensures Filed(saved.value, trigger, Failed, old(journal.blockers), Some(Failure(Detail(error), true)),
                    CheckFailed, Detail(error))
      ensures saved.value.installed == old(journal.installed) && saved.value.running == old(journal.running)
    {
      journal.phase := Failed;
      journal.failure := Some(Failure(Detail(error), true));
      RecordAndWrite(journal, trigger, CheckFailed, Detail(error));
    }

    /** One check under the lease. A restart is attempted only at quiescence and only for the recorded
        target, and the verdict is `activated` exactly when the target runs, now or after the restart. */
    method CheckOnceFenced(trigger: CheckTrigger, w: CheckWorld) returns (r: Result<bool>, restarted: bool)
      requires Valid() && saved.Some?
      modifies this
      ensures Valid() && saved.Some? && old(writes) <= writes
      ensures r.Err? <==> w.installed.Err?
      ensures r.Err? ==> r.error == w.installed.error && saved == old(saved) && !restarted
      ensures r.Ok? ==> CheckVerdict(saved.value, old(saved.value), trigger, r.value, restarted, w)
      ensures r.Ok? ==> old(writes) < writes
    {
      restarted := false;
      if w.installed.Err? {
        return Err(w.installed.error), false;
      }
      var activated := false;
      var journal := ReadRequired();
      if !MatchesRecordedTarget(journal.installed, w.installed.value) {
        FailChangedExecutable(journal, trigger, w);
      } else {
        activated, restarted := CheckTarget(journal, trigger, w);
      }
      r := Ok(activated);
    }

    /** The executable is not the recorded target: the attempt failed for good. */
    method FailChangedExecutable(journal: Journal, trigger: CheckTrigger, w: CheckWorld)
      requires Valid() && saved == Some(journal.View())
      requires w.installed.Ok? && !MatchesRecordedTarget(journal.installed, w.installed.value)
      modifies this, journal
      ensures Valid() && saved.Some? && old(writes) < writes
      ensures CheckVerdict(saved.value, old(saved.value), trigger, false, false, w)
    {
      journal.phase := Failed;
      journal.failure := Some(Failure(ExecutableChanged, false));
      RecordAndWrite(journal, trigger, CheckFailed, Note(IdentityChanged));
      ChangedIsVerdict(old(saved.value), saved.value, trigger, w);
    }

    /** The executable is the recorded target: activated when it runs already. */
    method CheckTarget(journal: Journal, trigger: CheckTrigger, w: CheckWorld)
      returns (activated: bool, restarted: bool)
      requires Valid() && saved == Some(journal.View())
      requires w.installed.Ok? && MatchesRecordedTarget(journal.installed, w.installed.value)
      modifies this, journal
      ensures Valid() && saved.Some? && old(writes) < writes
      ensures CheckVerdict(saved.value, old(saved.value), trigger, activated, restarted, w)
    {
      ghost var before := saved.value;
      BeginCheck(journal, w);
      ghost var found := journal.View();
      activated, restarted := JudgeRunning(journal, trigger, w);
      JudgedIsVerdict(before, found, saved.value, trigger, activated, restarted, w);
    }

    /** Writes that the check runs, and looks for the service. */
    method BeginCheck(journal: Journal, w: CheckWorld)
      requires Valid() && saved == Some(journal.View()) && w.installed.Ok?
      modifies this, journal
      ensures Valid() && saved.Some? && old(writes) < writes && saved.value.phase == Checking
      ensures Continues(journal.View()) && JournalSound(journal.View())
      ensures Looked(journal.View(), old(saved.value), w)
    {
      journal.installed := Adopted(journal.installed, w.installed.value);
      journal.phase := Checking;
      journal.failure := None;
      Write(journal);
      journal.running := w.running;
    }

    method JudgeRunning(journal: Journal, trigger: CheckTrigger, w: CheckWorld)
      returns (activated: bool, restarted: bool)
      requires Valid() && saved.Some? && Continues(journal.View()) && JournalSound(journal.View())
      requires journal.failure.None? && journal.running == w.running
      modifies this, journal
      ensures Valid() && saved.Some? && old(writes) < writes
      ensures Judged(saved.value, old(journal.View()), trigger, activated, restarted,
                     w.running.Some? && RunningServiceHasBuild(w.running.value, old(journal.installed)), w)
    {
      if journal.running.Some? && RunningServiceHasBuild(journal.running.value, journal.installed) {
        journal.phase := Activated;
        journal.blockers := [];
        RecordAndWrite(journal, trigger, CheckActivated, Note(AlreadyActive));
        activated, restarted := true, false;
      } else {
        activated, restarted := DecideRestart(journal, trigger, w);
      }
    }

    /** Files the rejection of an accepted request; false would mean the journal changed under the lease. */
    method PersistAcceptedExecutionRejection(key: string, status: Status) returns (persisted: bool)
      requires Valid() && saved.Some? && Rememberable(status.code)
      requires key != "" && key in saved.value.memory.keys && FindRejection(saved.value.memory.rejections, key).None?
      modifies this
      ensures Valid() && saved.Some? && persisted && writes == old(writes) + [saved.value]
      ensures saved == Some(old(saved.value).(
                revision := Bumped(old(saved.value).revision),
                memory := WithRejection(old(saved.value).memory, key, status)))
    {
      var journal := ReadRequired();
      persisted := journal.RememberAcceptedIdempotencyRejection(key, status);
      if !persisted {
        return;
      }
      RejectionSound(saved.value.memory, key, status);
      Write(journal);
    }

    /** A recheck requested by a client. */
    method ManualRecheck(key: string, w: CheckWorld) returns (r: Response)
      requires Valid()
      modifies this
      ensures Valid() && old(writes) <= writes
      ensures old(saved).None? ==> r == Refused(Status(FailedPrecondition, NoActivationPending)) && saved == old(saved)
      ensures old(saved).Some? ==>
                && saved.Some?
                && Handled(old(saved).value.memory, key, OutcomeOf(r), saved.value.memory)
                && (key == "" || key in old(saved).value.memory.keys ==> saved == old(saved))
                && (r.Done? ==> r.journal == saved.value)
                && (key != "" && key !in old(saved).value.memory.keys ==>
                      Rechecked(WithKey(old(saved).value, key), saved.value, key, r, w))
    {
      if saved.None? {
        return Refused(Status(FailedPrecondition, NoActivationPending));
      }
      var journal := ReadRequired();
      if key == "" {
        return Refused(Status(InvalidArgument, EmptyKey));
      }
      if key in journal.idempotencyKeys {
        var replay := Replay(Memory(journal.idempotencyKeys, journal.idempotencyRejections), key);
        return if replay.Accepted? then Done(journal.Data()) else Refused(replay.status);
      }
      r := AcceptRecheck(journal, key, w);
    }

    /** An accepted recheck is remembered before its check, and rejected only when the executable is unknown. */
    method AcceptRecheck(journal: Journal, key: string, w: CheckWorld) returns (r: Response)
      requires Valid() && saved == Some(journal.View()) && key != "" && key !in journal.idempotencyKeys
      modifies this, journal
      ensures Valid() && saved.Some? && old(writes) <= writes
      ensures Handled(old(saved).value.memory, key, OutcomeOf(r), saved.value.memory)
      ensures Rechecked(WithKey(old(saved).value, key), saved.value, key, r, w)
    {
      RememberedSound(journal.View().memory, key);
      var added := journal.RememberIdempotencyKey(key);
      if !added {
        return Refused(Status(Internal, LeaseViolated));
      }
      Write(journal);
      ghost var written := saved.value;
      r := CheckRemembered(key, w);
      RecheckHandled(old(saved).value, written, saved.value, key, r, w);
    }

    /** The check of a remembered recheck. */
    method CheckRemembered(key: string, w: CheckWorld) returns (r: Response)
      requires Valid() && saved.Some?
      requires key != "" && key in saved.value.memory.keys && FindRejection(saved.value.memory.rejections, key).None?
      modifies this
      ensures Valid() && saved.Some? && old(writes) <= writes
      ensures Rechecked(old(saved).value, saved.value, key, r, w)
    {
      var checked, _ := CheckOnceFenced(Manual, w);
      if checked.Err? {
        var rejection := Status(Internal, Detail(checked.error));
        var persisted := PersistAcceptedExecutionRejection(key, rejection);
        return Refused(if persisted then rejection else Status(Internal, LeaseViolated));
      }
      return Done(saved.value);
    }

    /** A rejected force is recorded with its reason. */
    method RejectForce(journal: Journal, key: string, status: Status) returns (r: Response)
      requires Valid() && saved == Some(journal.View())
      requires key != "" && key !in journal.idempotencyKeys && Rememberable(status.code)
      modifies this, journal
      ensures Valid() && saved.Some? && r == Refused(status) && old(writes) <= writes
      ensures saved.value.memory == After(old(saved.value).memory, key, Rejected(status))
      ensures saved.value.attemptId == old(saved.value).attemptId
      ensures Filed(saved.value, Forced, old(saved.value).phase, old(saved.value).blockers, old(saved.value).failure,
                    CheckCancelled, status.message)
    {
      RecordedSound(journal.history, Forced, CheckCancelled, |journal.blockers|, status.message);
      journal.Record(Forced, CheckCancelled, status.message);
      HandledRemembers(journal.View().memory, key, Rejected(status),
                       After(journal.View().memory, key, Rejected(status)));
      var added := journal.RememberIdempotencyRejection(key, status);
      if !added {
        return Refused(Status(Internal, LeaseViolated));
      }
      Write(journal);
      return Refused(status);
    }

    /** A conditional force: it restarts the service exactly when the key is new, the service supports it
        and the journal is the one the client saw, and then with the journal's own blocker set. */
    method ForceActivate(request: ForceRequest, w: ForceWorld)
      returns (r: Response, restartedWith: Option<set<(string, nat)>>)
      requires Valid()
      modifies this
      ensures Valid() && old(writes) <= writes
      ensures old(saved).None? ==> r == Refused(Status(FailedPrecondition, NoActivationPending)) && saved == old(saved)
      ensures old(saved).Some? ==>
                && saved.Some?
                && Handled(old(saved).value.memory, request.key, OutcomeOf(r), saved.value.memory)
                && (request.key == "" || request.key in old(saved).value.memory.keys ==> saved == old(saved))
                && (request.key !in old(saved).value.memory.keys ==> r != Refused(Status(Internal, LeaseViolated)))
                && (r.Done? ==> r.journal == saved.value)
      ensures old(saved).Some? && request.key != "" && request.key !in old(saved).value.memory.keys
              && !SupportsForce(old(saved).value.running) ==>
                r == Refused(Status(Unimplemented, NoConditionalForce))
      ensures old(saved).Some? && request.key != "" && request.key !in old(saved).value.memory.keys
              && SupportsForce(old(saved).value.running) && !FenceHolds(old(saved).value, request) ==>
                r.Refused? && r.status.code == Aborted && saved.value.phase == old(saved).value.phase
      ensures restartedWith.Some? <==>
                && old(saved).Some? && request.key != "" && request.key !in old(saved).value.memory.keys
                && SupportsForce(old(saved).value.running) && FenceHolds(old(saved).value, request)
      ensures restartedWith.Some? ==>
                && restartedWith.value == BlockerSet(old(saved).value.blockers)
                && |writes| > |old(writes)| + 1 && writes[|old(writes)|].phase == Forcing
                && CarriedOut(saved.value, r, w)
      ensures restartedWith.Some? && request.expectedRevision < MAX_REVISION ==>
                SeenOnlyAs(old(writes), request, old(saved).value)
    {
      restartedWith := None;
      if saved.None? {
        return Refused(Status(FailedPrecondition, NoActivationPending)), None;
      }
      var journal := ReadRequired();
      if request.key == "" {
        return Refused(Status(InvalidArgument, EmptyKey)), None;
      }
      if request.key in journal.idempotencyKeys {
        var replay := Replay(Memory(journal.idempotencyKeys, journal.idempotencyRejections), request.key);
        return if replay.Accepted? then Done(journal.Data()) else Refused(replay.status), None;
      }
      if !SupportsForce(journal.running) {
        r := RejectForce(journal, request.key, Status(Unimplemented, NoConditionalForce));
        return r, None;
      }
      var refusal := ValidateForceFence(journal.Data(), request);
      if refusal.Some? {
        r := RejectForce(journal, request.key, refusal.value);
        return r, None;
      }
      forall i | && 0 <= i < |writes| && writes[i].attemptId == request.expectedAttempt
                 && writes[i].revision == request.expectedRevision
        ensures request.expectedRevision < MAX_REVISION ==> writes[i] == saved.value
      {
        if request.expectedRevision < MAX_REVISION {
          ObservedIsCurrent(writes, i, request.expectedAttempt, request.expectedRevision);
        }
      }
      restartedWith := Some(BlockerSet(request.expectedBlockers));
      r := AcceptForce(journal, request.key, w);
    }

    /** An accepted force is remembered and written as forcing before the restart. */
    method AcceptForce(journal: Journal, key: string, w: ForceWorld) returns (r: Response)
      requires Valid() && saved == Some(journal.View()) && key != "" && key !in journal.idempotencyKeys
      modifies this, journal
      ensures Valid() && saved.Some? && old(writes) <= writes
      ensures |writes| > |old(writes)| + 1 && writes[|old(writes)|].phase == Forcing
      ensures Handled(old(saved).value.memory, key, OutcomeOf(r), saved.value.memory)
      ensures CarriedOut(saved.value, r, w)
    {
      RememberForce(journal, key);
      r := PerformConditionalForce(key, w);
      ForceHandled(old(saved.value), saved.value, key, r, w);
    }

    /** Writes that the attempt is forcing, with the key remembered. */
    method RememberForce(journal: Journal, key: string)
      requires Valid() && saved == Some(journal.View()) && key != "" && key !in journal.idempotencyKeys
      modifies this, journal
      ensures Valid() && saved.Some? && writes == old(writes) + [saved.value] && saved.value.phase == Forcing
      ensures saved.value.memory == Remembered(old(saved.value).memory, key) && key in saved.value.memory.keys
      ensures FindRejection(saved.value.memory.rejections, key).None?
    {
      RememberedSound(journal.View().memory, key);
      var added := journal.RememberIdempotencyKey(key);
      assert added;
      journal.phase := Forcing;
      journal.failure := None;
      Write(journal);
    }

    method PerformConditionalForce(key: string, w: ForceWorld) returns (r: Response)
      requires Valid() && saved.Some?
      requires key != "" && key in saved.value.memory.keys && FindRejection(saved.value.memory.rejections, key).None?
      modifies this
      ensures Valid() && saved.Some? && old(writes) <= writes && |writes| > |old(writes)|
      ensures CarriedOut(saved.value, r, w)
      ensures r.Done? ==> saved.value.memory == old(saved.value).memory
      ensures r.Refused? ==>
                Rememberable(r.status.code)
                && saved.value.memory == WithRejection(old(saved.value).memory, key, r.status)
    {
      var activated, rejection := RestartForced(w);
      if activated {
        return Done(saved.value);
      }
      ghost var failed := saved.value;
      var persisted := PersistAcceptedExecutionRejection(key, rejection);
      RejectedForce(failed, saved.value, w);
      return Refused(if persisted then rejection else Status(Internal, LeaseViolated));
    }

    /** The restart of a force, and the rejection when it did not verify. */
    method RestartForced(w: ForceWorld) returns (activated: bool, rejection: Status)
      requires Valid() && saved.Some?
      modifies this
      ensures Valid() && saved.Some? && old(writes) < writes && Settled(saved.value, activated)
      ensures saved.value.memory == old(saved.value).memory
      ensures activated <==> w.restart.Ok? && FinishVerifies(w.finish)
      ensures !activated ==> rejection == ForceFault(w)
      ensures FiledRestart(saved.value, Forced, w.restart, w.blockersAfter, w.finish)
    {
      if w.restart.Ok? {
        activated := FinishActivation(Forced, w.finish);
        var failure := saved.value.failure;
        rejection := Status(Unavailable, if failure.Some? then failure.value.message else Unverified);
      } else {
        var blockers := if w.blockersAfter.Ok? then w.blockersAfter.value else [];
        activated := RecordRetryableFailure(Forced, blockers, Detail(w.restart.error));
        rejection := Status(Aborted, Detail(w.restart.error));
      }
    }

    /** One live request. */
    method Handle(request: Request) returns (response: Response)
      requires Valid() && saved.Some?
      modifies this
      ensures Valid() && saved.Some? && old(writes) <= writes
      ensures Handled(old(saved).value.memory, KeyOf(request), OutcomeOf(response), saved.value.memory)
      ensures KeyOf(request) == "" || KeyOf(request) in old(saved).value.memory.keys ==> saved == old(saved)
    {
      match request {
        case Recheck(key, w) => response := ManualRecheck(key, w);
        case Force(force, w) => var r, _ := ForceActivate(force, w); response := r;
      }
    }

    /** One event that is no request. */
    method React(e: Event)
      requires Valid() && saved.Some? && !e.Asked?
      modifies this
      ensures Valid() && saved.Some? && old(writes) <= writes
      ensures saved.value.memory == old(saved).value.memory && saved.value.attemptId == old(saved).value.attemptId
    {
      match e {
        case CheckDue(w) => var _, _ := CheckOnceFenced(Scheduled, w);
        case HelperStarted => var _ := InstallHelperIdentity();
        case ServiceFound(installed, observed, current) => ObserveCurrentService(installed, observed, current);
        case Rescheduled(running) =>
          SameBuildIsEquivalence(saved.value.installed, saved.value.installed, saved.value.installed);
          ScheduleDeferredActivation(saved.value.installed, running, saved.value.attemptId);
      }
    }

    /** Whatever happens to an attempt, its live requests are a run of the idempotency memory, so what holds of
        every run holds of the handlers, with checks, helpers and observations in between. */
    method Serve(events: seq<Event>) returns (responses: seq<Response>, ghost journals: seq<JournalData>)
      requires Valid() && saved.Some?
      modifies this
      ensures Valid() && saved.Some? && Served(journals, events, responses)
      ensures journals[0] == old(saved).value && journals[|events|] == saved.value
    {
      responses, journals := [], [saved.value];
      for i := 0 to |events|
        invariant Valid() && saved.Some? && Served(journals, events[..i], responses)
        invariant journals[0] == old(saved).value && journals[i] == saved.value
      {
        assert events[..i + 1] == events[..i] + [events[i]];
        if events[i].Asked? {
          var response := Handle(events[i].request);
          ServedRequest(journals, events[..i], responses, events[i].request, response, saved.value);
          responses := responses + [response];
        } else {
          React(events[i]);
          ServedOther(journals, events[..i], responses, events[i], saved.value);
        }
        journals := journals + [saved.value];
      }
      assert events[..|events|] == events;
    }

    // ----- requests still queued when activation ended

    /** A queued recheck finds the activation done. Unlike the live handlers this looks at the phase
        before the key, so a remembered key replays exactly when the journal is activated. */
    method CompleteTerminalRecheck(key: string) returns (r: Response)
      requires Valid() && saved.Some?
      modifies this
      ensures Valid() && saved.Some? && old(writes) <= writes
      ensures old(saved.value.phase) != Activated ==>
                r == Refused(Status(Unavailable, ActivationNotTerminal)) && saved == old(saved)
      ensures old(saved.value.phase) == Activated ==>
                && Handled(old(saved.value).memory, key, OutcomeOf(r), saved.value.memory)
                && (key == "" || key in old(saved.value).memory.keys ==> saved == old(saved))
                && (key != "" && key !in old(saved.value).memory.keys ==> r.Done?)
                && saved.value.phase == Activated
    {
      if saved.value.phase != Activated {
        return Refused(Status(Unavailable, ActivationNotTerminal));
      }
      var journal := ReadRequired();
      if key == "" {
        return Refused(Status(InvalidArgument, EmptyKey));
      }
      if key in journal.idempotencyKeys {
        var replay := Replay(Memory(journal.idempotencyKeys, journal.idempotencyRejections), key);
        return if replay.Accepted? then Done(journal.Data()) else Refused(replay.status);
      }
      r := AcceptTerminal(journal, key, Manual, Note(QueuedRecheck));
    }

    /** A queued force finds the activation done: it is validated like a live one, but restarts nothing. */
    method CompleteTerminalForce(request: ForceRequest) returns (r: Response)
      requires Valid() && saved.Some?
      modifies this
      ensures Valid() && saved.Some? && old(writes) <= writes
      ensures old(saved.value.phase) != Activated ==>
                r == Refused(Status(Unavailable, ActivationNotTerminal)) && saved == old(saved)
      ensures old(saved.value.phase) == Activated ==>
                && Handled(old(saved.value).memory, request.key, OutcomeOf(r), saved.value.memory)
                && (request.key == "" || request.key in old(saved.value).memory.keys ==> saved == old(saved))
                && (request.key != "" && request.key !in old(saved.value).memory.keys ==>
                      (r.Done? <==> SupportsForce(old(saved.value).running) && FenceHolds(old(saved.value), request)))
                && saved.value.phase == Activated
    {
      if saved.value.phase != Activated {
        return Refused(Status(Unavailable, ActivationNotTerminal));
      }
      var journal := ReadRequired();
      if request.key == "" {
        return Refused(Status(InvalidArgument, EmptyKey));
      }
      if request.key in journal.idempotencyKeys {
        var replay := Replay(Memory(journal.idempotencyKeys, journal.idempotencyRejections), request.key);
        return if replay.Accepted? then Done(journal.Data()) else Refused(replay.status);
      }
      var refusal := if !SupportsForce(journal.running) then Some(Status(Unimplemented, NoConditionalForce))
                     else ValidateForceFence(journal.Data(), request);
      if refusal.Some? {
        r := RejectForce(journal, request.key, refusal.value);
      } else {
        r := AcceptTerminal(journal, request.key, Forced, Note(QueuedForce));
      }
    }

    method AcceptTerminal(journal: Journal, key: string, trigger: CheckTrigger, detail: Message) returns (r: Response)
      requires Valid() && saved == Some(journal.View()) && key != "" && key !in journal.idempotencyKeys
      modifies this, journal
      ensures Valid() && saved.Some? && r == Done(saved.value) && old(writes) <= writes
      ensures saved.value.memory == Remembered(old(saved.value).memory, key)
      ensures Filed(saved.value, trigger, old(saved.value).phase, old(saved.value).blockers, old(saved.value).failure,
                    CheckActivated, detail)
    {
      RememberedSound(journal.View().memory, key);
      var added := journal.RememberIdempotencyKey(key);
      assert added;
      RecordAndWrite(journal, trigger, CheckActivated, detail);
      return Done(saved.value);
    }

    // ----- the other writers

    /** Records a stale service. An attempt for the same target goes on, and a pending one is not even
        written; any other target starts a new attempt under a fresh identity. */
    method ScheduleDeferredActivation(installed: ExecutableIdentity, running: Option<RunningIdentity>,
                                      freshAttempt: string)
      requires Valid()
      requires Continued(saved, installed) || forall i :: 0 <= i < |writes| ==> writes[i].attemptId != freshAttempt
      modifies this
      ensures Valid() && old(writes) <= writes
      ensures saved == if || (running.Some? && RunningServiceHasBuild(running.value, installed))
                          || Awaits(old(saved), installed)
                       then old(saved)
                       else Some(ScheduledJournal(old(saved), installed, running, freshAttempt))
    {
      if running.Some? && RunningServiceHasBuild(running.value, installed) {
        return;
      }
      var existing := saved.Some? && MatchesRecordedTarget(saved.value.installed, installed);
      var journal := new Journal.Of(if existing then saved.value else NewAttempt(freshAttempt, installed, running));
      journal.installed := installed;
      journal.running := running;
      if !existing || Terminal(journal.phase) {
        journal.phase := InstalledPending;
        journal.failure := Some(Failure(StaleServiceRecorded, true));
        Write(journal);
      }
    }

    /** A new helper takes the journal over; note that it clears the failure of a failed attempt. */
    method InstallHelperIdentity() returns (installed: bool)
      requires Valid()
      modifies this
      ensures Valid() && old(writes) <= writes && (installed <==> old(saved).Some?)
      ensures installed ==>
                saved == Some(old(saved).value.(failure := None, revision := Bumped(old(saved).value.revision)))
      ensures !installed ==> saved == old(saved)
    {
      if saved.None? {
        return false;
      }
      var journal := ReadRequired();
      journal.failure := None;
      Write(journal);
      return true;
    }

    /** Endpoint discovery proved which service runs: a pending attempt for that build is settled. */
    method ObserveCurrentService(installed: ExecutableIdentity, observed: RunningIdentity,
                                 current: Option<RuntimeRecord>)
      requires Valid()
      modifies this
      ensures Valid() && old(writes) <= writes
      ensures !Settles(old(saved), installed, observed, current) ==> saved == old(saved)
      ensures Settles(old(saved), installed, observed, current) ==>
                saved.Some? && ObservedAs(old(saved).value, installed, observed, saved.value)
    {
      if observed.server.None? || !RuntimeMatchesCli(Some(observed.runtime), installed, observed.server)
         || current != Some(observed.runtime) || saved.None? {
        return;
      }
      var journal := ReadRequired();
      if !MatchesRecordedTarget(journal.installed, installed) {
        return;
      }
      RecordObserved(journal, installed, observed);
    }

    /** Settles a pending attempt; a settled one is only written when the identities on it changed. */
    method RecordObserved(journal: Journal, installed: ExecutableIdentity, observed: RunningIdentity)
      requires Valid() && saved == Some(journal.View()) && observed.server.Some?
               && MatchesRecordedTarget(journal.installed, installed)
      modifies this, journal
      ensures Valid() && saved.Some? && old(writes) <= writes
      ensures ObservedAs(old(saved).value, installed, observed, saved.value)
    {
      AdoptedTargetIsSameBuild(journal.installed, installed, installed);
      var upgraded := journal.installed.buildRevision.None? && installed.buildRevision.Some?;
      journal.installed := Adopted(journal.installed, installed);
      var changed := journal.running != Some(observed);
      if journal.phase !in {Current, Activated} {
        journal.phase := Activated;
        journal.running := Some(observed);
        journal.blockers := [];
        journal.failure := None;
        RecordAndWrite(journal, Recovered, CheckActivated, Note(Observed));
      } else if upgraded || changed {
        journal.running := Some(observed);
        Write(journal);
      }
    }
  }

  lemma WriteOrdered(writes: seq<JournalData>, d: JournalData)
    requires Ordered(writes)
    requires forall i :: 0 <= i < |writes| && writes[i].attemptId == d.attemptId ==>
                           writes[i].revision < d.revision || d.revision == MAX_REVISION
    ensures Ordered(writes + [d])
  {
  }

  lemma RejectionSound(m: Memory, key: string, status: Status)
    requires Sound(m) && key in m.keys && FindRejection(m.rejections, key).None? && Rememberable(status.code)
    ensures Sound(WithRejection(m, key, status))
  {
  }

  /** It does happen: a recheck that found no executable is remembered with its rejection. A scheduled check then
      activates; before its queue is drained, another process finds the service gone and schedules the same target
      again, which reopens the attempt with its memory. The retry of the recheck, still queued, is refused because
      the journal is not activated any more, while a live handler would replay its rejection. */
  method RememberedButNotReplayed(file: ActivationFile, attempt: string, other: string, installed: ExecutableIdentity,
                                  key: string, unknown: CheckWorld, current: CheckWorld)
    returns (first: Response, checked: Result<bool>, queued: Response, live: Response)
    requires file.Valid() && file.saved.None? && key != ""
    requires unknown.installed.Err?
    requires current.installed == Ok(installed) && current.running.Some?
    requires RunningServiceHasBuild(current.running.value, installed)
    modifies file
    ensures checked == Ok(true)
    ensures file.saved.Some? && file.saved.value.attemptId == attempt && key in file.saved.value.memory.keys
    ensures first.Refused? && live == first && queued != first
  {
    file.ScheduleDeferredActivation(installed, None, attempt);
    first := file.ManualRecheck(key, unknown);
    checked := ReopenAfterCheck(file, installed, other, current);
    queued := file.CompleteTerminalRecheck(key);
    live := file.ManualRecheck(key, unknown);
  }

  /** A check that finds its target running, and then the service gone and the target scheduled again. */
  method ReopenAfterCheck(file: ActivationFile, installed: ExecutableIdentity, other: string, current: CheckWorld)
    returns (checked: Result<bool>)
    requires file.Valid() && file.saved.Some? && file.saved.value.installed == installed
    requires current.installed == Ok(installed) && current.running.Some?
    requires RunningServiceHasBuild(current.running.value, installed)
    modifies file
    ensures file.Valid() && checked == Ok(true)
    ensures file.saved.Some? && file.saved.value.phase == InstalledPending
    ensures file.saved.value.memory == old(file.saved.value.memory)
    ensures file.saved.value.attemptId == old(file.saved.value.attemptId)
  {
    var outcome, _ := file.CheckOnceFenced(Scheduled, current);
    checked := outcome;
    assert file.saved.value.phase == Activated && file.saved.value.installed == installed;
    file.ScheduleDeferredActivation(installed, None, other);
  }
}
