/** The durable store of child sessions and their reports: links with revisions that count their changes, reports,
    and the receipts that make every command run at most once. A digest stands for the command it hashes. */
module ChildReports {
  import opened Options
  import Utf8

  const MAX_CHILDREN: nat := 32
  const MAX_REPORTS: nat := 4096
  const MAX_ID: nat := 200
  const MAX_BODY: nat := 16 * 1024

  datatype SessionRow = SessionRow(title: string, workspace: string, profile: Option<string>)

  /** What other tables hold when a command runs: the sessions, those whose bridge is not open, those that are
      being deleted, and those of native runs. */
  datatype Environment = Environment(
    sessions: map<string, SessionRow>,
    closed: set<string>,
    held: set<string>,
    native: set<string>)

  datatype ReportState = Progress | Blocker | Question | Completed | Failed | Cancelled | Unsupported(name: string)

  datatype Command =
    | LinkChildSession(parent: string, child: string)
    | PublishChildReport(child: string, reportId: string, state: ReportState, body: string)
    | OtherCommand(name: string)

  datatype Refusal =
    | BadKey | KeyReused | ReceiptUnavailable | FenceUnsupported | NotAReportCommand
    | SelfParent | ClosedSession | NotRelated | DifferentParent | NestedParents | TooManyChildren | DeletionHold
    | BadReport | NoParentLink | ReportIdReused | RetentionLimit | QuestionTooLong
    | BadRelationship | NotSameOwner | Unauthenticated | RelationshipChanged | DeliveryUnsettled

  datatype Outcome = Done | Refused(why: Refusal)

  datatype Link = Link(parent: string, title: string)

  datatype Report = Report(sequence: nat, child: string, reportId: string, state: ReportState, body: string,
                           createdAtMs: int)

  datatype Receipt = Receipt(child: string, command: Command)

  /** A parent asks for a child that has no parent, or for one of another parent, at the revision it saw. */
  datatype Reparenting = Reparenting(parent: string, call: string, child: string, previous: Option<string>,
                                     revision: nat, transfer: bool)

  /** What is kept of a reparenting that was done. */
  datatype Transition = Transition(key: string, command: Reparenting)

  datatype Tables = Tables(
    links: map<string, Link>,
    revisions: map<string, nat>,
    reports: seq<Report>,
    receipts: map<string, Receipt>,
    transitions: seq<Transition>,
    lastSequence: nat)

  function Children(links: map<string, Link>, parent: string): set<string> {
    set c | c in links && links[c].parent == parent
  }

  function CountOf(reports: seq<Report>, child: string): nat {
    if reports == [] then 0
    else CountOf(reports[..|reports| - 1], child) + if reports[|reports| - 1].child == child then 1 else 0
  }

  /** The links are a forest of depth one: a parent is nobody's child, and has at most 32 children. */
  ghost predicate Forest(links: map<string, Link>) {
    && (forall c <- links :: links[c].parent !in links)
    && (forall p :: |Children(links, p)| <= MAX_CHILDREN)
  }

  /** How often the link of a child was made or changed. */
  function RevisionOf(t: Tables, child: string): nat {
    if child in t.revisions then t.revisions[child] else 0
  }

  /** The child has this link now, one revision later; every other child keeps its own, and all reports stay. */
  ghost predicate NowLinked(t: Tables, child: string, link: Link, t': Tables) {
    && child in t'.links && t'.links[child] == link && RevisionOf(t', child) == RevisionOf(t, child) + 1
    && (forall c :: c != child ==> (c in t'.links <==> c in t.links) && RevisionOf(t', c) == RevisionOf(t, c))
    && (forall c <- t.links :: c != child ==> t'.links[c] == t.links[c])
    && t'.reports == t.reports && t'.receipts == t.receipts && t'.transitions == t.transitions
  }

  /** There is one report more, behind all the others. */
  ghost predicate NowFiled(t: Tables, child: string, reportId: string, state: ReportState, body: string, nowMs: int,
                           t': Tables) {
    var n := |t.reports|;
    && |t'.reports| == n + 1 && t.reports <= t'.reports
    && var r := t'.reports[n];
       && r.child == child && r.reportId == reportId && r.state == state && r.body == body && r.createdAtMs == nowMs
       && t.lastSequence < r.sequence == t'.lastSequence
       && t'.links == t.links && t'.revisions == t.revisions
       && t'.receipts == t.receipts && t'.transitions == t.transitions
  }

  /** A link is made or changed, and its revision goes up. */
  function Relink(t: Tables, child: string, link: Link): (t': Tables)
    ensures NowLinked(t, child, link, t')
  {
    t.(links := t.links[child := link], revisions := t.revisions[child := RevisionOf(t, child) + 1])
  }

  function File(t: Tables, child: string, reportId: string, state: ReportState, body: string, nowMs: int): (t': Tables)
    ensures NowFiled(t, child, reportId, state, body, nowMs, t')
  {
    t.(reports := t.reports + [Report(t.lastSequence + 1, child, reportId, state, body, nowMs)],
       lastSequence := t.lastSequence + 1)
  }

  /** Reports stand in sequence order, belong to linked children, and have ids that are unique for their child. */
  ghost predicate Filed(t: Tables) {
    && (forall i :: 0 <= i < |t.reports| ==>
          t.reports[i].child in t.links && 1 <= t.reports[i].sequence <= t.lastSequence)
    && (forall i, j :: 0 <= i < j < |t.reports| ==> t.reports[i].sequence < t.reports[j].sequence)
    && (forall i, j :: 0 <= i < j < |t.reports| ==>
          !(t.reports[i].child == t.reports[j].child && t.reports[i].reportId == t.reports[j].reportId))
  }

  /** No two reparentings share their key, or their parent and its call. */
  ghost predicate Logged(transitions: seq<Transition>) {
    forall i, j :: 0 <= i < j < |transitions| ==> !Answers(transitions[j], transitions[i].key, transitions[i].command)
  }

  predicate Answers(row: Transition, key: string, command: Reparenting) {
    row.key == key || (row.command.parent == command.parent && row.command.call == command.call)
  }

  ghost predicate Good(t: Tables) {
    && Forest(t.links) && Filed(t) && Logged(t.transitions)
    && forall k <- t.receipts :: t.receipts[k].child in t.links
  }

  // ----- which commands are accepted

  predicate Related(env: Environment, parent: string, child: string) {
    && parent in env.sessions && child in env.sessions
    && env.sessions[parent].profile == env.sessions[child].profile
    && (env.sessions[child].profile.None? ==> env.sessions[parent].workspace == env.sessions[child].workspace)
  }

  /** A parent that is no child and has room may take a child that is no parent. */
  predicate HasPlace(links: map<string, Link>, parent: string, child: string) {
    parent !in links && Children(links, child) == {} && |Children(links, parent)| < MAX_CHILDREN
  }

  /** A parent may be linked to a related, open child that has this parent already, or none yet and is not being
      deleted, if there is a place for it. */
  predicate LinkAllowed(env: Environment, links: map<string, Link>, parent: string, child: string) {
    && parent != child && parent !in env.closed && child !in env.closed && Related(env, parent, child)
    && if child in links then links[child].parent == parent
       else HasPlace(links, parent, child) && child !in env.held
  }

  predicate ValidKey(key: string) {
    key != "" && Utf8.ByteLength(key) <= MAX_ID
  }

  predicate Starts(text: string, prefix: string) {
    prefix <= text
  }

  predicate WellFormedReport(reportId: string, state: ReportState, body: string) {
    && reportId != "" && Utf8.ByteLength(reportId) <= MAX_ID
    && body != "" && Utf8.ByteLength(body) <= MAX_BODY && !state.Unsupported?
    && !Starts(reportId, "turn:") && !Starts(reportId, "question:")
  }

  predicate Holds(reports: seq<Report>, child: string, reportId: string) {
    exists i :: 0 <= i < |reports| && reports[i].child == child && reports[i].reportId == reportId
  }

  predicate HoldsExactly(reports: seq<Report>, child: string, reportId: string, state: ReportState, body: string) {
    exists i :: 0 <= i < |reports| && reports[i].child == child && reports[i].reportId == reportId
                && reports[i].state == state && reports[i].body == body
  }

  /** A linked child may publish a well-formed report whose id it has used for the same report already, or
      not at all while it has room. */
  predicate PublishAllowed(t: Tables, child: string, reportId: string, state: ReportState, body: string) {
    && WellFormedReport(reportId, state, body) && child in t.links
    && if Holds(t.reports, child, reportId) then HoldsExactly(t.reports, child, reportId, state, body)
       else CountOf(t.reports, child) < MAX_REPORTS
  }

  predicate Allowed(env: Environment, t: Tables, command: Command) {
    match command
    case LinkChildSession(parent, child) => LinkAllowed(env, t.links, parent, child)
    case PublishChildReport(child, reportId, state, body) => PublishAllowed(t, child, reportId, state, body)
    case OtherCommand(_) => false
  }

  // ----- one call

  datatype Call = Call(command: Command, key: string, replayOnly: bool, fenced: bool, nowMs: int)

  function Carried(env: Environment, t: Tables, command: Command, nowMs: int): Tables
    requires Allowed(env, t, command)
  {
    match command
    case LinkChildSession(parent, child) =>
      if child in t.links then t else Relink(t, child, Link(parent, env.sessions[child].title))
    case PublishChildReport(child, reportId, state, body) =>
      if Holds(t.reports, child, reportId) then t else File(t, child, reportId, state, body, nowMs)
  }

  /** What a call may do: a key with a receipt replays it or is refused; a new key runs an allowed command and
      keeps its receipt; every refusal leaves all tables alone. */
  ghost predicate Step(env: Environment, t: Tables, call: Call, t': Tables, o: Outcome) {
    var command := call.command;
    if !ValidKey(call.key) then t' == t && o == Refused(BadKey)
    else if call.key in t.receipts then
      t' == t && o == if t.receipts[call.key].command == command then Done else Refused(KeyReused)
    else if call.replayOnly || call.fenced || !Allowed(env, t, command) then
      t' == t && o.Refused? && o != Refused(KeyReused)
    else
      && t' == Carried(env, t, command, call.nowMs).(
                 receipts := t.receipts[call.key := Receipt(command.child, command)])
      && o == Done
  }

  lemma ChildrenNext(links: map<string, Link>, child: string, link: Link, p: string)
    requires child !in links
    ensures Children(links[child := link], p) == Children(links, p) + if link.parent == p then {child} else {}
  {
  }

  lemma ChildrenMoved(links: map<string, Link>, child: string, link: Link, p: string)
    requires child in links
    ensures Children(links[child := link], p) <= Children(links, p) + if link.parent == p then {child} else {}
  {
  }

  /** Giving a child a parent keeps the forest when there is a place for it: no session is both parent and child,
      and no parent has more than 32 children. */
  lemma PlaceKeepsForest(links: map<string, Link>, child: string, link: Link)
    requires Forest(links) && link.parent != child && HasPlace(links, link.parent, child)
    ensures Forest(links[child := link])
  {
    var links' := links[child := link];
    forall p ensures |Children(links', p)| <= MAX_CHILDREN {
      PlaceBounds(links, child, link, p);
    }
    assert forall c <- links :: links[c].parent == child ==> c in Children(links, child);
  }

  lemma PlaceBounds(links: map<string, Link>, child: string, link: Link, p: string)
    requires Forest(links) && HasPlace(links, link.parent, child)
    ensures |Children(links[child := link], p)| <= MAX_CHILDREN
  {
    if child in links {
      ChildrenMoved(links, child, link, p);
      SmallerSet(Children(links[child := link], p), Children(links, p) + if link.parent == p then {child} else {});
    } else {
      ChildrenNext(links, child, link, p);
    }
  }

  lemma SmallerSet<T>(a: set<T>, b: set<T>)
    requires a <= b
    ensures |a| <= |b|
  {
    assert |a| + |b - a| == |a + (b - a)| && a + (b - a) == b;
  }

  lemma RelinkKeepsGood(t: Tables, child: string, link: Link)
    requires Good(t) && link.parent != child && HasPlace(t.links, link.parent, child)
    ensures Good(Relink(t, child, link))
  {
    PlaceKeepsForest(t.links, child, link);
  }

  lemma FileKeepsGood(t: Tables, child: string, reportId: string, state: ReportState, body: string, nowMs: int)
    requires Good(t) && child in t.links && !Holds(t.reports, child, reportId)
    ensures Good(File(t, child, reportId, state, body, nowMs))
  {
  }

  lemma ReceiptKeepsGood(t: Tables, key: string, receipt: Receipt)
    requires Good(t) && receipt.child in t.links
    ensures Good(t.(receipts := t.receipts[key := receipt]))
  {
  }

  lemma CarriedIsGood(env: Environment, t: Tables, command: Command, nowMs: int)
    requires Good(t) && Allowed(env, t, command)
    ensures Good(Carried(env, t, command, nowMs)) && command.child in Carried(env, t, command, nowMs).links
    ensures Carried(env, t, command, nowMs).receipts == t.receipts
  {
    match command
    case LinkChildSession(parent, child) =>
      if child !in t.links {
        RelinkKeepsGood(t, child, Link(parent, env.sessions[child].title));
      }
    case PublishChildReport(child, reportId, state, body) =>
      if !Holds(t.reports, child, reportId) {
        FileKeepsGood(t, child, reportId, state, body, nowMs);
      }
  }

  /** Every call keeps the forest and the files. */
  lemma StepKeepsGood(env: Environment, t: Tables, call: Call, t': Tables, o: Outcome)
    requires Good(t) && Step(env, t, call, t', o)
    ensures Good(t')
  {
    if o.Done? && call.key !in t.receipts {
      CarriedIsGood(env, t, call.command, call.nowMs);
      ReceiptKeepsGood(Carried(env, t, call.command, call.nowMs), call.key, Receipt(call.command.child, call.command));
    }
  }

  // ----- questions a child asks, filed by the runtime

  datatype Asking = Asking(child: string, digest: string, body: string, nowMs: int)

  function QuestionId(digest: string): string {
    "question:" + digest
  }

  /** A question of an unlinked child, or one filed before, is passed over. Any other is filed, unless it is
      too long or the child has no room. */
  ghost predicate Asked(t: Tables, a: Asking, t': Tables, o: Outcome) {
    var id := QuestionId(a.digest);
    var unfiled := a.child in t.links && !Holds(t.reports, a.child, id);
    && (o.Done? <==> unfiled ==> Utf8.ByteLength(a.body) <= MAX_BODY && CountOf(t.reports, a.child) < MAX_REPORTS)
    && o != Refused(KeyReused)
    && t' == if unfiled && o.Done? then File(t, a.child, id, Question, a.body, a.nowMs) else t
  }

  lemma AskingKeepsGood(t: Tables, a: Asking, t': Tables, o: Outcome)
    requires Good(t) && Asked(t, a, t', o)
    ensures Good(t')
  {
    if t' != t {
      FileKeepsGood(t, a.child, QuestionId(a.digest), Question, a.body, a.nowMs);
    }
  }

  // ----- turns that end

  /** An ended turn of a session. */
  datatype Turn = Turn(session: string, id: string, state: ReportState, body: string, nowMs: int)

  function TurnId(id: string): string {
    "turn:" + id
  }

  /** A child's turn is reported once, without a limit; the turn of any other session is not. */
  function Ended(t: Tables, turn: Turn): Tables {
    if turn.session in t.links && !Holds(t.reports, turn.session, TurnId(turn.id))
    then File(t, turn.session, TurnId(turn.id), turn.state, turn.body, turn.nowMs)
    else t
  }

  lemma EndedKeepsGood(t: Tables, turn: Turn)
    requires Good(t)
    ensures Good(Ended(t, turn))
  {
    if Ended(t, turn) != t {
      FileKeepsGood(t, turn.session, TurnId(turn.id), turn.state, turn.body, turn.nowMs);
    }
  }

  // ----- the store

  class ReportStore {
    var links: map<string, Link>
    var revisions: map<string, nat>
    var reports: seq<Report>
    var receipts: map<string, Receipt>
    var transitions: seq<Transition>
    var lastSequence: nat

    function Current(): Tables
      reads this
    {
      Tables(links, revisions, reports, receipts, transitions, lastSequence)
    }

    constructor ()
      ensures Good(Current()) && Current() == Tables(map[], map[], [], map[], [], 0)
    {
      links, revisions, reports, receipts, transitions, lastSequence := map[], map[], [], map[], [], 0;
    }

    /** Every link that is inserted or gets another parent raises its revision. */
    method SetLink(child: string, link: Link)
      modifies this`links, this`revisions
      ensures Current() == Relink(old(Current()), child, link)
    {
      links := links[child := link];
      revisions := revisions[child := (if child in revisions then revisions[child] else 0) + 1];
    }

    method FileReport(child: string, reportId: string, state: ReportState, body: string, nowMs: int)
      modifies this`reports, this`lastSequence
      ensures Current() == File(old(Current()), child, reportId, state, body, nowMs)
    {
      lastSequence := lastSequence + 1;
      reports := reports + [Report(lastSequence, child, reportId, state, body, nowMs)];
    }

    /** The report a child has filed under an id. */
    method FindReport(child: string, reportId: string) returns (found: Option<Report>)
      ensures found.Some? <==> Holds(reports, child, reportId)
      ensures found.Some? ==> found.value in reports && found.value.child == child && found.value.reportId == reportId
    {
      found := None;
      for i := 0 to |reports|
        invariant found.Some? <==>
                    exists j :: 0 <= j < i && reports[j].child == child && reports[j].reportId == reportId
        invariant found.Some? ==>
                    found.value in reports && found.value.child == child && found.value.reportId == reportId
      {
        if reports[i].child == child && reports[i].reportId == reportId {
          found := Some(reports[i]);
        }
      }
    }

    method LinkInTransaction(env: Environment, parent: string, child: string) returns (o: Outcome)
      modifies this`links, this`revisions
      ensures o.Done? <==> LinkAllowed(env, old(links), parent, child)
      ensures o.Refused? || child in old(links) ==> Current() == old(Current())
      ensures o.Done? && child !in old(links) ==>
                Current() == Relink(old(Current()), child, Link(parent, env.sessions[child].title))
      ensures o != Refused(KeyReused)
    {
      if parent == child {
        return Refused(SelfParent);
      }
      if parent in env.closed || child in env.closed {
        return Refused(ClosedSession);
      }
      if !Related(env, parent, child) {
        return Refused(NotRelated);
      }
      if child in links {
        return if links[child].parent == parent then Done else Refused(DifferentParent);
      }
      if parent in links || Children(links, child) != {} {
        return Refused(NestedParents);
      }
      if |Children(links, parent)| >= MAX_CHILDREN {
        return Refused(TooManyChildren);
      }
      if child in env.held {
        return Refused(DeletionHold);
      }
      SetLink(child, Link(parent, env.sessions[child].title));
      return Done;
    }

    method PublishInTransaction(child: string, reportId: string, state: ReportState, body: string, nowMs: int)
      returns (o: Outcome)
      requires Filed(Current())
      modifies this`reports, this`lastSequence
      ensures var t := old(Current());
              && (o.Done? <==> PublishAllowed(t, child, reportId, state, body))
              && Current() == if o.Done? && !Holds(t.reports, child, reportId)
                              then File(t, child, reportId, state, body, nowMs) else t
      ensures o != Refused(KeyReused)
    {
      if !WellFormedReport(reportId, state, body) {
        return Refused(BadReport);
      }
      if child !in links {
        return Refused(NoParentLink);
      }
      var saved := FindReport(child, reportId);
      if saved.Some? {
        UniqueReport(Current(), child, reportId, saved.value);
        return if saved.value.state == state && saved.value.body == body then Done else Refused(ReportIdReused);
      }
      if CountOf(reports, child) >= MAX_REPORTS {
        return Refused(RetentionLimit);
      }
      FileReport(child, reportId, state, body, nowMs);
      return Done;
    }

    /** Files a child's question, once. */
    method RecordQuestion(a: Asking) returns (o: Outcome)
      requires Good(Current())
      modifies this`reports, this`lastSequence
      ensures Asked(old(Current()), a, Current(), o)
      ensures Good(Current())
    {
      ghost var before := Current();
      o := Done;
      var found := FindReport(a.child, QuestionId(a.digest));
      if a.child in links && found.None? {
        if Utf8.ByteLength(a.body) > MAX_BODY {
          o := Refused(QuestionTooLong);
        } else if CountOf(reports, a.child) >= MAX_REPORTS {
          o := Refused(RetentionLimit);
        } else {
          FileReport(a.child, QuestionId(a.digest), Question, a.body, a.nowMs);
        }
      }
      AskingKeepsGood(before, a, Current(), o);
    }

    /** Files the report of a turn that ended, once. */
    method EndTurn(turn: Turn)
      requires Good(Current())
      modifies this`reports, this`lastSequence
      ensures Current() == Ended(old(Current()), turn)
      ensures Good(Current())
    {
      ghost var before := Current();
      var found := FindReport(turn.session, TurnId(turn.id));
      if turn.session in links && found.None? {
        FileReport(turn.session, TurnId(turn.id), turn.state, turn.body, turn.nowMs);
      }
      EndedKeepsGood(before, turn);
    }

    /** Runs a command at most once for its key, and keeps its receipt. */
    method Execute(env: Environment, call: Call) returns (o: Outcome)
      requires Good(Current())
      modifies this
      ensures Step(env, old(Current()), call, Current(), o)
      ensures Good(Current())
    {
      ghost var before := Current();
      if !ValidKey(call.key) {
        return Refused(BadKey);
      }
      if call.key in receipts {
        return if receipts[call.key].command == call.command then Done else Refused(KeyReused);
      }
      if call.replayOnly {
        return Refused(ReceiptUnavailable);
      }
      if call.fenced {
        return Refused(FenceUnsupported);
      }
      var child;
      match call.command {
        case LinkChildSession(parent, c) =>
          o := LinkInTransaction(env, parent, c);
          child := c;
        case PublishChildReport(c, reportId, state, body) =>
          o := PublishInTransaction(c, reportId, state, body, call.nowMs);
          child := c;
        case OtherCommand(_) =>
          return Refused(NotAReportCommand);
      }
      if o.Done? {
        receipts := receipts[call.key := Receipt(child, call.command)];
      }
      StepKeepsGood(env, before, call, Current(), o);
    }
  }

  lemma UniqueReport(t: Tables, child: string, reportId: string, r: Report)
    requires Filed(t) && r in t.reports && r.child == child && r.reportId == reportId
    ensures forall state, body ::
              HoldsExactly(t.reports, child, reportId, state, body) <==> r.state == state && r.body == body
  {
    var i :| 0 <= i < |t.reports| && t.reports[i] == r;
    forall j | 0 <= j < |t.reports| && t.reports[j].child == child && t.reports[j].reportId == reportId
      ensures j == i
    {
      assert !(j < i) && !(i < j);
    }
  }
}
