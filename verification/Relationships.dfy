/** How existing children change their parents, and what holds of the store over runs of everything that writes
    to it: commands, questions, ended turns, reparentings and adoptions. Whether the source call is authentic and
    all deliveries are settled is given. */
module Relationships {
  import opened ChildReports
  import opened Options
  import Utf8

  const MAX_REVISION: nat := 0x7fff_ffff_ffff_ffff

  // ----- claiming an orphan, or a child of another parent

  datatype Request = Request(command: Reparenting, key: string, replayOnly: bool, authentic: bool, settled: bool)

  predicate WellFormed(r: Request) {
    r.command.revision < MAX_REVISION && ValidKey(r.key) && ValidKey(r.command.call)
  }

  predicate HasProfile(env: Environment, session: string, profile: Option<string>) {
    session in env.sessions && profile.Some? && env.sessions[session].profile == profile
  }

  /** Parent, child and previous parent belong to one profile, and neither parent nor child is a native run. */
  predicate SameOwner(env: Environment, c: Reparenting) {
    && c.child in env.sessions && c.parent != c.child && c.parent !in env.native && c.child !in env.native
    && HasProfile(env, c.parent, env.sessions[c.child].profile)
    && (c.previous.Some? ==> HasProfile(env, c.previous.value, env.sessions[c.child].profile))
  }

  function ParentOf(t: Tables, child: string): Option<string> {
    if child in t.links then Some(t.links[child].parent) else None
  }

  /** The child is an orphan, or another parent's if that was asked for, and unchanged since its revision was
      read; both are open, and there is a place. */
  predicate ReparentAllowed(env: Environment, t: Tables, r: Request) {
    var c := r.command;
    && c.transfer == c.previous.Some? && c.previous != Some(c.parent)
    && ParentOf(t, c.child) == c.previous && RevisionOf(t, c.child) == c.revision
    && HasPlace(t.links, c.parent, c.child) && c.parent !in env.closed && c.child !in env.closed
    && c.child !in env.held && r.settled
  }

  /** The link of the child to its new parent. A child that changes its parent keeps its title. */
  function NewLink(env: Environment, t: Tables, parent: string, child: string): Link
    requires child in env.sessions
  {
    Link(parent, if child in t.links then t.links[child].title else env.sessions[child].title)
  }

  predicate Answered(t: Tables, r: Request) {
    exists row <- t.transitions :: Answers(row, r.key, r.command)
  }

  /** A key or source call that was used replays the same reparenting and refuses any other; a new one is
      authenticated and done at the revision that was read. */
  ghost predicate Reparented(env: Environment, t: Tables, r: Request, t': Tables, o: Outcome) {
    if !WellFormed(r) then t' == t && o == Refused(BadRelationship)
    else if !SameOwner(env, r.command) then t' == t && o == Refused(NotSameOwner)
    else if Answered(t, r) then
      && t' == t
      && exists row <- t.transitions ::
           Answers(row, r.key, r.command) && o == if row.command == r.command then Done else Refused(KeyReused)
    else if r.replayOnly || !r.authentic || !ReparentAllowed(env, t, r) then
      t' == t && o.Refused? && o != Refused(KeyReused)
    else
      && t' == Moved(env, t, r)
      && o == Done
  }

  function Moved(env: Environment, t: Tables, r: Request): Tables
    requires SameOwner(env, r.command)
  {
    var c := r.command;
    Relink(t, c.child, NewLink(env, t, c.parent, c.child)).(
      transitions := t.transitions + [Transition(r.key, c)])
  }

  lemma ReparentKeepsGood(env: Environment, t: Tables, r: Request, t': Tables, o: Outcome)
    requires Good(t) && Reparented(env, t, r, t', o)
    ensures Good(t')
  {
    if t' != t {
      var c := r.command;
      RelinkKeepsGood(t, c.child, NewLink(env, t, c.parent, c.child));
      LogNext(t.transitions, r.key, c);
    }
  }

  lemma LogNext(transitions: seq<Transition>, key: string, c: Reparenting)
    requires Logged(transitions) && !exists row <- transitions :: Answers(row, key, c)
    ensures Logged(transitions + [Transition(key, c)])
  {
    forall i | 0 <= i < |transitions|
      ensures !Answers(Transition(key, c), transitions[i].key, transitions[i].command)
    {
      assert !Answers(transitions[i], key, c);
    }
  }

  // ----- adoption by a chat that instructs an agent

  /** What an authenticated instruction from one of the owner's chats establishes about its sessions. */
  predicate Instructs(env: Environment, chat: string, agent: string) {
    chat != agent && Related(env, chat, agent)
  }

  predicate Adopts(env: Environment, t: Tables, chat: string, agent: string) {
    ParentOf(t, agent) != Some(chat) && HasPlace(t.links, chat, agent) && agent !in env.held
  }

  function Adopted(env: Environment, t: Tables, chat: string, agent: string): Tables
    requires Instructs(env, chat, agent)
  {
    if Adopts(env, t, chat, agent) then Relink(t, agent, NewLink(env, t, chat, agent)) else t
  }

  lemma AdoptionKeepsGood(env: Environment, t: Tables, chat: string, agent: string)
    requires Good(t) && Instructs(env, chat, agent)
    ensures Good(Adopted(env, t, chat, agent))
  {
    if Adopts(env, t, chat, agent) {
      RelinkKeepsGood(t, agent, NewLink(env, t, chat, agent));
    }
  }

  // ----- runs

  /** Something that happened to the store, in the environment of its moment. */
  datatype Event =
    | Commanded(env: Environment, call: Call, outcome: Outcome)
    | Questioned(asking: Asking, outcome: Outcome)
    | TurnEnded(turn: Turn)
    | Reparents(env: Environment, request: Request, outcome: Outcome)
    | Instructed(env: Environment, chat: string, agent: string)

  ghost predicate Happened(t: Tables, e: Event, t': Tables) {
    match e
    case Commanded(env, call, outcome) => Step(env, t, call, t', outcome)
    case Questioned(asking, outcome) => Asked(t, asking, t', outcome)
    case TurnEnded(turn) => t' == Ended(t, turn)
    case Reparents(env, request, outcome) => Reparented(env, t, request, t', outcome)
    case Instructed(env, chat, agent) => Instructs(env, chat, agent) && t' == Adopted(env, t, chat, agent)
  }

  /** A run of the store, with the tables before, between and after its events. */
  ghost predicate IsRun(states: seq<Tables>, run: seq<Event>) {
    && |states| == |run| + 1
    && forall i :: 0 <= i < |run| ==> Happened(states[i], run[i], states[i + 1])
  }

  lemma EventKeepsGood(t: Tables, e: Event, t': Tables)
    requires Good(t) && Happened(t, e, t')
    ensures Good(t')
  {
    match e
    case Commanded(env, call, outcome) => StepKeepsGood(env, t, call, t', outcome);
    case Questioned(asking, outcome) => AskingKeepsGood(t, asking, t', outcome);
    case TurnEnded(turn) => EndedKeepsGood(t, turn);
    case Reparents(env, request, outcome) => ReparentKeepsGood(env, t, request, t', outcome);
    case Instructed(env, chat, agent) => AdoptionKeepsGood(env, t, chat, agent);
  }

  /** Every state of a run is good: a forest of depth one, whoever wrote its links, and sound files. */
  lemma {:induction false} RunKeepsGood(states: seq<Tables>, run: seq<Event>, i: nat)
    requires IsRun(states, run) && Good(states[0]) && i <= |run|
    ensures Good(states[i])
  {
    if i > 0 {
      RunKeepsGood(states, run, i - 1);
      EventKeepsGood(states[i - 1], run[i - 1], states[i]);
    }
  }

  // ----- what was done is there

  /** What an accepted command asked for: its child is linked, or has filed exactly this report. */
  ghost predicate IsThere(t: Tables, command: Command) {
    match command
    case LinkChildSession(_, child) => child in t.links
    case PublishChildReport(child, reportId, state, body) => HoldsExactly(t.reports, child, reportId, state, body)
    case OtherCommand(_) => false
  }

  /** Every command with a receipt was carried out. */
  ghost predicate Backed(t: Tables) {
    forall k <- t.receipts :: IsThere(t, t.receipts[k].command)
  }

  lemma ThereLater(t: Tables, t': Tables, command: Command)
    requires Grown(t, t') && IsThere(t, command)
    ensures IsThere(t', command)
  {
    if command.PublishChildReport? {
      var i :| 0 <= i < |t.reports| && t.reports[i].child == command.child && t.reports[i].reportId == command.reportId
               && t.reports[i].state == command.state && t.reports[i].body == command.body;
      assert t'.reports[i] == t.reports[i];
    }
  }

  /** A command that is carried out leaves what it asked for, a new child with the parent it asked for. */
  lemma CarriedIsThere(env: Environment, t: Tables, command: Command, nowMs: int)
    requires Allowed(env, t, command)
    ensures IsThere(Carried(env, t, command, nowMs), command)
    ensures command.LinkChildSession? ==>
              ParentOf(Carried(env, t, command, nowMs), command.child) == Some(command.parent)
  {
    if command.PublishChildReport? && !Holds(t.reports, command.child, command.reportId) {
      var reports := Carried(env, t, command, nowMs).reports;
      assert reports[|t.reports|].child == command.child;
    }
  }

  lemma StepIsBacked(env: Environment, t: Tables, call: Call, t': Tables, o: Outcome, k: string)
    requires Backed(t) && Step(env, t, call, t', o) && k in t'.receipts && k !in t.receipts
    ensures IsThere(t', t'.receipts[k].command)
  {
    CarriedIsThere(env, t, call.command, call.nowMs);
  }

  lemma EventKeepsBacked(t: Tables, e: Event, t': Tables)
    requires Backed(t) && Happened(t, e, t')
    ensures Backed(t')
  {
    EventGrows(t, e, t');
    forall k | k in t'.receipts ensures IsThere(t', t'.receipts[k].command) {
      if k in t.receipts {
        ThereLater(t, t', t.receipts[k].command);
      } else {
        StepIsBacked(e.env, t, e.call, t', e.outcome, k);
      }
    }
  }

  lemma {:induction false} RunKeepsBacked(states: seq<Tables>, run: seq<Event>, i: nat)
    requires IsRun(states, run) && Backed(states[0]) && i <= |run|
    ensures Backed(states[i])
  {
    if i > 0 {
      RunKeepsBacked(states, run, i - 1);
      EventKeepsBacked(states[i - 1], run[i - 1], states[i]);
    }
  }

  /** Whatever was done, now or under its key before, is there in every later state: a child stays linked, and a
      report is held as it was published. */
  lemma DoneIsThere(states: seq<Tables>, run: seq<Event>, i: nat, j: nat)
    requires IsRun(states, run) && Backed(states[0]) && i < j <= |run|
    requires run[i].Commanded? && run[i].outcome.Done?
    ensures IsThere(states[j], run[i].call.command)
  {
    assert Happened(states[i], run[i], states[i + 1]);
    RunKeepsBacked(states, run, i + 1);
    assert run[i].call.key in states[i + 1].receipts;
    RunGrows(states, run, i + 1, j);
    ThereLater(states[i + 1], states[j], run[i].call.command);
  }

  /** A linked child's question that is accepted, and its turn that ends, are held from then on. */
  lemma ReportsAreThere(states: seq<Tables>, run: seq<Event>, i: nat, j: nat)
    requires IsRun(states, run) && i < j <= |run|
    ensures run[i].Questioned? && run[i].outcome.Done? && run[i].asking.child in states[i].links ==>
              Holds(states[j].reports, run[i].asking.child, QuestionId(run[i].asking.digest))
    ensures run[i].TurnEnded? && run[i].turn.session in states[i].links ==>
              Holds(states[j].reports, run[i].turn.session, TurnId(run[i].turn.id))
  {
    var t, t' := states[i], states[i + 1];
    assert Happened(t, run[i], t');
    RunGrows(states, run, i + 1, j);
    match run[i]
    case Questioned(asking, _) =>
      if run[i].outcome.Done? && asking.child in t.links {
        HeldNow(t, t', asking.child, QuestionId(asking.digest));
        HeldLater(t', states[j], asking.child, QuestionId(asking.digest));
      }
    case TurnEnded(turn) =>
      if turn.session in t.links {
        EndedHolds(t, turn);
        HeldLater(t', states[j], turn.session, TurnId(turn.id));
      }
    case _ =>
  }

  lemma HeldNow(t: Tables, t': Tables, child: string, reportId: string)
    requires || (Holds(t.reports, child, reportId) && t' == t)
             || exists state, body, nowMs :: NowFiled(t, child, reportId, state, body, nowMs, t')
    ensures Holds(t'.reports, child, reportId)
  {
    if |t'.reports| > |t.reports| {
      assert t'.reports[|t.reports|].reportId == reportId;
    }
  }

  lemma HeldLater(t: Tables, t': Tables, child: string, reportId: string)
    requires Grown(t, t') && Holds(t.reports, child, reportId)
    ensures Holds(t'.reports, child, reportId)
  {
    var i :| 0 <= i < |t.reports| && t.reports[i].child == child && t.reports[i].reportId == reportId;
    assert t'.reports[i] == t.reports[i];
  }

  // ----- what never changes

  /** Children stay linked under their title, receipts and transitions stay as they are, and reports are appended. */
  ghost predicate Grown(t: Tables, t': Tables) {
    && (forall c <- t.links :: c in t'.links && t'.links[c].title == t.links[c].title)
    && (forall k <- t.receipts :: k in t'.receipts && t'.receipts[k] == t.receipts[k])
    && t.reports <= t'.reports && t.transitions <= t'.transitions
  }

  lemma StepGrows(env: Environment, t: Tables, call: Call, t': Tables, o: Outcome)
    requires Step(env, t, call, t', o)
    ensures Grown(t, t')
  {
  }

  lemma EventGrows(t: Tables, e: Event, t': Tables)
    requires Happened(t, e, t')
    ensures Grown(t, t')
  {
    match e
    case Commanded(env, call, outcome) => StepGrows(env, t, call, t', outcome);
    case _ =>
  }

  /** A child stays linked, a key keeps its first command and a report its place, over any run. */
  lemma {:induction false} RunGrows(states: seq<Tables>, run: seq<Event>, i: nat, j: nat)
    requires IsRun(states, run) && i <= j <= |run|
    ensures Grown(states[i], states[j])
  {
    if i < j {
      RunGrows(states, run, i, j - 1);
      EventGrows(states[j - 1], run[j - 1], states[j]);
    }
  }

  /** Once a command has been done under a key, any later call with that key changes nothing, whatever else
      happened in between: it is done again if the command is the same, and refused as reused if it is not. */
  lemma DoneOnce(states: seq<Tables>, run: seq<Event>, i: nat, j: nat)
    requires IsRun(states, run) && i < j < |run|
    requires run[i].Commanded? && run[j].Commanded? && run[i].outcome.Done? && run[i].call.key == run[j].call.key
    ensures states[j + 1] == states[j]
    ensures run[j].outcome == if run[j].call.command == run[i].call.command then Done else Refused(KeyReused)
  {
    var key := run[i].call.key;
    assert Happened(states[i], run[i], states[i + 1]) && Happened(states[j], run[j], states[j + 1]);
    assert key in states[i + 1].receipts && states[i + 1].receipts[key].command == run[i].call.command;
    RunGrows(states, run, i + 1, j);
  }

  // ----- turns

  /** A turn of a child is reported at most once, with the report it had first, however often it ends. */
  lemma TurnReportedOnce(states: seq<Tables>, run: seq<Event>, i: nat, j: nat)
    requires IsRun(states, run) && i < j < |run| && run[i].TurnEnded? && run[j].TurnEnded?
    requires run[i].turn.session == run[j].turn.session && run[i].turn.id == run[j].turn.id
    requires run[i].turn.session in states[i].links
    ensures states[j + 1] == states[j]
  {
    assert Happened(states[i], run[i], states[i + 1]) && Happened(states[j], run[j], states[j + 1]);
    var child, id := run[i].turn.session, TurnId(run[i].turn.id);
    EndedHolds(states[i], run[i].turn);
    var k :| 0 <= k < |states[i + 1].reports|
             && states[i + 1].reports[k].child == child && states[i + 1].reports[k].reportId == id;
    RunGrows(states, run, i + 1, j);
    assert states[j].reports[k] == states[i + 1].reports[k];
  }

  lemma EndedHolds(t: Tables, turn: Turn)
    requires turn.session in t.links
    ensures Holds(Ended(t, turn).reports, turn.session, TurnId(turn.id))
  {
    if !Holds(t.reports, turn.session, TurnId(turn.id)) {
      assert Ended(t, turn).reports[|t.reports|].child == turn.session;
    }
  }

  predicate OfTurn(reportId: string) {
    Starts(reportId, "turn:")
  }

  lemma QuestionIsNoTurn(digest: string)
    ensures !OfTurn(QuestionId(digest))
  {
    assert QuestionId(digest)[0] == 'q' && "turn:"[0] == 't';
  }

  /** Nothing but an ended turn files a report under a turn's name. */
  lemma OnlyTurnsFileTurns(t: Tables, e: Event, t': Tables, n: nat)
    requires Happened(t, e, t') && |t.reports| <= n < |t'.reports| && OfTurn(t'.reports[n].reportId)
    ensures e.TurnEnded? && t'.reports[n].child == e.turn.session && t'.reports[n].reportId == TurnId(e.turn.id)
  {
    if e.Questioned? {
      QuestionIsNoTurn(e.asking.digest);
    }
  }

  /** Every turn report of a run goes back to a turn that ended in it, or was there before. */
  lemma {:induction false} TurnsAreGenuine(states: seq<Tables>, run: seq<Event>, i: nat, n: nat)
    requires IsRun(states, run) && i <= |run|
    requires |states[0].reports| <= n < |states[i].reports| && OfTurn(states[i].reports[n].reportId)
    ensures exists k :: 0 <= k < i && run[k].TurnEnded? && states[i].reports[n].child == run[k].turn.session
                        && states[i].reports[n].reportId == TurnId(run[k].turn.id)
  {
    if i > 0 {
      EventGrows(states[i - 1], run[i - 1], states[i]);
      if n < |states[i - 1].reports| {
        assert states[i].reports[n] == states[i - 1].reports[n];
        TurnsAreGenuine(states, run, i - 1, n);
      } else {
        OnlyTurnsFileTurns(states[i - 1], run[i - 1], states[i], n);
      }
    }
  }

  // ----- how many reports a child files

  /** The reports of a child but for its turns. */
  function CountPublished(reports: seq<Report>, child: string): nat {
    if reports == [] then 0
    else
      var last := reports[|reports| - 1];
      CountPublished(reports[..|reports| - 1], child) + if last.child == child && !OfTurn(last.reportId) then 1 else 0
  }

  lemma {:induction false} PublishedAmongAll(reports: seq<Report>, child: string)
    ensures CountPublished(reports, child) <= CountOf(reports, child)
  {
    if reports != [] {
      PublishedAmongAll(reports[..|reports| - 1], child);
    }
  }

  lemma CountPublishedNext(reports: seq<Report>, r: Report, child: string)
    ensures CountPublished(reports + [r], child)
         == CountPublished(reports, child) + if r.child == child && !OfTurn(r.reportId) then 1 else 0
  {
    assert (reports + [r])[..|reports|] == reports;
  }

  /** Commands and questions file at most one report, and none for a child that has 4096, whatever filed them. */
  lemma FilesBelowLimit(t: Tables, e: Event, t': Tables)
    requires Happened(t, e, t') && t'.reports != t.reports
    ensures |t'.reports| == |t.reports| + 1 && t.reports <= t'.reports
    ensures e.TurnEnded? || CountOf(t.reports, t'.reports[|t.reports|].child) < MAX_REPORTS
  {
  }

  /** So no child ever has more than 4096 reports that are not of turns. */
  lemma {:induction false} RunKeepsLimit(states: seq<Tables>, run: seq<Event>, i: nat, child: string)
    requires IsRun(states, run) && i <= |run| && CountPublished(states[0].reports, child) <= MAX_REPORTS
    ensures CountPublished(states[i].reports, child) <= MAX_REPORTS
  {
    if i > 0 {
      RunKeepsLimit(states, run, i - 1, child);
      var t, t' := states[i - 1], states[i];
      if t'.reports != t.reports {
        FilesBelowLimit(t, run[i - 1], t');
        var r := t'.reports[|t.reports|];
        assert t'.reports == t.reports + [r];
        CountPublishedNext(t.reports, r, child);
        PublishedAmongAll(t.reports, child);
      }
    }
  }

  // ----- what a revision says

  /** Whatever changes a link raises the revision of its child; nothing else does, and none ever goes down. */
  lemma EventRevises(t: Tables, e: Event, t': Tables, child: string)
    requires Happened(t, e, t')
    ensures RevisionOf(t', child) >= RevisionOf(t, child)
    ensures RevisionOf(t', child) == RevisionOf(t, child) ==>
              ParentOf(t', child) == ParentOf(t, child)
  {
  }

  lemma {:induction false} RunRevises(states: seq<Tables>, run: seq<Event>, i: nat, j: nat, child: string)
    requires IsRun(states, run) && i <= j <= |run|
    ensures RevisionOf(states[j], child) >= RevisionOf(states[i], child)
    ensures RevisionOf(states[j], child) == RevisionOf(states[i], child) ==>
              ParentOf(states[j], child) == ParentOf(states[i], child)
  {
    if i < j {
      RunRevises(states, run, i, j - 1, child);
      EventRevises(states[j - 1], run[j - 1], states[j], child);
    }
  }

  /** A revision stands for one parent: whenever a child has the same revision it has the same parent, or none,
      at every point between as well. So a parent that left and came back cannot pass for one that stayed. */
  lemma RevisionFences(states: seq<Tables>, run: seq<Event>, i: nat, k: nat, j: nat, child: string)
    requires IsRun(states, run) && i <= k <= j <= |run|
    requires RevisionOf(states[i], child) == RevisionOf(states[j], child)
    ensures ParentOf(states[i], child) == ParentOf(states[k], child) == ParentOf(states[j], child)
  {
    RunRevises(states, run, i, k, child);
    RunRevises(states, run, k, j, child);
  }

  /** The event reparents a child, rather than replaying an earlier reparenting. */
  ghost predicate Moves(t: Tables, e: Event, t': Tables) {
    e.Reparents? && t' != t
  }

  /** Of all reparentings that saw the same revision of a child, at most one is ever done. */
  lemma OneReparentingPerRevision(states: seq<Tables>, run: seq<Event>, i: nat, j: nat)
    requires IsRun(states, run) && i < j < |run|
    requires Moves(states[i], run[i], states[i + 1]) && Moves(states[j], run[j], states[j + 1])
    requires run[i].request.command.child == run[j].request.command.child
    ensures run[i].request.command.revision < run[j].request.command.revision
  {
    assert Happened(states[i], run[i], states[i + 1]) && Happened(states[j], run[j], states[j + 1]);
    RunRevises(states, run, i + 1, j, run[i].request.command.child);
  }

  /** Once a reparenting was done, no later request with its key, or with its parent and source call, changes
      anything. */
  lemma ReparentedOnce(states: seq<Tables>, run: seq<Event>, i: nat, j: nat)
    requires IsRun(states, run) && i < j < |run| && Moves(states[i], run[i], states[i + 1]) && run[j].Reparents?
    requires Answers(Transition(run[i].request.key, run[i].request.command), run[j].request.key, run[j].request.command)
    ensures states[j + 1] == states[j]
  {
    assert Happened(states[j], run[j], states[j + 1]);
    TransitionStays(states, run, i, j);
  }

  lemma TransitionStays(states: seq<Tables>, run: seq<Event>, i: nat, j: nat)
    requires IsRun(states, run) && i < j <= |run| && Moves(states[i], run[i], states[i + 1])
    ensures Transition(run[i].request.key, run[i].request.command) in states[j].transitions
  {
    assert Happened(states[i], run[i], states[i + 1]);
    assert states[i + 1].transitions[|states[i].transitions|]
        == Transition(run[i].request.key, run[i].request.command);
    RunGrows(states, run, i + 1, j);
  }

  /** A retry of it under its key is told that it is done, even by a client that only asks for a replay, and
      whatever became of the child since; another reparenting with its key and source call is refused. */
  lemma RetryIsAnswered(states: seq<Tables>, run: seq<Event>, i: nat, j: nat)
    requires IsRun(states, run) && Good(states[0])
    requires i < j < |run| && Moves(states[i], run[i], states[i + 1]) && run[j].Reparents?
    requires run[j].request.key == run[i].request.key && run[j].request.command.call == run[i].request.command.call
    requires run[j].request.command.parent == run[i].request.command.parent
    requires WellFormed(run[j].request) && SameOwner(run[j].env, run[j].request.command)
    ensures run[j].outcome == if run[j].request.command == run[i].request.command then Done else Refused(KeyReused)
  {
    assert Happened(states[j], run[j], states[j + 1]);
    TransitionStays(states, run, i, j);
    RunKeepsGood(states, run, j);
    OneAnswer(states[j].transitions, Transition(run[i].request.key, run[i].request.command));
  }

  lemma OneAnswer(transitions: seq<Transition>, row: Transition)
    requires Logged(transitions) && row in transitions
    ensures forall other <- transitions :: Answers(other, row.key, row.command) ==> other == row
  {
    var i :| 0 <= i < |transitions| && transitions[i] == row;
    forall j | 0 <= j < |transitions| && Answers(transitions[j], row.key, row.command) ensures j == i {
      assert j < i ==> Answers(transitions[i], transitions[j].key, transitions[j].command);
    }
  }

  // ----- the store

  /** The transition that was kept for a key or a source call. */
  method FindTransition(store: ReportStore, key: string, c: Reparenting) returns (found: Option<Transition>)
    ensures found.Some? <==> exists row <- store.transitions :: Answers(row, key, c)
    ensures found.Some? ==> found.value in store.transitions && Answers(found.value, key, c)
  {
    found := None;
    for i := 0 to |store.transitions|
      invariant found.Some? <==> exists row <- store.transitions[..i] :: Answers(row, key, c)
      invariant found.Some? ==> found.value in store.transitions && Answers(found.value, key, c)
    {
      assert store.transitions[..i + 1] == store.transitions[..i] + [store.transitions[i]];
      if Answers(store.transitions[i], key, c) {
        found := Some(store.transitions[i]);
      }
    }
  }

  /** The checks of a new reparenting, in order. */
  method ApplyReparenting(store: ReportStore, env: Environment, r: Request) returns (o: Outcome)
    requires SameOwner(env, r.command)
    modifies store`links, store`revisions
    ensures o.Done? <==> ReparentAllowed(env, old(store.Current()), r)
    ensures o != Refused(KeyReused)
    ensures var t, c := old(store.Current()), r.command;
            store.Current() == if o.Done? then Relink(t, c.child, NewLink(env, t, c.parent, c.child)) else t
  {
    var c := r.command;
    if c.transfer != c.previous.Some? || c.previous == Some(c.parent) {
      return Refused(BadRelationship);
    }
    if ParentOf(store.Current(), c.child) != c.previous || RevisionOf(store.Current(), c.child) != c.revision {
      return Refused(RelationshipChanged);
    }
    if c.parent in store.links || Children(store.links, c.child) != {} {
      return Refused(NestedParents);
    }
    if c.parent in env.closed || c.child in env.closed {
      return Refused(ClosedSession);
    }
    if |Children(store.links, c.parent)| >= MAX_CHILDREN {
      return Refused(TooManyChildren);
    }
    if c.child in env.held {
      return Refused(DeletionHold);
    }
    if !r.settled {
      return Refused(DeliveryUnsettled);
    }
    if c.transfer {
      store.SetLink(c.child, store.links[c.child].(parent := c.parent));
      return Done;
    }
    o := store.LinkInTransaction(env, c.parent, c.child);
  }

  /** Reparents a child at most once for a key, and for a parent's source call, and keeps the transition. */
  method Reparent(store: ReportStore, env: Environment, r: Request) returns (o: Outcome)
    requires Good(store.Current())
    modifies store
    ensures Reparented(env, old(store.Current()), r, store.Current(), o)
    ensures Good(store.Current())
    ensures o.Done? && !Answered(old(store.Current()), r) ==>
              var t, c := old(store.Current()), r.command;
              && ParentOf(t, c.child) == c.previous && ParentOf(store.Current(), c.child) == Some(c.parent)
              && RevisionOf(t, c.child) == c.revision && RevisionOf(store.Current(), c.child) == c.revision + 1
              && store.reports == t.reports
  {
    ghost var before := store.Current();
    if !WellFormed(r) {
      return Refused(BadRelationship);
    }
    if !SameOwner(env, r.command) {
      return Refused(NotSameOwner);
    }
    var saved := FindTransition(store, r.key, r.command);
    if saved.Some? {
      return if saved.value.command == r.command then Done else Refused(KeyReused);
    }
    if r.replayOnly {
      return Refused(ReceiptUnavailable);
    }
    if !r.authentic {
      return Refused(Unauthenticated);
    }
    o := ApplyReparenting(store, env, r);
    if o.Done? {
      store.transitions := store.transitions + [Transition(r.key, r.command)];
    }
    ReparentKeepsGood(env, before, r, store.Current(), o);
  }

  /** The chat becomes the agent's parent, unless it is that already, there is no place, or the agent is held. */
  method Adopt(store: ReportStore, env: Environment, chat: string, agent: string)
    requires Good(store.Current()) && Instructs(env, chat, agent)
    modifies store`links, store`revisions
    ensures store.Current() == Adopted(env, old(store.Current()), chat, agent)
    ensures Good(store.Current())
    ensures var t := old(store.Current());
            var may := HasPlace(t.links, chat, agent) && agent !in env.held;
            && (ParentOf(store.Current(), agent) == Some(chat) <==> ParentOf(t, agent) == Some(chat) || may)
            && (ParentOf(t, agent) == Some(chat) || !may ==> store.Current() == t)
            && store.reports == t.reports
  {
    ghost var before := store.Current();
    if ParentOf(store.Current(), agent) == Some(chat) {
      return;
    }
    var nested := chat in store.links || Children(store.links, agent) != {};
    if !nested && |Children(store.links, chat)| < MAX_CHILDREN && agent !in env.held {
      if agent in store.links {
        store.SetLink(agent, store.links[agent].(parent := chat));
      } else {
        store.SetLink(agent, Link(chat, env.sessions[agent].title));
      }
    }
    AdoptionKeepsGood(env, before, chat, agent);
  }
}
