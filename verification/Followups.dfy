/** The follow-up inbox: messages waiting for a session, admitted within bounds, and receipts that make every
    command run at most once. A digest stands for what it hashes. Library checks, other tables, and the text
    that stands for a child's report are given as what they yield. */
module Followups {
  import opened Characters
  import opened Options
  import Json
  import Utf8

  const MAX_ID: nat := 200
  const MAX_TEXT: nat := 64 * 1024
  const MAX_ESCAPED: nat := 96 * 1024
  const MAX_ATTACHMENTS: nat := 8
  const MAX_CAPTION: nat := 512
  const MAX_PATH: nat := 4096
  const MAX_IMAGES: nat := 20 * 1024 * 1024
  const MAX_PAYLOAD: nat := MAX_IMAGES + MAX_TEXT
  const MAX_REPORT: nat := 16 * 1024
  const MAX_PENDING: nat := 256
  const MAX_PENDING_BYTES: nat := 64 * 1024 * 1024

  /** What the note on a truncated answer, or the one in place of an answer, adds to a displayed report. */
  const MAX_NOTE: nat := 256

  datatype Attachment =
    | InlineImage(caption: string, mediaType: string, data: seq<Utf8.byte>)
    | LocalFile(caption: string, path: string)
    | Artifact(caption: string)

  datatype Prompt = Prompt(text: string, attachments: seq<Attachment>)

  datatype ReportState = Completed | Failed | Blocker | Question | Unsupported(name: string)

  datatype Command =
    | Enqueue(session: string, id: string, prompt: Prompt)
    | Relay(session: string, id: string, prompt: Prompt, source: string, call: string)
    | AdmitExternalReport(session: string, id: string, child: string, title: string, report: string,
                          state: ReportState, body: string)
    | Remove(session: string, id: string)
    | SetPaused(session: string, paused: bool)
    | OtherCommand(name: string)

  /** What was hashed when a message was admitted: its command, or the text of a child event. */
  datatype Digest = OfCommand(command: Command) | OfText(text: string)

  datatype BatchState = Claimed | Dispatching | Consumed

  /** The batch that a message is in, and how far it is; all messages of a batch are equally far. */
  datatype InBatch = InBatch(id: string, state: BatchState)

  /** A message of some inbox. It is in no batch while it waits. */
  datatype Message = Message(sequence: nat, session: string, id: string, input: Prompt, text: string, payload: nat,
                             digest: Digest, batch: Option<InBatch>, removed: bool)

  datatype Receipt = Receipt(session: string, command: Command, id: Option<string>)

  /** `blocked` are the batches whose delivery is stopped. */
  datatype Inbox = Inbox(messages: seq<Message>, lastSequence: nat, paused: map<string, bool>, blocked: set<string>,
                         receipts: map<string, Receipt>)

  /** What a command finds: whether each session is closed, the images the library accepts, prompts with their
      artifacts filled in, whether a relay is authentic, and how a child's report reads as evidence and on display. */
  datatype Environment = Environment(
    closed: map<string, bool>,
    image: (seq<Utf8.byte>, string) -> bool,
    materialize: Prompt -> Option<Prompt>,
    authentic: bool,
    evidence: Command -> string,
    display: (string, string) -> string)

  /** A displayed report is its body, or the answer decoded from it with a note; and the images of a prompt that
      is filled in have at most 20 MiB together. */
  ghost predicate Sensible(env: Environment) {
    && (forall report, body :: Utf8.ByteLength(env.display(report, body)) <= Utf8.ByteLength(body) + MAX_NOTE)
    && (forall p :: env.materialize(p).Some? ==> ImageBytes(env.materialize(p).value.attachments) <= MAX_IMAGES)
  }

  function ImageBytes(attachments: seq<Attachment>): nat {
    if attachments == [] then 0
    else
      var last := attachments[|attachments| - 1];
      ImageBytes(attachments[..|attachments| - 1]) + if last.InlineImage? then |last.data| else 0
  }

  // ----- what is admitted

  /** At most 200 bytes, not empty, and with no white space at either end. */
  predicate ValidId(id: string) {
    id != "" && Utf8.ByteLength(id) <= MAX_ID && !IsWhitespace(id[0]) && !IsWhitespace(id[|id| - 1])
  }

  predicate Reserved(id: string) {
    "nakode-child-event:" <= id
  }

  predicate Authorized(env: Environment, session: string, requireOpen: bool) {
    ValidId(session) && session in env.closed && (requireOpen ==> !env.closed[session])
  }

  predicate ValidAttachment(env: Environment, a: Attachment) {
    match a
    case InlineImage(caption, mediaType, data) => Utf8.ByteLength(caption) <= MAX_CAPTION && env.image(data, mediaType)
    case LocalFile(caption, path) => Utf8.ByteLength(caption) <= MAX_CAPTION && Utf8.ByteLength(path) <= MAX_PATH
    case Artifact(_) => false
  }

  function AttachmentBytes(a: Attachment): nat {
    match a
    case InlineImage(_, _, data) => |data|
    case LocalFile(caption, path) => Utf8.ByteLength(caption) + Utf8.ByteLength(path)
    case Artifact(_) => 0
  }

  function PromptBytes(text: string, attachments: seq<Attachment>): nat {
    if attachments == [] then Utf8.ByteLength(text)
    else PromptBytes(text, attachments[..|attachments| - 1]) + AttachmentBytes(attachments[|attachments| - 1])
  }

  function Bytes(p: Prompt): nat {
    PromptBytes(p.text, p.attachments)
  }

  lemma {:induction false} ImagesAppend(a: seq<Attachment>, b: seq<Attachment>)
    ensures ImageBytes(a + b) == ImageBytes(a) + ImageBytes(b)
    decreases |b|
  {
    if b == [] {
      assert a + b == a;
    } else {
      ImagesAppend(a, b[..|b| - 1]);
      assert (a + b)[..|a + b| - 1] == a + b[..|b| - 1];
    }
  }

  /** The bytes of a prompt cover its text and its images, and nothing else unless it has local files. */
  lemma {:induction false} BytesCoverImages(text: string, attachments: seq<Attachment>)
    ensures PromptBytes(text, attachments) >= Utf8.ByteLength(text) + ImageBytes(attachments)
    ensures (forall a <- attachments :: !a.LocalFile?) ==>
              PromptBytes(text, attachments) == Utf8.ByteLength(text) + ImageBytes(attachments)
  {
    if attachments != [] {
      BytesCoverImages(text, attachments[..|attachments| - 1]);
    }
  }

  /** The prompt has content, its text fits plain and escaped, and so do its attachments. */
  predicate ValidPrompt(env: Environment, p: Prompt) {
    && Utf8.ByteLength(p.text) <= MAX_TEXT && !(IsBlank(p.text) && p.attachments == [])
    && Utf8.ByteLength(Json.Quoted(p.text)) <= MAX_ESCAPED
    && |p.attachments| <= MAX_ATTACHMENTS && (forall a <- p.attachments :: ValidAttachment(env, a))
    && Bytes(p) <= MAX_PAYLOAD
  }

  /** The checks in order; the bytes that a valid prompt counts. */
  method ValidatePrompt(env: Environment, p: Prompt) returns (bytes: Option<nat>)
    ensures bytes.Some? <==> ValidPrompt(env, p)
    ensures bytes.Some? ==> bytes.value == Bytes(p)
  {
    if Utf8.ByteLength(p.text) > MAX_TEXT || (IsBlank(p.text) && p.attachments == []) {
      return None;
    }
    if Utf8.ByteLength(Json.Quoted(p.text)) > MAX_ESCAPED || |p.attachments| > MAX_ATTACHMENTS {
      return None;
    }
    var total := MeasurePrompt(env, p);
    return if total.None? || total.value > MAX_PAYLOAD then None else total;
  }

  /** Adds the attachments up, unless one of them is not valid. */
  method MeasurePrompt(env: Environment, p: Prompt) returns (total: Option<nat>)
    ensures total.Some? <==> forall a <- p.attachments :: ValidAttachment(env, a)
    ensures total.Some? ==> total.value == Bytes(p)
  {
    var bytes := Utf8.ByteLength(p.text);
    for i := 0 to |p.attachments|
      invariant forall j :: 0 <= j < i ==> ValidAttachment(env, p.attachments[j])
      invariant bytes == PromptBytes(p.text, p.attachments[..i])
    {
      if !ValidAttachment(env, p.attachments[i]) {
        assert p.attachments[i] in p.attachments;
        return None;
      }
      assert p.attachments[..i + 1][..i] == p.attachments[..i];
      bytes := bytes + AttachmentBytes(p.attachments[i]);
    }
    assert p.attachments[..|p.attachments|] == p.attachments;
    return Some(bytes);
  }

  predicate Pending(m: Message, session: string) {
    m.session == session && !m.removed && !Settled(m)
  }

  predicate Settled(m: Message) {
    m.batch.Some? && m.batch.value.state == Consumed
  }

  function PendingCount(messages: seq<Message>, session: string): nat {
    if messages == [] then 0
    else PendingCount(messages[..|messages| - 1], session) + if Pending(messages[|messages| - 1], session) then 1 else 0
  }

  function PendingBytes(messages: seq<Message>, session: string): nat {
    if messages == [] then 0
    else
      var last := messages[|messages| - 1];
      PendingBytes(messages[..|messages| - 1], session) + if Pending(last, session) then last.payload else 0
  }

  predicate HasRoom(t: Inbox, session: string, bytes: nat) {
    PendingCount(t.messages, session) < MAX_PENDING && PendingBytes(t.messages, session) + bytes <= MAX_PENDING_BYTES
  }

  predicate Is(m: Message, session: string, id: string) {
    m.session == session && m.id == id
  }

  predicate Exists(t: Inbox, session: string, id: string) {
    exists i :: 0 <= i < |t.messages| && Is(t.messages[i], session, id)
  }

  predicate ExistsAs(t: Inbox, session: string, id: string, digest: Digest) {
    exists i :: 0 <= i < |t.messages| && Is(t.messages[i], session, id) && t.messages[i].digest == digest
  }

  predicate Takes(env: Environment, t: Inbox, session: string, p: Prompt) {
    ValidPrompt(env, p) && HasRoom(t, session, Bytes(p))
  }

  predicate ReportWellFormed(c: Command)
    requires c.AdmitExternalReport?
  {
    && ValidId(c.child) && ValidId(c.report) && c.child != c.session && !c.state.Unsupported?
    && Utf8.ByteLength(c.body) <= MAX_REPORT
  }

  /** A message is taken once under its identity: a repeated command finds it there, another is refused. */
  predicate Allowed(env: Environment, t: Inbox, c: Command) {
    match c
    case Enqueue(session, id, prompt) =>
      ValidId(id) && !Reserved(id) && Authorized(env, session, true)
      && if Exists(t, session, id) then ExistsAs(t, session, id, OfCommand(c))
         else env.materialize(prompt).Some? && Takes(env, t, session, env.materialize(prompt).value)
    case Relay(session, id, prompt, _, _) =>
      ValidId(id) && !Reserved(id) && Authorized(env, session, true)
      && if Exists(t, session, id) then ExistsAs(t, session, id, OfCommand(c))
         else env.authentic && env.materialize(prompt).Some? && Takes(env, t, session, env.materialize(prompt).value)
    case AdmitExternalReport(session, id, _, _, _, _, _) =>
      ValidId(id) && !Reserved(id) && Authorized(env, session, true) && ReportWellFormed(c)
      && if Exists(t, session, id) then ExistsAs(t, session, id, OfCommand(c))
         else Takes(env, t, session, Prompt(env.evidence(c), []))
    case Remove(session, id) =>
      Authorized(env, session, false) && ValidId(id)
      && exists i :: 0 <= i < |t.messages| && Is(t.messages[i], session, id) && t.messages[i].batch.None?
    case SetPaused(session, _) => Authorized(env, session, true)
    case OtherCommand(_) => false
  }

  function Admitted(t: Inbox, session: string, id: string, p: Prompt, text: string, digest: Digest): Inbox {
    t.(messages := t.messages + [Message(t.lastSequence + 1, session, id, p, text, Bytes(p), digest, None, false)],
       lastSequence := t.lastSequence + 1)
  }

  const NO_PROMPT := Prompt("", [])

  /** The message of an identity loses its content and leaves every view; its row stays. */
  function WithoutText(messages: seq<Message>, session: string, id: string): seq<Message> {
    seq(|messages|, i requires 0 <= i < |messages| =>
      if Is(messages[i], session, id) then messages[i].(input := NO_PROMPT, text := "", payload := 0, removed := true)
      else messages[i])
  }

  /** The batches of a session that are claimed and no further. */
  function ClaimedBatches(messages: seq<Message>, session: string): set<string> {
    set m <- messages | m.session == session && m.batch.Some? && m.batch.value.state == Claimed :: m.batch.value.id
  }

  function Executed(env: Environment, t: Inbox, c: Command): Inbox
    requires Allowed(env, t, c)
  {
    match c
    case Enqueue(session, id, prompt) =>
      if Exists(t, session, id) then t
      else
        var p := env.materialize(prompt).value;
        Admitted(t, session, id, p, p.text, OfCommand(c))
    case Relay(session, id, prompt, _, _) =>
      if Exists(t, session, id) then t
      else
        var p := env.materialize(prompt).value;
        Admitted(t, session, id, p, p.text, OfCommand(c))
    case AdmitExternalReport(session, id, _, _, report, _, body) =>
      if Exists(t, session, id) then t
      else Admitted(t, session, id, Prompt(env.evidence(c), []), env.display(report, body), OfCommand(c))
    case Remove(session, id) => t.(messages := WithoutText(t.messages, session, id))
    case SetPaused(session, paused) =>
      t.(paused := t.paused[session := paused],
         blocked := if paused then t.blocked else t.blocked - ClaimedBatches(t.messages, session))
  }

  function ResultId(c: Command): Option<string> {
    if c.SetPaused? || c.OtherCommand? then None else Some(c.id)
  }

  // ----- one request

  datatype Request = Request(command: Command, key: string, sender: string, replayOnly: bool)

  datatype Reply = Ok(id: Option<string>) | BadIdentity | KeyReused | ReceiptMissing | Refused

  /** A key with a receipt replays its result or is refused. A new key runs its command once, keeps its result,
      and leaves no trace when it is refused. */
  ghost predicate Step(env: Environment, t: Inbox, r: Request, t': Inbox, reply: Reply) {
    if !(ValidId(r.key) && ValidId(r.sender)) then t' == t && reply == BadIdentity
    else if r.key in t.receipts then
      t' == t && reply == if t.receipts[r.key].command == r.command then Ok(t.receipts[r.key].id) else KeyReused
    else if r.replayOnly then t' == t && reply == ReceiptMissing
    else if !Allowed(env, t, r.command) then t' == t && reply == Refused
    else
      && t' == Executed(env, t, r.command).(
                 receipts := t.receipts[r.key := Receipt(r.command.session, r.command, ResultId(r.command))])
      && reply == Ok(ResultId(r.command))
  }

  // ----- what holds of every inbox

  /** The table is in the order of its sequence numbers, from one on; identities are unique, texts are at most
      64 KiB, a removed message is empty and was never claimed, and no session has too much pending. */
  ghost predicate Good(t: Inbox) {
    && Ordered(t.messages, t.lastSequence)
    && Distinct(t.messages)
    && (forall m <- t.messages :: Sound(m))
    && (forall s :: Bounded(t.messages, s))
  }

  predicate Ordered(messages: seq<Message>, last: nat) {
    && (forall i :: 0 <= i < |messages| ==> 1 <= messages[i].sequence <= last)
    && (forall i, j :: 0 <= i < j < |messages| ==> messages[i].sequence < messages[j].sequence)
  }

  predicate Distinct(messages: seq<Message>) {
    forall i, j :: 0 <= i < j < |messages| ==> !Is(messages[j], messages[i].session, messages[i].id)
  }

  predicate Sound(m: Message) {
    && Utf8.ByteLength(m.text) <= MAX_TEXT
    && (m.removed ==> m.text == "" && m.payload == 0 && m.batch.None?)
    && (!m.removed ==> Shaped(m.input) && m.payload == Bytes(m.input))
  }

  /** What admission promises to delivery: escaped text, attachments and payload are bounded. */
  predicate Shaped(p: Prompt) {
    && Utf8.ByteLength(Json.Quoted(p.text)) <= MAX_ESCAPED && |p.attachments| <= MAX_ATTACHMENTS
    && Bytes(p) <= MAX_PAYLOAD && ImageBytes(p.attachments) <= MAX_IMAGES
  }

  predicate Bounded(messages: seq<Message>, session: string) {
    PendingCount(messages, session) <= MAX_PENDING && PendingBytes(messages, session) <= MAX_PENDING_BYTES
  }

  lemma AdmittedGood(env: Environment, t: Inbox, session: string, id: string, p: Prompt, text: string, digest: Digest)
    requires Good(t) && !Exists(t, session, id) && Takes(env, t, session, p) && Utf8.ByteLength(text) <= MAX_TEXT
    requires ImageBytes(p.attachments) <= MAX_IMAGES
    ensures Good(Admitted(t, session, id, p, text, digest))
  {
    var m := Message(t.lastSequence + 1, session, id, p, text, Bytes(p), digest, None, false);
    RowAppended(t, m);
    forall s ensures Bounded(t.messages + [m], s) {
      StaysBounded(t, m, s);
    }
  }

  lemma RowAppended(t: Inbox, m: Message)
    requires Good(t) && !Exists(t, m.session, m.id) && Sound(m) && m.sequence == t.lastSequence + 1
    ensures Ordered(t.messages + [m], m.sequence) && Distinct(t.messages + [m])
    ensures forall other <- t.messages + [m] :: Sound(other)
  {
  }

  lemma StaysBounded(t: Inbox, m: Message, session: string)
    requires Good(t) && HasRoom(t, m.session, m.payload)
    ensures Bounded(t.messages + [m], session)
  {
    assert Bounded(t.messages, session);
    PendingAppend(t.messages, m, session);
  }

  lemma PendingAppend(messages: seq<Message>, m: Message, session: string)
    ensures PendingCount(messages + [m], session)
         == PendingCount(messages, session) + if Pending(m, session) then 1 else 0
    ensures PendingBytes(messages + [m], session)
         == PendingBytes(messages, session) + if Pending(m, session) then m.payload else 0
  {
    assert (messages + [m])[..|messages|] == messages;
  }

  /** Messages that stay where they are, none of them newly pending or larger. */
  ghost predicate NoMore(messages: seq<Message>, after: seq<Message>) {
    && |after| == |messages|
    && forall i :: 0 <= i < |messages| ==>
         && after[i].sequence == messages[i].sequence
         && after[i].session == messages[i].session && after[i].id == messages[i].id
         && after[i].payload <= messages[i].payload
         && (Pending(after[i], after[i].session) ==> Pending(messages[i], messages[i].session))
  }

  lemma {:induction false} NoMorePending(messages: seq<Message>, after: seq<Message>, session: string)
    requires NoMore(messages, after)
    ensures PendingCount(after, session) <= PendingCount(messages, session)
    ensures PendingBytes(after, session) <= PendingBytes(messages, session)
  {
    if messages != [] {
      var n := |messages| - 1;
      assert NoMore(messages[..n], after[..n]);
      NoMorePending(messages[..n], after[..n], session);
    }
  }

  lemma NoMoreGood(t: Inbox, after: seq<Message>)
    requires Good(t) && NoMore(t.messages, after) && forall m <- after :: Sound(m)
    ensures Good(t.(messages := after))
  {
    forall s ensures Bounded(after, s) {
      NoMorePending(t.messages, after, s);
      assert Bounded(t.messages, s);
    }
  }

  lemma RemovedGood(t: Inbox, session: string, id: string)
    requires Good(t) && exists i :: 0 <= i < |t.messages| && Is(t.messages[i], session, id) && t.messages[i].batch.None?
    ensures Good(t.(messages := WithoutText(t.messages, session, id)))
  {
    var after := WithoutText(t.messages, session, id);
    var i :| 0 <= i < |t.messages| && Is(t.messages[i], session, id) && t.messages[i].batch.None?;
    forall m | m in after ensures Sound(m) {
      var j :| 0 <= j < |after| && after[j] == m;
      assert Sound(t.messages[j]);
      if j != i {
        assert !Is(t.messages[j], session, id);
      }
    }
    NoMoreGood(t, after);
  }

  lemma ExecutedGood(env: Environment, t: Inbox, c: Command)
    requires Good(t) && Sensible(env) && Allowed(env, t, c)
    ensures Good(Executed(env, t, c))
  {
    match c
    case Enqueue(session, id, prompt) =>
      if !Exists(t, session, id) {
        var p := env.materialize(prompt).value;
        AdmittedGood(env, t, session, id, p, p.text, OfCommand(c));
      }
    case Relay(session, id, prompt, _, _) =>
      if !Exists(t, session, id) {
        var p := env.materialize(prompt).value;
        AdmittedGood(env, t, session, id, p, p.text, OfCommand(c));
      }
    case AdmitExternalReport(session, id, _, _, report, _, body) =>
      if !Exists(t, session, id) {
        AdmittedGood(env, t, session, id, Prompt(env.evidence(c), []), env.display(report, body), OfCommand(c));
      }
    case Remove(session, id) => RemovedGood(t, session, id);
    case SetPaused(_, _) =>
  }

  lemma ReceiptsGood(t: Inbox, receipts: map<string, Receipt>)
    requires Good(t)
    ensures Good(t.(receipts := receipts))
  {
  }

  // ----- what the runtime does to the inbox by itself

  /** An event of a linked child: its report as evidence and on display, under an identity of the runtime. */
  datatype ChildEvent = ChildEvent(parent: string, id: string, evidence: string, display: string)

  /** Terminal answers are cut to 12 KiB and other reports have at most 16 KiB, so what is displayed of an event
      is no longer than a report with its note. */
  predicate SensibleEvent(e: ChildEvent) {
    Reserved(e.id) && Utf8.ByteLength(e.display) <= MAX_REPORT + MAX_NOTE
  }

  predicate Unsettled(m: Message, session: string) {
    m.session == session && m.batch.Some? && !Settled(m)
  }

  predicate Waiting(m: Message, session: string) {
    m.session == session && m.batch.None? && !m.removed
  }

  /** A new batch of a session that is not paused and has no unsettled one, up to a message that waits. */
  ghost predicate Claimable(t: Inbox, session: string, id: string, cutoff: nat) {
    && !Paused(t, session)
    && (forall m <- t.messages :: !Unsettled(m, session))
    && (forall m <- t.messages :: m.batch.Some? ==> m.batch.value.id != id)
    && (exists m <- t.messages :: Waiting(m, session) && m.sequence == cutoff)
  }

  predicate Paused(t: Inbox, session: string) {
    session in t.paused && t.paused[session]
  }

  predicate IsClaimed(messages: seq<Message>, id: string) {
    exists m <- messages :: m.batch == Some(InBatch(id, Claimed))
  }

  /** Every message that waits is claimed, up to the cutoff. */
  function ClaimedUpTo(messages: seq<Message>, session: string, id: string, cutoff: nat): seq<Message> {
    seq(|messages|, i requires 0 <= i < |messages| =>
      if Waiting(messages[i], session) && messages[i].sequence <= cutoff
      then messages[i].(batch := Some(InBatch(id, Claimed))) else messages[i])
  }

  /** The batch is now `to`, if it is the session's and was `from`. */
  function InState(messages: seq<Message>, session: string, id: string, from: BatchState, to: BatchState)
    : seq<Message>
  {
    seq(|messages|, i requires 0 <= i < |messages| =>
      if messages[i].session == session && messages[i].batch == Some(InBatch(id, from))
      then messages[i].(batch := Some(InBatch(id, to))) else messages[i])
  }

  /** A batch is claimed, then dispatched, then consumed; a message that was claimed stays in its batch. */
  ghost predicate Progressed(messages: seq<Message>, after: seq<Message>) {
    && |after| == |messages|
    && forall i :: 0 <= i < |messages| ==> Progress(messages[i], after[i])
  }

  predicate Progress(m: Message, m': Message) {
    && m' == m.(batch := m'.batch)
    && (m.removed ==> m' == m)
    && Further(m, m')
  }

  predicate Further(m: Message, m': Message) {
    m.batch.Some? ==>
      && m'.batch.Some? && m'.batch.value.id == m.batch.value.id
      && Rank(m.batch.value.state) <= Rank(m'.batch.value.state)
  }

  function Rank(state: BatchState): nat {
    match state
    case Claimed => 0
    case Dispatching => 1
    case Consumed => 2
  }

  datatype Event =
    | Requested(env: Environment, request: Request, reply: Reply)
    | ChildReported(env: Environment, event: ChildEvent)
    | BatchClaimed(session: string, id: string, cutoff: nat)
    | BatchBlocked(id: string)
    | BatchFenced(session: string, id: string)
    | BatchAcknowledged(session: string, id: string)

  ghost predicate Happened(t: Inbox, e: Event, t': Inbox) {
    match e
    case Requested(env, request, reply) => Sensible(env) && Step(env, t, request, t', reply)
    case ChildReported(env, event) =>
      SensibleEvent(event)
      && t' == if !Exists(t, event.parent, event.id) && Takes(env, t, event.parent, Prompt(event.evidence, []))
               then Admitted(t, event.parent, event.id, Prompt(event.evidence, []), event.display,
                             OfText(event.evidence))
               else t
    case BatchClaimed(session, id, cutoff) =>
      Claimable(t, session, id, cutoff) && t' == t.(messages := ClaimedUpTo(t.messages, session, id, cutoff))
    case BatchBlocked(id) =>
      t' == if IsClaimed(t.messages, id) then t.(blocked := t.blocked + {id}) else t
    case BatchFenced(session, id) =>
      id !in t.blocked && t' == t.(messages := InState(t.messages, session, id, Claimed, Dispatching))
    case BatchAcknowledged(session, id) =>
      t' == t.(messages := InState(t.messages, session, id, Dispatching, Consumed))
  }

  ghost predicate IsRun(states: seq<Inbox>, run: seq<Event>) {
    && |states| == |run| + 1
    && forall i :: 0 <= i < |run| ==> Happened(states[i], run[i], states[i + 1])
  }

  lemma ProgressGood(t: Inbox, after: seq<Message>)
    requires Good(t) && Progressed(t.messages, after)
    ensures Good(t.(messages := after))
  {
    assert forall i :: 0 <= i < |after| ==> Progress(t.messages[i], after[i]);
    forall m | m in after ensures Sound(m) {
      var j :| 0 <= j < |after| && after[j] == m;
      assert Sound(t.messages[j]);
    }
    NoMoreGood(t, after);
  }

  lemma ClaimProgresses(messages: seq<Message>, session: string, id: string, cutoff: nat)
    ensures Progressed(messages, ClaimedUpTo(messages, session, id, cutoff))
  {
  }

  lemma StateProgresses(messages: seq<Message>, session: string, id: string, from: BatchState, to: BatchState)
    requires Rank(from) <= Rank(to) && forall m <- messages :: Sound(m)
    ensures Progressed(messages, InState(messages, session, id, from, to))
  {
    forall i | 0 <= i < |messages| ensures Progress(messages[i], InState(messages, session, id, from, to)[i]) {
      assert Sound(messages[i]);
    }
  }

  lemma EventKeepsGood(t: Inbox, e: Event, t': Inbox)
    requires Good(t) && Happened(t, e, t')
    ensures Good(t')
  {
    match e
    case Requested(env, request, reply) =>
      if t' != t {
        ExecutedGood(env, t, request.command);
        ReceiptsGood(Executed(env, t, request.command), t'.receipts);
      }
    case ChildReported(env, event) =>
      if t' != t {
        var prompt := Prompt(event.evidence, []);
        AdmittedGood(env, t, event.parent, event.id, prompt, event.display, OfText(event.evidence));
      }
    case BatchClaimed(session, id, cutoff) =>
      ClaimProgresses(t.messages, session, id, cutoff);
      ProgressGood(t, t'.messages);
    case BatchBlocked(_) =>
    case BatchFenced(session, id) =>
      StateProgresses(t.messages, session, id, Claimed, Dispatching);
      ProgressGood(t, t'.messages);
    case BatchAcknowledged(session, id) =>
      StateProgresses(t.messages, session, id, Dispatching, Consumed);
      ProgressGood(t, t'.messages);
  }

  /** Every inbox of a run is good. */
  lemma {:induction false} RunKeepsGood(states: seq<Inbox>, run: seq<Event>, i: nat)
    requires IsRun(states, run) && Good(states[0]) && i <= |run|
    ensures Good(states[i])
  {
    if i > 0 {
      RunKeepsGood(states, run, i - 1);
      EventKeepsGood(states[i - 1], run[i - 1], states[i]);
    }
  }

  // ----- what never changes

  /** A message keeps its place, identity and digest; only a removal changes its text; a removed message stays
      removed, and one in a batch stays in it and never goes back. */
  predicate SameMessage(m: Message, m': Message) {
    && m'.sequence == m.sequence && m'.session == m.session && m'.id == m.id && m'.digest == m.digest
    && ((m'.input == m.input && m'.text == m.text) || m'.removed)
    && (m.removed ==> m'.removed)
    && Further(m, m')
  }

  /** The inbox only grows: messages stay where they are, and receipts stay as they are. */
  ghost predicate Grown(t: Inbox, t': Inbox) {
    && |t.messages| <= |t'.messages|
    && (forall i :: 0 <= i < |t.messages| ==> SameMessage(t.messages[i], t'.messages[i]))
    && (forall k <- t.receipts :: k in t'.receipts && t'.receipts[k] == t.receipts[k])
  }

  lemma AdmittedGrows(t: Inbox, session: string, id: string, p: Prompt, text: string, digest: Digest)
    ensures Grown(t, Admitted(t, session, id, p, text, digest))
  {
  }

  lemma RemovedGrows(t: Inbox, session: string, id: string)
    ensures Grown(t, t.(messages := WithoutText(t.messages, session, id)))
  {
  }

  lemma ClaimGrows(t: Inbox, session: string, id: string, cutoff: nat)
    ensures Grown(t, t.(messages := ClaimedUpTo(t.messages, session, id, cutoff)))
  {
  }

  lemma StateGrows(t: Inbox, session: string, id: string, from: BatchState, to: BatchState)
    requires Rank(from) <= Rank(to)
    ensures Grown(t, t.(messages := InState(t.messages, session, id, from, to)))
  {
  }

  lemma ExecutedGrows(env: Environment, t: Inbox, c: Command)
    requires Allowed(env, t, c)
    ensures Grown(t, Executed(env, t, c)) && Executed(env, t, c).receipts == t.receipts
  {
    match c
    case Enqueue(session, id, prompt) =>
      if !Exists(t, session, id) {
        var p := env.materialize(prompt).value;
        AdmittedGrows(t, session, id, p, p.text, OfCommand(c));
      }
    case Relay(session, id, prompt, _, _) =>
      if !Exists(t, session, id) {
        var p := env.materialize(prompt).value;
        AdmittedGrows(t, session, id, p, p.text, OfCommand(c));
      }
    case AdmitExternalReport(session, id, _, _, report, _, body) =>
      if !Exists(t, session, id) {
        AdmittedGrows(t, session, id, Prompt(env.evidence(c), []), env.display(report, body), OfCommand(c));
      }
    case Remove(session, id) => RemovedGrows(t, session, id);
    case SetPaused(_, _) =>
  }

  lemma RequestGrows(env: Environment, t: Inbox, r: Request, t': Inbox, reply: Reply)
    requires Step(env, t, r, t', reply)
    ensures Grown(t, t')
  {
    if t' == t {
      GrownReflexive(t);
    } else {
      ExecutedGrows(env, t, r.command);
      ReceiptGrows(t, Executed(env, t, r.command), r.key, Receipt(r.command.session, r.command, ResultId(r.command)));
    }
  }

  lemma ReceiptGrows(t: Inbox, t': Inbox, key: string, receipt: Receipt)
    requires Grown(t, t') && key !in t.receipts
    ensures Grown(t, t'.(receipts := t'.receipts[key := receipt]))
  {
  }

  lemma EventGrows(t: Inbox, e: Event, t': Inbox)
    requires Happened(t, e, t')
    ensures Grown(t, t')
  {
    match e
    case Requested(env, request, reply) => RequestGrows(env, t, request, t', reply);
    case ChildReported(env, event) =>
      if t' != t {
        AdmittedGrows(t, event.parent, event.id, Prompt(event.evidence, []), event.display, OfText(event.evidence));
      }
    case BatchClaimed(session, id, cutoff) => ClaimGrows(t, session, id, cutoff);
    case BatchBlocked(_) => GrownReflexive(t);
    case BatchFenced(session, id) => StateGrows(t, session, id, Claimed, Dispatching);
    case BatchAcknowledged(session, id) => StateGrows(t, session, id, Dispatching, Consumed);
  }

  lemma GrownTransitive(a: Inbox, b: Inbox, c: Inbox)
    requires Grown(a, b) && Grown(b, c)
    ensures Grown(a, c)
  {
    forall i | 0 <= i < |a.messages| ensures SameMessage(a.messages[i], c.messages[i]) {
      assert SameMessage(a.messages[i], b.messages[i]) && SameMessage(b.messages[i], c.messages[i]);
    }
  }

  lemma GrownReflexive(t: Inbox)
    ensures Grown(t, t)
  {
  }

  lemma {:induction false} RunGrows(states: seq<Inbox>, run: seq<Event>, i: nat, j: nat)
    requires IsRun(states, run) && i <= j <= |run|
    ensures Grown(states[i], states[j])
  {
    if i == j {
      GrownReflexive(states[i]);
    } else {
      RunGrows(states, run, i, j - 1);
      EventGrows(states[j - 1], run[j - 1], states[j]);
      GrownTransitive(states[i], states[j - 1], states[j]);
    }
  }

  /** Once a command was accepted under a key, every later request with that key from a valid sender leaves
      the inbox alone. The same command is told the same result, even by a client that only asks for a replay
      and whatever the command would do now; any other command is refused. */
  lemma AcceptedOnce(states: seq<Inbox>, run: seq<Event>, i: nat, j: nat)
    requires IsRun(states, run) && i < j < |run| && run[i].Requested? && run[j].Requested?
    requires run[i].reply.Ok? && run[i].request.key == run[j].request.key && ValidId(run[j].request.sender)
    ensures states[j + 1] == states[j]
    ensures run[j].reply == if run[j].request.command == run[i].request.command then run[i].reply else KeyReused
  {
    assert Happened(states[i], run[i], states[i + 1]) && Happened(states[j], run[j], states[j + 1]);
    assert run[i].request.key in states[i + 1].receipts;
    RunGrows(states, run, i + 1, j);
  }

  /** A message is never admitted twice: under its session and identity an inbox holds at most one, whatever
      keys its command was sent with, and a removed one never comes back. */
  lemma NeverResurrected(states: seq<Inbox>, run: seq<Event>, i: nat, j: nat, n: nat, m: nat)
    requires IsRun(states, run) && Good(states[0]) && i <= j <= |run|
    requires n < |states[i].messages| && states[i].messages[n].removed
    requires m < |states[j].messages|
             && Is(states[j].messages[m], states[i].messages[n].session, states[i].messages[n].id)
    ensures m == n && states[j].messages[m].removed && states[j].messages[m].text == ""
  {
    RunGrows(states, run, i, j);
    RunKeepsGood(states, run, j);
    assert SameMessage(states[i].messages[n], states[j].messages[n]);
    assert Is(states[j].messages[n], states[i].messages[n].session, states[i].messages[n].id);
    assert Sound(states[j].messages[m]);
  }

  // ----- what a command and an event do, said of the rows

  predicate Admits(c: Command) {
    c.Enqueue? || c.Relay? || c.AdmitExternalReport?
  }

  /** One message more, behind all the others: it waits, with this content. Nothing else changed. */
  ghost predicate Appended(t: Inbox, t': Inbox, session: string, id: string, p: Prompt, text: string, digest: Digest) {
    var n := |t.messages|;
    && |t'.messages| == n + 1
    && (forall i :: 0 <= i < n ==> t'.messages[i] == t.messages[i])
    && var m := t'.messages[n];
       && m.session == session && m.id == id && m.input == p && m.text == text && m.payload == Bytes(p)
       && m.digest == digest && m.batch.None? && !m.removed
       && t.lastSequence < m.sequence == t'.lastSequence
       && t'.paused == t.paused && t'.blocked == t.blocked && t'.receipts == t.receipts
  }

  /** The message says what the command says: a prompt as it was filled in, a report as evidence and on display. */
  predicate Carries(env: Environment, c: Command, m: Message)
    requires Admits(c)
  {
    && Is(m, c.session, c.id) && m.digest == OfCommand(c) && m.payload == Bytes(m.input)
    && match c
       case AdmitExternalReport(_, _, _, _, report, _, body) =>
         m.input == Prompt(env.evidence(c), []) && m.text == env.display(report, body)
       case Enqueue(_, _, prompt) => env.materialize(prompt) == Some(m.input) && m.text == m.input.text
       case Relay(_, _, prompt, _, _) => env.materialize(prompt) == Some(m.input) && m.text == m.input.text
  }

  /** What an accepted follow-up leaves: its message behind the others, waiting; or nothing new when it was taken
      before, by the same command. */
  ghost predicate FollowUpTaken(env: Environment, t: Inbox, c: Command, t': Inbox)
    requires Admits(c)
  {
    if Exists(t, c.session, c.id) then
      t'.messages == t.messages && t'.lastSequence == t.lastSequence && ExistsAs(t, c.session, c.id, OfCommand(c))
    else
      && |t'.messages| == |t.messages| + 1
      && (forall i :: 0 <= i < |t.messages| ==> t'.messages[i] == t.messages[i])
      && Carries(env, c, t'.messages[|t.messages|])
      && Waiting(t'.messages[|t.messages|], c.session)
      && t.lastSequence < t'.messages[|t.messages|].sequence == t'.lastSequence
  }

  /** The message is what is left of the other after its removal: its row without content. */
  predicate Emptied(m: Message, m': Message) {
    && m'.sequence == m.sequence && m'.session == m.session && m'.id == m.id && m'.digest == m.digest
    && m'.batch == m.batch && m'.removed && m'.input == NO_PROMPT && m'.text == "" && m'.payload == 0
  }

  ghost predicate MessageRemoved(t: Inbox, session: string, id: string, t': Inbox) {
    && |t'.messages| == |t.messages| && t'.lastSequence == t.lastSequence
    && forall i :: 0 <= i < |t.messages| ==>
         if Is(t.messages[i], session, id) then Emptied(t.messages[i], t'.messages[i])
         else t'.messages[i] == t.messages[i]
  }

  /** Resuming lets go of the claimed batches of the session that were stopped, and of no other. */
  ghost predicate PauseSet(t: Inbox, session: string, paused: bool, t': Inbox) {
    && t'.messages == t.messages && t'.lastSequence == t.lastSequence
    && (Paused(t', session) <==> paused)
    && (forall other :: other != session ==> (Paused(t', other) <==> Paused(t, other)))
    && (forall b :: b in t'.blocked <==> b in t.blocked && (paused || !ClaimedBy(t.messages, session, b)))
  }

  ghost predicate ClaimedBy(messages: seq<Message>, session: string, batch: string) {
    exists m <- messages :: m.session == session && m.batch == Some(InBatch(batch, Claimed))
  }

  /** What a command that is carried out does to the rows. */
  ghost predicate CarriedOut(env: Environment, t: Inbox, c: Command, t': Inbox) {
    match c
    case Remove(session, id) => MessageRemoved(t, session, id, t') && t'.paused == t.paused && t'.blocked == t.blocked
    case SetPaused(session, paused) => PauseSet(t, session, paused, t')
    case OtherCommand(_) => false
    case _ => FollowUpTaken(env, t, c, t') && t'.paused == t.paused && t'.blocked == t.blocked
  }

  lemma ExecutedIsCarriedOut(env: Environment, t: Inbox, c: Command)
    requires Allowed(env, t, c)
    ensures CarriedOut(env, t, c, Executed(env, t, c)) && Executed(env, t, c).receipts == t.receipts
  {
    match c
    case SetPaused(session, paused) => PauseIsSet(env, t, session, paused);
    case Remove(_, _) =>
    case OtherCommand(_) =>
    case _ => FollowUpIsTaken(env, t, c);
  }

  lemma FollowUpIsTaken(env: Environment, t: Inbox, c: Command)
    requires Admits(c) && Allowed(env, t, c)
    ensures FollowUpTaken(env, t, c, Executed(env, t, c))
  {
  }

  lemma PauseIsSet(env: Environment, t: Inbox, session: string, paused: bool)
    requires Allowed(env, t, SetPaused(session, paused))
    ensures PauseSet(t, session, paused, Executed(env, t, SetPaused(session, paused)))
  {
    forall b ensures b in ClaimedBatches(t.messages, session) <==> ClaimedBy(t.messages, session, b) {
      if ClaimedBy(t.messages, session, b) {
        var m :| m in t.messages && m.session == session && m.batch == Some(InBatch(b, Claimed));
        assert m.batch.value.id in ClaimedBatches(t.messages, session);
      }
    }
  }

  // ----- what was accepted is there

  /** A command that was accepted under this key took its follow-up. */
  ghost predicate Honoured(t: Inbox, key: string)
    requires key in t.receipts
  {
    var c := t.receipts[key].command;
    Admits(c) ==> ExistsAs(t, c.session, c.id, OfCommand(c)) && t.receipts[key].id == Some(c.id)
  }

  /** Every follow-up that was accepted is in the inbox. */
  ghost predicate Backed(t: Inbox) {
    forall k <- t.receipts :: Honoured(t, k)
  }

  lemma ThereLater(t: Inbox, t': Inbox, session: string, id: string, digest: Digest)
    requires Grown(t, t') && ExistsAs(t, session, id, digest)
    ensures ExistsAs(t', session, id, digest)
  {
    var i :| 0 <= i < |t.messages| && Is(t.messages[i], session, id) && t.messages[i].digest == digest;
    assert SameMessage(t.messages[i], t'.messages[i]);
  }

  lemma HonouredLater(t: Inbox, t': Inbox, key: string)
    requires Grown(t, t') && key in t.receipts && Honoured(t, key)
    ensures key in t'.receipts && Honoured(t', key)
  {
    var c := t.receipts[key].command;
    if Admits(c) {
      ThereLater(t, t', c.session, c.id, OfCommand(c));
    }
  }

  lemma AcceptedHonoured(env: Environment, t: Inbox, r: Request, t': Inbox)
    requires Step(env, t, r, t', Ok(ResultId(r.command))) && r.key !in t.receipts
    ensures r.key in t'.receipts && Honoured(t', r.key)
    ensures t'.receipts.Keys == t.receipts.Keys + {r.key}
  {
    var c := r.command;
    if Admits(c) {
      FollowUpIsTaken(env, t, c);
      if !Exists(t, c.session, c.id) {
        assert Carries(env, c, t'.messages[|t.messages|]);
      }
    }
  }

  lemma EventKeepsBacked(t: Inbox, e: Event, t': Inbox)
    requires Backed(t) && Happened(t, e, t')
    ensures Backed(t')
  {
    EventGrows(t, e, t');
    forall k | k in t'.receipts ensures Honoured(t', k) {
      if k in t.receipts {
        HonouredLater(t, t', k);
      } else {
        assert e.Requested? && k == e.request.key;
        AcceptedHonoured(e.env, t, e.request, t');
      }
    }
  }

  lemma {:induction false} RunKeepsBacked(states: seq<Inbox>, run: seq<Event>, i: nat)
    requires IsRun(states, run) && Backed(states[0]) && i <= |run|
    ensures Backed(states[i])
  {
    if i > 0 {
      RunKeepsBacked(states, run, i - 1);
      EventKeepsBacked(states[i - 1], run[i - 1], states[i]);
    }
  }

  /** A follow-up that was accepted, now or before, is in every later inbox, under its session and identity and
      with the digest of its command. */
  lemma AcceptedIsThere(states: seq<Inbox>, run: seq<Event>, i: nat, j: nat)
    requires IsRun(states, run) && Backed(states[0]) && i < j <= |run|
    requires run[i].Requested? && run[i].reply.Ok? && Admits(run[i].request.command)
    ensures var c := run[i].request.command;
            ExistsAs(states[j], c.session, c.id, OfCommand(c)) && run[i].reply == Ok(Some(c.id))
  {
    var request := run[i].request;
    assert Happened(states[i], run[i], states[i + 1]);
    RunKeepsBacked(states, run, i + 1);
    assert request.key in states[i + 1].receipts && Honoured(states[i + 1], request.key);
    RunGrows(states, run, i + 1, j);
    ThereLater(states[i + 1], states[j], request.command.session, request.command.id, OfCommand(request.command));
  }

  /** An accepted request to remove this message. */
  predicate Removes(e: Event, session: string, id: string) {
    e.Requested? && e.reply.Ok? && e.request.command == Remove(session, id)
  }

  /** Nothing else takes a message away or changes its content. */
  lemma KeptUnlessRemoved(t: Inbox, e: Event, t': Inbox, n: nat)
    requires Happened(t, e, t') && n < |t.messages| && !t.messages[n].removed
    requires !Removes(e, t.messages[n].session, t.messages[n].id)
    ensures n < |t'.messages| && t'.messages[n] == t.messages[n].(batch := t'.messages[n].batch)
  {
    match e
    case Requested(env, request, _) =>
      if t' != t {
        ExecutedIsCarriedOut(env, t, request.command);
      }
    case ChildReported(_, _) => ChildEventIsTaken(t, e, t');
    case BatchClaimed(session, id, cutoff) =>
    case BatchBlocked(_) =>
    case BatchFenced(session, id) =>
    case BatchAcknowledged(session, id) =>
  }

  /** A message stays as it is, but for its batch, until an accepted request removes it. */
  lemma {:induction false} KeptUntilRemoved(states: seq<Inbox>, run: seq<Event>, i: nat, j: nat, n: nat)
    requires IsRun(states, run) && i <= j <= |run| && n < |states[i].messages| && !states[i].messages[n].removed
    requires forall k :: i <= k < j ==> !Removes(run[k], states[i].messages[n].session, states[i].messages[n].id)
    ensures n < |states[j].messages|
            && states[j].messages[n] == states[i].messages[n].(batch := states[j].messages[n].batch)
  {
    if i < j {
      KeptUntilRemoved(states, run, i, j - 1, n);
      KeptUnlessRemoved(states[j - 1], run[j - 1], states[j], n);
    }
  }

  /** A follow-up that is accepted for the first time stands behind all the others and waits, with the content of
      its command; it stays there, with this content, until it is removed by a request. */
  lemma NewFollowUpStays(states: seq<Inbox>, run: seq<Event>, i: nat, j: nat)
    requires IsRun(states, run) && i < j <= |run|
    requires run[i].Requested? && run[i].reply.Ok? && Admits(run[i].request.command)
    requires run[i].request.key !in states[i].receipts
    requires var c := run[i].request.command;
             !Exists(states[i], c.session, c.id) && forall k :: i < k < j ==> !Removes(run[k], c.session, c.id)
    ensures var n := |states[i].messages|;
            && n < |states[j].messages|
            && Carries(run[i].env, run[i].request.command, states[j].messages[n])
            && !states[j].messages[n].removed
            && (j == i + 1 ==> states[j].messages[n].batch.None?)
            && states[j].messages[n].sequence > states[i].lastSequence
  {
    var c := run[i].request.command;
    assert Happened(states[i], run[i], states[i + 1]);
    FollowUpIsTaken(run[i].env, states[i], c);
    KeptUntilRemoved(states, run, i + 1, j, |states[i].messages|);
  }

  /** The report of a child that has no message yet and fits stands behind all the others and waits; any other
      leaves the inbox as it is. */
  lemma ChildEventIsTaken(t: Inbox, e: Event, t': Inbox)
    requires e.ChildReported? && Happened(t, e, t')
    ensures var p := Prompt(e.event.evidence, []);
            if !Exists(t, e.event.parent, e.event.id) && Takes(e.env, t, e.event.parent, p)
            then Appended(t, t', e.event.parent, e.event.id, p, e.event.display, OfText(e.event.evidence))
            else t' == t
  {
  }

  // ----- the store

  class InboxStore {
    var messages: seq<Message>
    var lastSequence: nat
    var paused: map<string, bool>
    var blocked: set<string>
    var receipts: map<string, Receipt>

    function Current(): Inbox
      reads this
    {
      Inbox(messages, lastSequence, paused, blocked, receipts)
    }

    constructor ()
      ensures Good(Current()) && Backed(Current()) && Current() == Inbox([], 0, map[], {}, map[])
    {
      messages, lastSequence, paused, blocked, receipts := [], 0, map[], {}, map[];
    }

    /** The message of an identity. */
    method Find(session: string, id: string) returns (found: Option<nat>)
      requires Good(Current())
      ensures found.Some? <==> Exists(Current(), session, id)
      ensures found.Some? ==> found.value < |messages| && Is(messages[found.value], session, id)
    {
      found := None;
      for i := 0 to |messages|
        invariant found.Some? <==> exists j :: 0 <= j < i && Is(messages[j], session, id)
        invariant found.Some? ==> found.value < |messages| && Is(messages[found.value], session, id)
      {
        if Is(messages[i], session, id) {
          found := Some(i);
        }
      }
    }

    /** Whether a message is there already; an error when its identity was used for something else. */
    method MessageExists(session: string, id: string, digest: Digest) returns (there: Option<bool>)
      requires Good(Current())
      ensures there == if !Exists(Current(), session, id) then Some(false)
                       else if ExistsAs(Current(), session, id, digest) then Some(true) else None
    {
      var found := Find(session, id);
      if found.None? {
        return Some(false);
      }
      OneIdentity(Current(), found.value);
      return if messages[found.value].digest == digest then Some(true) else None;
    }

    method AdmitMessage(env: Environment, session: string, id: string, p: Prompt, text: string, digest: Digest)
      returns (taken: bool)
      modifies this`messages, this`lastSequence
      ensures taken <==> Takes(env, old(Current()), session, p)
      ensures Current() == if taken then Admitted(old(Current()), session, id, p, text, digest) else old(Current())
      ensures taken ==> Appended(old(Current()), Current(), session, id, p, text, digest)
    {
      var bytes := ValidatePrompt(env, p);
      if bytes.None? {
        return false;
      }
      var count, pending := PendingCount(messages, session), PendingBytes(messages, session);
      if count >= MAX_PENDING || pending + bytes.value > MAX_PENDING_BYTES {
        return false;
      }
      lastSequence := lastSequence + 1;
      messages := messages + [Message(lastSequence, session, id, p, text, bytes.value, digest, None, false)];
      return true;
    }

    /** Takes a follow-up under its identity, unless it is there already. */
    method Take(env: Environment, command: Command, p: Option<Prompt>, text: string) returns (done: bool)
      requires Good(Current()) && (command.Enqueue? || command.Relay? || command.AdmitExternalReport?)
      modifies this`messages, this`lastSequence
      ensures var t := old(Current());
              var there := Exists(t, command.session, command.id);
              && (done <==> if there then ExistsAs(t, command.session, command.id, OfCommand(command))
                            else p.Some? && Takes(env, t, command.session, p.value))
              && (done && !there ==>
                    Appended(t, Current(), command.session, command.id, p.value, text, OfCommand(command)))
              && Current() == if done && !there
                              then Admitted(t, command.session, command.id, p.value, text, OfCommand(command))
                              else t
    {
      var there := MessageExists(command.session, command.id, OfCommand(command));
      if there.None? {
        return false;
      }
      if there.value {
        return true;
      }
      if p.None? {
        return false;
      }
      done := AdmitMessage(env, command.session, command.id, p.value, text, OfCommand(command));
    }

    /** Removes a message that no batch has claimed. */
    method RemovePending(env: Environment, session: string, id: string) returns (done: bool)
      requires Good(Current())
      modifies this`messages
      ensures done <==> Allowed(env, old(Current()), Remove(session, id))
      ensures messages == if done then WithoutText(old(messages), session, id) else old(messages)
    {
      if !Authorized(env, session, false) || !ValidId(id) {
        return false;
      }
      var found := Find(session, id);
      if found.None? {
        return false;
      }
      OneIdentity(Current(), found.value);
      var i := found.value;
      if messages[i].batch.Some? {
        return false;
      }
      messages := messages[i := messages[i].(input := NO_PROMPT, text := "", payload := 0, removed := true)];
      assert messages == WithoutText(old(messages), session, id);
      return true;
    }

    method Run(env: Environment, command: Command) returns (done: bool)
      requires Good(Current())
      modifies this`messages, this`lastSequence, this`paused, this`blocked
      ensures done <==> Allowed(env, old(Current()), command)
      ensures Current() == if done then Executed(env, old(Current()), command) else old(Current())
    {
      match command
      case Enqueue(session, id, prompt) =>
        if !ValidId(id) || Reserved(id) || !Authorized(env, session, true) {
          return false;
        }
        var p := env.materialize(prompt);
        done := Take(env, command, p, if p.Some? then p.value.text else "");
      case Relay(session, id, prompt, _, _) =>
        if !ValidId(id) || Reserved(id) || !Authorized(env, session, true) {
          return false;
        }
        var p := if env.authentic then env.materialize(prompt) else None;
        done := Take(env, command, p, if p.Some? then p.value.text else "");
      case AdmitExternalReport(session, id, _, _, report, _, body) =>
        if !ValidId(id) || Reserved(id) || !Authorized(env, session, true) || !ReportWellFormed(command) {
          return false;
        }
        done := Take(env, command, Some(Prompt(env.evidence(command), [])), env.display(report, body));
      case Remove(session, id) =>
        done := RemovePending(env, session, id);
      case SetPaused(session, value) =>
        if !Authorized(env, session, true) {
          return false;
        }
        paused := paused[session := value];
        blocked := if value then blocked else blocked - ClaimedBatches(messages, session);
        return true;
      case OtherCommand(_) =>
        return false;
    }

    /** Runs a request's command at most once for its key, and keeps its receipt. */
    method ExecuteAuthenticated(env: Environment, r: Request) returns (reply: Reply)
      requires Good(Current()) && Sensible(env)
      modifies this
      ensures Step(env, old(Current()), r, Current(), reply)
      ensures Good(Current())
      ensures reply.Ok? && r.key !in old(receipts) ==> CarriedOut(env, old(Current()), r.command, Current())
    {
      ghost var before := Current();
      if !(ValidId(r.key) && ValidId(r.sender)) {
        return BadIdentity;
      }
      if r.key in receipts {
        return if receipts[r.key].command == r.command then Ok(receipts[r.key].id) else KeyReused;
      }
      if r.replayOnly {
        return ReceiptMissing;
      }
      var done := Run(env, r.command);
      if !done {
        return Refused;
      }
      receipts := receipts[r.key := Receipt(r.command.session, r.command, ResultId(r.command))];
      ExecutedGood(env, before, r.command);
      ReceiptsGood(Executed(env, before, r.command), receipts);
      ExecutedIsCarriedOut(env, before, r.command);
      return Ok(ResultId(r.command));
    }
  }

  lemma OneIdentity(t: Inbox, i: nat)
    requires Good(t) && i < |t.messages|
    ensures forall j :: 0 <= j < |t.messages| && Is(t.messages[j], t.messages[i].session, t.messages[i].id) ==> j == i
  {
  }
}
