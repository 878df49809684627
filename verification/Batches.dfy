/** Batches of follow-ups: the oldest messages that wait are claimed together, as many as fit, fenced before they
    are dispatched, and consumed. Each message is dispatched at most once, and a session's messages in their order.
    The header that a message gets in the prompt of its batch is given, or its length where that is enough. */
module Batches {
  import opened Followups
  import opened Options
  import opened Sequences
  import Json
  import Utf8

  const MAX_BATCH: nat := 32
  const MAX_BATCH_TEXT: nat := 128 * 1024
  const MAX_BATCH_IMAGES := MAX_IMAGES
  const PREAMBLE: nat := 1978

  /** A header names a message and its source; its fields are bounded, also when they are escaped. */
  const MAX_HEADER: nat := 16 * 1024

  // ----- what holds of the batches of every inbox

  /** A session has at most one unsettled batch. A message is claimed only if the earlier ones of its session are
      that were not removed, and settled only if the earlier ones that were claimed are. A batch belongs to one
      session, and its messages are equally far. */
  ghost predicate Batched(messages: seq<Message>) {
    OneUnsettled(messages) && OldestFirst(messages) && SettledFirst(messages) && Coherent(messages)
  }

  ghost predicate OneUnsettled(messages: seq<Message>) {
    forall i, j :: 0 <= i < j < |messages| && messages[i].session == messages[j].session
                   && Unsettled(messages[i], messages[i].session) && Unsettled(messages[j], messages[j].session) ==>
      messages[i].batch == messages[j].batch
  }

  ghost predicate OldestFirst(messages: seq<Message>) {
    forall i, j :: 0 <= i < j < |messages| && messages[i].session == messages[j].session
                   && !messages[i].removed && messages[j].batch.Some? ==>
      messages[i].batch.Some?
  }

  ghost predicate SettledFirst(messages: seq<Message>) {
    forall i, j :: 0 <= i < j < |messages| && messages[i].session == messages[j].session
                   && messages[i].batch.Some? && Settled(messages[j]) ==>
      Settled(messages[i])
  }

  ghost predicate Coherent(messages: seq<Message>) {
    forall i, j :: 0 <= i < j < |messages| && messages[i].batch.Some? && messages[j].batch.Some?
                   && messages[i].batch.value.id == messages[j].batch.value.id ==>
      messages[i].session == messages[j].session && messages[i].batch == messages[j].batch
  }

  /** Messages stay in their batches, more may be removed, and new ones wait. */
  ghost predicate BatchesKept(messages: seq<Message>, after: seq<Message>) {
    && |messages| <= |after|
    && (forall i :: 0 <= i < |messages| ==>
          && after[i].session == messages[i].session && after[i].batch == messages[i].batch
          && (messages[i].removed ==> after[i].removed))
    && (forall i :: |messages| <= i < |after| ==> after[i].batch.None?)
  }

  lemma KeptStayBatched(messages: seq<Message>, after: seq<Message>)
    requires Batched(messages) && BatchesKept(messages, after)
    ensures Batched(after)
  {
    assert OneUnsettled(after);
    assert OldestFirst(after);
    assert SettledFirst(after);
  }

  lemma ClaimKeepsOrder(t: Inbox, session: string, id: string, cutoff: nat)
    requires Good(t) && Batched(t.messages) && Claimable(t, session, id, cutoff)
    ensures OldestFirst(ClaimedUpTo(t.messages, session, id, cutoff))
    ensures SettledFirst(ClaimedUpTo(t.messages, session, id, cutoff))
  {
  }

  lemma ClaimKeepsBatches(t: Inbox, session: string, id: string, cutoff: nat)
    requires Good(t) && Batched(t.messages) && Claimable(t, session, id, cutoff)
    ensures OneUnsettled(ClaimedUpTo(t.messages, session, id, cutoff))
    ensures Coherent(ClaimedUpTo(t.messages, session, id, cutoff))
  {
  }

  lemma ClaimStaysBatched(t: Inbox, session: string, id: string, cutoff: nat)
    requires Good(t) && Batched(t.messages) && Claimable(t, session, id, cutoff)
    ensures Batched(ClaimedUpTo(t.messages, session, id, cutoff))
  {
    ClaimKeepsOrder(t, session, id, cutoff);
    ClaimKeepsBatches(t, session, id, cutoff);
  }

  lemma StateStaysBatched(messages: seq<Message>, session: string, id: string, from: BatchState, to: BatchState)
    requires Batched(messages) && Rank(to) == Rank(from) + 1
    ensures Batched(InState(messages, session, id, from, to))
  {
    var after := InState(messages, session, id, from, to);
    assert OneUnsettled(after);
    assert OldestFirst(after);
    assert SettledFirst(after);
    assert Coherent(after);
  }

  lemma ExecutedKeeps(env: Environment, t: Inbox, c: Command)
    requires Allowed(env, t, c)
    ensures BatchesKept(t.messages, Executed(env, t, c).messages)
  {
    match c
    case Enqueue(_, _, _) =>
    case Relay(_, _, _, _, _) =>
    case AdmitExternalReport(_, _, _, _, _, _, _) =>
    case Remove(session, id) => assert BatchesKept(t.messages, WithoutText(t.messages, session, id));
    case SetPaused(_, _) =>
  }

  lemma EventStaysBatched(t: Inbox, e: Event, t': Inbox)
    requires Good(t) && Batched(t.messages) && Happened(t, e, t')
    ensures Batched(t'.messages)
  {
    match e
    case Requested(env, request, _) =>
      if t' != t {
        ExecutedKeeps(env, t, request.command);
        KeptStayBatched(t.messages, t'.messages);
      }
    case ChildReported(_, _) => KeptStayBatched(t.messages, t'.messages);
    case BatchClaimed(session, id, cutoff) => ClaimStaysBatched(t, session, id, cutoff);
    case BatchBlocked(_) =>
    case BatchFenced(session, id) => StateStaysBatched(t.messages, session, id, Claimed, Dispatching);
    case BatchAcknowledged(session, id) => StateStaysBatched(t.messages, session, id, Dispatching, Consumed);
  }

  lemma {:induction false} RunStaysBatched(states: seq<Inbox>, run: seq<Event>, i: nat)
    requires IsRun(states, run) && Good(states[0]) && Batched(states[0].messages) && i <= |run|
    ensures Batched(states[i].messages)
  {
    if i > 0 {
      RunStaysBatched(states, run, i - 1);
      RunKeepsGood(states, run, i - 1);
      EventStaysBatched(states[i - 1], run[i - 1], states[i]);
    }
  }

  // ----- delivery

  /** The message went to the provider, or may have. */
  predicate Sent(m: Message) {
    m.batch.Some? && m.batch.value.state != Claimed
  }

  /** The event sends the message. */
  predicate Sends(t: Inbox, t': Inbox, n: nat) {
    n < |t.messages| && n < |t'.messages| && !Sent(t.messages[n]) && Sent(t'.messages[n])
  }

  lemma SentStays(states: seq<Inbox>, run: seq<Event>, i: nat, j: nat, n: nat)
    requires IsRun(states, run) && i <= j <= |run| && n < |states[i].messages| && Sent(states[i].messages[n])
    ensures n < |states[j].messages| && Sent(states[j].messages[n])
  {
    RunGrows(states, run, i, j);
    assert SameMessage(states[i].messages[n], states[j].messages[n]);
  }

  /** A message is sent at most once in any run, and only by the fence of its batch, which it had joined before. */
  lemma SentOnce(states: seq<Inbox>, run: seq<Event>, i: nat, j: nat, n: nat)
    requires IsRun(states, run) && i < |run| && j < |run|
    requires Sends(states[i], states[i + 1], n) && Sends(states[j], states[j + 1], n)
    ensures i == j
    ensures run[i].BatchFenced? && run[i].id !in states[i].blocked
    ensures states[i].messages[n].batch == Some(InBatch(run[i].id, Claimed))
  {
    assert Happened(states[i], run[i], states[i + 1]);
    if i < j {
      SentStays(states, run, i + 1, j, n);
    } else if j < i {
      SentStays(states, run, j + 1, i, n);
    }
  }

  /** Messages of a session are sent in their order: when one was sent, so were all earlier ones, but for those
      that were removed. */
  lemma SentInOrder(messages: seq<Message>, i: nat, j: nat)
    requires Batched(messages) && i < j < |messages| && messages[i].session == messages[j].session
    requires Sent(messages[j]) && !messages[i].removed
    ensures Sent(messages[i])
  {
    if !Settled(messages[i]) {
      assert messages[i].batch == messages[j].batch;
    }
  }

  /** A message that is removed is never sent, and one that was sent is never removed. */
  lemma RemovedOrSent(states: seq<Inbox>, run: seq<Event>, i: nat, j: nat, n: nat)
    requires IsRun(states, run) && Good(states[0]) && i <= |run| && j <= |run|
    requires n < |states[i].messages| && states[i].messages[n].removed
    requires n < |states[j].messages|
    ensures !Sent(states[j].messages[n])
  {
    RunKeepsGood(states, run, i);
    RunKeepsGood(states, run, j);
    assert Sound(states[i].messages[n]) && Sound(states[j].messages[n]);
    if i <= j {
      RunGrows(states, run, i, j);
      assert SameMessage(states[i].messages[n], states[j].messages[n]);
    } else {
      RunGrows(states, run, j, i);
      assert SameMessage(states[j].messages[n], states[i].messages[n]);
    }
  }

  // ----- claiming

  /** The messages of a session that wait, oldest first. */
  function WaitingOf(messages: seq<Message>, session: string): seq<Message> {
    if messages == [] then []
    else
      var last := messages[|messages| - 1];
      WaitingOf(messages[..|messages| - 1], session) + if Waiting(last, session) then [last] else []
  }

  lemma {:induction false} WaitingIn(messages: seq<Message>, session: string, m: Message)
    ensures m in WaitingOf(messages, session) <==> m in messages && Waiting(m, session)
  {
    if messages != [] {
      WaitingIn(messages[..|messages| - 1], session, m);
      assert messages == messages[..|messages| - 1] + [messages[|messages| - 1]];
    }
  }

  lemma ClaimedFront(messages: seq<Message>, session: string, id: string, cutoff: nat)
    requires messages != []
    ensures ClaimedUpTo(messages, session, id, cutoff)[..|messages| - 1]
         == ClaimedUpTo(messages[..|messages| - 1], session, id, cutoff)
  {
  }

  /** Claiming up to the `k`th message that waits takes exactly the first `k`: the others go on waiting. */
  lemma {:induction false} ClaimTakesFirst(messages: seq<Message>, last: nat, session: string, id: string, k: nat)
    requires Ordered(messages, last) && 0 < k <= |WaitingOf(messages, session)|
    ensures var waiting := WaitingOf(messages, session);
            WaitingOf(ClaimedUpTo(messages, session, id, waiting[k - 1].sequence), session) == waiting[k..]
  {
    var front := messages[..|messages| - 1];
    if k <= |WaitingOf(front, session)| {
      ClaimTakesFirst(front, last, session, id, k);
      NewestWaits(messages, last, session, id, k);
    } else {
      ClaimTakesAll(messages, session, id, WaitingOf(messages, session)[k - 1].sequence);
    }
  }

  /** The newest message stays out of a batch that ends before it. */
  lemma NewestWaits(messages: seq<Message>, last: nat, session: string, id: string, k: nat)
    requires Ordered(messages, last) && messages != []
    requires 0 < k <= |WaitingOf(messages[..|messages| - 1], session)|
    ensures var front, newest := messages[..|messages| - 1], messages[|messages| - 1];
            var cutoff := WaitingOf(front, session)[k - 1].sequence;
            && WaitingOf(messages, session)[k - 1].sequence == cutoff
            && WaitingOf(ClaimedUpTo(messages, session, id, cutoff), session)
               == WaitingOf(ClaimedUpTo(front, session, id, cutoff), session)
                  + if Waiting(newest, session) then [newest] else []
  {
    var front := messages[..|messages| - 1];
    var m := WaitingOf(front, session)[k - 1];
    WaitingIn(front, session, m);
    ClaimedFront(messages, session, id, m.sequence);
  }

  lemma {:induction false} ClaimTakesAll(messages: seq<Message>, session: string, id: string, cutoff: nat)
    requires forall m <- messages :: m.sequence <= cutoff
    ensures WaitingOf(ClaimedUpTo(messages, session, id, cutoff), session) == []
  {
    if messages != [] {
      ClaimedFront(messages, session, id, cutoff);
      ClaimTakesAll(messages[..|messages| - 1], session, id, cutoff);
    }
  }

  // ----- how many messages fit into a batch

  /** The bytes of a message's header, behind so many attachments of earlier messages. */
  type Header = (Message, nat) -> nat

  function Attachments(ms: seq<Message>): nat {
    if ms == [] then 0 else Attachments(ms[..|ms| - 1]) + |ms[|ms| - 1].input.attachments|
  }

  function Images(ms: seq<Message>): nat {
    if ms == [] then 0 else Images(ms[..|ms| - 1]) + ImageBytes(ms[|ms| - 1].input.attachments)
  }

  /** The prompt of a batch: a preamble, and each message behind its header, quoted and on a line of its own. */
  function TextOf(header: Header, ms: seq<Message>): nat {
    if ms == [] then PREAMBLE
    else
      var last := ms[|ms| - 1];
      TextOf(header, ms[..|ms| - 1])
      + header(last, Attachments(ms[..|ms| - 1])) + Utf8.ByteLength(Json.Quoted(last.input.text)) + 1
  }

  predicate WithinBounds(header: Header, ms: seq<Message>) {
    TextOf(header, ms) <= MAX_BATCH_TEXT && Images(ms) <= MAX_BATCH_IMAGES && Attachments(ms) <= MAX_ATTACHMENTS
  }

  /** The text of a message's header. */
  type HeaderText = (Message, nat) -> string

  /** The prompt that is sent for a batch. */
  function Combined(preamble: string, header: HeaderText, ms: seq<Message>): Prompt {
    if ms == [] then Prompt(preamble, [])
    else
      var before, last := Combined(preamble, header, ms[..|ms| - 1]), ms[|ms| - 1];
      Prompt(before.text + header(last, |before.attachments|) + Json.Quoted(last.input.text) + ['\n'],
             before.attachments + last.input.attachments)
  }

  /** The loop that puts the messages together. */
  method Combine(preamble: string, header: HeaderText, ms: seq<Message>) returns (p: Prompt)
    ensures p == Combined(preamble, header, ms)
  {
    var text, attachments: seq<Attachment> := preamble, [];
    for i := 0 to |ms|
      invariant Prompt(text, attachments) == Combined(preamble, header, ms[..i])
    {
      assert ms[..i + 1][..i] == ms[..i];
      text := text + header(ms[i], |attachments|);
      text := text + Json.Quoted(ms[i].input.text);
      text := text + ['\n'];
      attachments := attachments + ms[i].input.attachments;
    }
    assert ms[..|ms|] == ms;
    return Prompt(text, attachments);
  }

  lemma TextGrows(before: string, header: string, quoted: string)
    ensures Utf8.ByteLength(before + header + quoted + ['\n'])
         == Utf8.ByteLength(before) + Utf8.ByteLength(header) + Utf8.ByteLength(quoted) + 1
  {
    Utf8.EncodeConcat(before, header);
    Utf8.EncodeConcat(before + header, quoted);
    Utf8.EncodeConcat(before + header + quoted, ['\n']);
    assert ['\n'][1..] == "";
    assert Utf8.Encode(['\n']) == Utf8.EncodeChar('\n') + [];
  }

  /** What the bounds measure is what is sent: the bytes of the combined text, its attachments and their images. */
  lemma {:induction false} CombinedIsMeasured(preamble: string, text: HeaderText, header: Header, ms: seq<Message>)
    requires Utf8.ByteLength(preamble) == PREAMBLE && forall m, n :: header(m, n) == Utf8.ByteLength(text(m, n))
    ensures var p := Combined(preamble, text, ms);
            && Utf8.ByteLength(p.text) == TextOf(header, ms)
            && |p.attachments| == Attachments(ms) && ImageBytes(p.attachments) == Images(ms)
  {
    if ms != [] {
      var front, last := ms[..|ms| - 1], ms[|ms| - 1];
      CombinedIsMeasured(preamble, text, header, front);
      var before := Combined(preamble, text, front);
      TextGrows(before.text, text(last, |before.attachments|), Json.Quoted(last.input.text));
      ImagesAppend(before.attachments, last.input.attachments);
    }
  }

  /** How many of the first messages a batch takes: up to the first that does not fit behind those before it. */
  function Fitting(header: Header, ms: seq<Message>): (n: nat)
    ensures n <= |ms|
  {
    if ms == [] then 0
    else
      var before := Fitting(header, ms[..|ms| - 1]);
      if before == |ms| - 1 && WithinBounds(header, ms) then |ms| else before
  }

  /** It is the longest beginning of the messages that is within the bounds. */
  lemma {:induction false} FittingIsLongest(header: Header, ms: seq<Message>, k: nat)
    requires k <= |ms|
    ensures WithinBounds(header, ms[..k]) <==> k <= Fitting(header, ms)
  {
    if ms == [] {
      assert ms[..k] == [] && WithinBounds(header, ms[..k]);
    } else {
      var front := ms[..|ms| - 1];
      FittingIsLongest(header, front, if k < |ms| then k else |ms| - 1);
      assert k < |ms| ==> front[..k] == ms[..k];
      assert front[..|front|] == front && ms[..|ms|] == ms;
    }
  }

  /** The loop over the pending messages, with its running sums. */
  method BoundedPrefix(header: Header, pending: seq<Message>) returns (n: nat)
    ensures n == Fitting(header, pending)
  {
    var images: nat, attachments: nat, text: nat := 0, 0, PREAMBLE;
    n := 0;
    assert pending[..0] == [];
    while n < |pending|
      invariant n <= |pending| && Summed(header, pending[..n], images, attachments, text)
      invariant WithinBounds(header, pending[..n])
    {
      var message := pending[n];
      assert pending[..n + 1][..n] == pending[..n];
      var more := header(message, attachments) + Utf8.ByteLength(Json.Quoted(message.input.text)) + 1;
      var bytes := ImageBytes(message.input.attachments);
      var count := |message.input.attachments|;
      if text + more > MAX_BATCH_TEXT || images + bytes > MAX_BATCH_IMAGES || attachments + count > MAX_ATTACHMENTS {
        FittingIsLongest(header, pending, n);
        FittingIsLongest(header, pending, n + 1);
        return;
      }
      images, attachments, text := images + bytes, attachments + count, text + more;
      n := n + 1;
    }
    FittingIsLongest(header, pending, n);
  }

  ghost predicate Summed(header: Header, ms: seq<Message>, images: nat, attachments: nat, text: nat) {
    images == Images(ms) && attachments == Attachments(ms) && text == TextOf(header, ms)
  }

  /** Admission bounds texts, attachments and images so that every message fits into a batch of its own. */
  lemma FitsAlone(header: Header, m: Message)
    requires Sound(m) && !m.removed && header(m, 0) <= MAX_HEADER
    ensures WithinBounds(header, [m])
  {
    var none: seq<Message> := [];
    assert [m][..0] == none;
    assert TextOf(header, [m]) == PREAMBLE + header(m, 0) + Utf8.ByteLength(Json.Quoted(m.input.text)) + 1;
    assert Images([m]) == ImageBytes(m.input.attachments) && Attachments([m]) == |m.input.attachments|;
  }

  /** The messages a new batch takes: the oldest that wait, as many as fit, of the first 32. */
  function Selected(header: Header, messages: seq<Message>, session: string): (n: nat)
    ensures n <= |WaitingOf(messages, session)|
  {
    Fitting(header, Take(WaitingOf(messages, session), MAX_BATCH))
  }

  /** So no accepted message ever blocks its inbox: when messages wait, a batch takes at least the oldest. */
  lemma OldestIsTaken(header: Header, t: Inbox, session: string)
    requires Good(t) && WaitingOf(t.messages, session) != [] && forall m :: header(m, 0) <= MAX_HEADER
    ensures Selected(header, t.messages, session) > 0
  {
    var waiting := WaitingOf(t.messages, session);
    var first := Take(waiting, MAX_BATCH);
    WaitingIn(t.messages, session, waiting[0]);
    assert Sound(waiting[0]) && first[..1] == [waiting[0]];
    FittingIsLongest(header, first, 1);
    FitsAlone(header, waiting[0]);
  }

  /** So the prompt of a new batch keeps every bound on what is sent. */
  lemma CombinedFits(preamble: string, text: HeaderText, header: Header, messages: seq<Message>, session: string)
    requires Utf8.ByteLength(preamble) == PREAMBLE && forall m, n :: header(m, n) == Utf8.ByteLength(text(m, n))
    requires Selected(header, messages, session) > 0
    ensures var p := Combined(preamble, text, WaitingOf(messages, session)[..Selected(header, messages, session)]);
            && Utf8.ByteLength(p.text) <= MAX_BATCH_TEXT && ImageBytes(p.attachments) <= MAX_BATCH_IMAGES
            && |p.attachments| <= MAX_ATTACHMENTS
  {
    var waiting, k := WaitingOf(messages, session), Selected(header, messages, session);
    FittingIsLongest(header, Take(waiting, MAX_BATCH), k);
    assert Take(waiting, MAX_BATCH)[..k] == waiting[..k];
    CombinedIsMeasured(preamble, text, header, waiting[..k]);
  }

  // ----- claiming a batch

  datatype Claim = NotClaimed | Nothing | Batch(id: string)

  /** What a claim finds out about the unsettled batch of the session, if there is one. */
  method FindUnsettled(store: InboxStore, session: string) returns (found: Option<InBatch>)
    ensures found.None? <==> forall m <- store.messages :: !Unsettled(m, session)
    ensures found.Some? ==> exists m <- store.messages :: Unsettled(m, session) && m.batch == found
  {
    found := None;
    for i := 0 to |store.messages|
      invariant found.None? <==> forall j :: 0 <= j < i ==> !Unsettled(store.messages[j], session)
      invariant found.Some? ==> exists m <- store.messages :: Unsettled(m, session) && m.batch == found
    {
      if Unsettled(store.messages[i], session) {
        found := store.messages[i].batch;
      }
    }
  }

  /** The message waited, and is now claimed by the batch; nothing else about it changed. */
  predicate JoinsBatch(m: Message, m': Message, session: string, id: string) {
    Waiting(m, session) && IsIn(m', session, id, Claimed) && m == m'.(batch := None)
  }

  ghost predicate ClaimsFirst(header: Header, messages: seq<Message>, session: string, id: string,
                              after: seq<Message>) {
    var waiting, k := WaitingOf(messages, session), Selected(header, messages, session);
    && 0 < k && after == ClaimedUpTo(messages, session, id, waiting[k - 1].sequence)
    && WaitingOf(after, session) == waiting[k..]
    && |after| == |messages|
    && forall i :: 0 <= i < |messages| ==> after[i] == messages[i] || JoinsBatch(messages[i], after[i], session, id)
  }

  predicate IsNew(messages: seq<Message>, id: string) {
    forall m <- messages :: m.batch.Some? ==> m.batch.value.id != id
  }

  /** Such a claim is an event of the inbox. */
  lemma ClaimHappens(header: Header, t: Inbox, session: string, id: string, after: seq<Message>)
    requires IsNew(t.messages, id) && !Paused(t, session) && forall m <- t.messages :: !Unsettled(m, session)
    requires ClaimsFirst(header, t.messages, session, id, after)
    ensures exists cutoff :: Happened(t, BatchClaimed(session, id, cutoff), t.(messages := after))
  {
    var last := WaitingOf(t.messages, session)[Selected(header, t.messages, session) - 1];
    WaitingIn(t.messages, session, last);
    assert Happened(t, BatchClaimed(session, id, last.sequence), t.(messages := after));
  }

  /** With no unsettled batch, the oldest messages are claimed under a new identity; if the oldest of all does not
      fit, none is. */
  ghost predicate ClaimedAs(header: Header, messages: seq<Message>, session: string, id: string,
                            after: seq<Message>, r: Claim) {
    && r == (if WaitingOf(messages, session) == [] then Nothing
             else if Selected(header, messages, session) == 0 then NotClaimed else Batch(id))
    && if r.Batch? then ClaimsFirst(header, messages, session, id, after) else after == messages
  }

  /** An unsettled batch is the one that is claimed, unless it is blocked or already dispatched. */
  ghost predicate Reclaimed(t: Inbox, session: string, r: Claim) {
    exists m <- t.messages ::
      && Unsettled(m, session)
      && r == if m.batch.value.state == Claimed && m.batch.value.id !in t.blocked then Batch(m.batch.value.id)
              else Nothing
  }

  method ClaimWaiting(store: InboxStore, header: Header, session: string, id: string) returns (r: Claim)
    requires Good(store.Current())
    modifies store`messages
    ensures ClaimedAs(header, old(store.messages), session, id, store.messages, r)
  {
    var waiting := WaitingOf(store.messages, session);
    if waiting == [] {
      return Nothing;
    }
    var k := BoundedPrefix(header, Take(waiting, MAX_BATCH));
    if k == 0 {
      return NotClaimed;
    }
    ClaimTakesFirst(store.messages, store.lastSequence, session, id, k);
    store.messages := ClaimedUpTo(store.messages, session, id, waiting[k - 1].sequence);
    return Batch(id);
  }

  /** Claims for an open session whose messages from children still belong to it, which `evidence` says, unless
      it is paused. An unsettled batch goes first; it is found again exactly as it was claimed. */
  method ClaimBatch(store: InboxStore, env: Environment, header: Header, session: string, evidence: bool, id: string)
    returns (r: Claim)
    requires Good(store.Current())
    modifies store`messages
    ensures var t := old(store.Current());
            if !Authorized(env, session, true) || !evidence then r == NotClaimed && store.messages == t.messages
            else if Paused(t, session) then r == Nothing && store.messages == t.messages
            else if exists m <- t.messages :: Unsettled(m, session)
              then Reclaimed(t, session, r) && store.messages == t.messages
            else ClaimedAs(header, t.messages, session, id, store.messages, r)
  {
    if !Authorized(env, session, true) || !evidence {
      return NotClaimed;
    }
    if Paused(store.Current(), session) {
      return Nothing;
    }
    var existing := FindUnsettled(store, session);
    if existing.Some? {
      var batch := existing.value;
      return if batch.state == Claimed && batch.id !in store.blocked then Batch(batch.id) else Nothing;
    }
    r := ClaimWaiting(store, header, session, id);
  }

  /** Fences a claimed batch before its dispatch; false when it was dispatched already or is blocked. */
  method FenceDispatch(store: InboxStore, session: string, id: string) returns (fenced: bool)
    modifies store`messages
    ensures fenced <==> id !in store.blocked && exists m <- old(store.messages) :: IsIn(m, session, id, Claimed)
    ensures store.messages == if fenced then InState(old(store.messages), session, id, Claimed, Dispatching)
                              else old(store.messages)
    ensures fenced ==> BatchMoved(old(store.messages), store.messages, session, id, Claimed, Dispatching)
  {
    if id in store.blocked || !exists m <- store.messages :: IsIn(m, session, id, Claimed) {
      return false;
    }
    store.messages := InState(store.messages, session, id, Claimed, Dispatching);
    return true;
  }

  /** The messages of the batch went on by one state, and the others stayed as they were. */
  ghost predicate BatchMoved(messages: seq<Message>, after: seq<Message>, session: string, id: string,
                             from: BatchState, to: BatchState) {
    && |after| == |messages|
    && forall i :: 0 <= i < |messages| ==>
         if IsIn(messages[i], session, id, from)
         then IsIn(after[i], session, id, to) && messages[i].(batch := None) == after[i].(batch := None)
         else after[i] == messages[i]
  }

  /** A batch that is claimed, fenced and acknowledged has consumed the messages that waited up to its cutoff, and
      nothing else in the inbox changed. */
  lemma Delivered(t: Inbox, t1: Inbox, t2: Inbox, t3: Inbox, session: string, id: string, cutoff: nat)
    requires Happened(t, BatchClaimed(session, id, cutoff), t1)
    requires Happened(t1, BatchFenced(session, id), t2) && Happened(t2, BatchAcknowledged(session, id), t3)
    ensures |t3.messages| == |t.messages| && t3 == t.(messages := t3.messages)
    ensures forall i :: 0 <= i < |t.messages| ==>
              if Waiting(t.messages[i], session) && t.messages[i].sequence <= cutoff
              then IsIn(t3.messages[i], session, id, Consumed) && t3.messages[i].(batch := None) == t.messages[i]
              else t3.messages[i] == t.messages[i]
  {
  }

  predicate IsIn(m: Message, session: string, id: string, state: BatchState) {
    m.session == session && m.batch == Some(InBatch(id, state))
  }
}
