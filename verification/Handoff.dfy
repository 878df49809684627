/** The dialogue handed to another provider's session: its longest suffix within 48 000 bytes of UTF-8. */
module Handoff {
  import opened Options
  import opened Characters
  import opened Proofs
  import Utf8

  const MAX_HANDOFF: nat := 48_000
  const MARKER := "[earlier content omitted]\n"

  datatype Role = FromUser | FromAssistant

  datatype HandoffMessage = HandoffMessage(role: Role, body: string)

  datatype HandoffPackage = HandoffPackage(sourceProvider: string, targetProvider: string,
                                           messages: seq<HandoffMessage>, omittedMessages: nat)

  function RoleOf(kind: EntryKind): Option<Role> {
    match kind
    case User => Some(FromUser)
    case Steering => Some(FromUser)
    case Assistant => Some(FromAssistant)
    case _ => None
  }

  /** The visible dialogue: what users and assistants said, without blank messages. */
  function Dialogue(entries: seq<TranscriptEntry>): seq<HandoffMessage> {
    if entries == [] then []
    else
      var role := RoleOf(entries[0].kind);
      (if role.Some? && !IsBlank(entries[0].body) then [HandoffMessage(role.value, entries[0].body)] else [])
      + Dialogue(entries[1..])
  }

  /** A user or an assistant said something that is not blank. */
  predicate Speaks(e: TranscriptEntry) {
    e.kind in {User, Steering, Assistant} && !IsBlank(e.body)
  }

  /** The message is what the entry says, in the role of who said it. */
  predicate Says(e: TranscriptEntry, m: HandoffMessage) {
    Speaks(e) && m.body == e.body && (m.role == FromAssistant <==> e.kind == Assistant)
  }

  /** An entry that speaks says one message, and any other none. */
  lemma OneSaid(e: TranscriptEntry)
    ensures if Speaks(e) then |Dialogue([e])| == 1 && Says(e, Dialogue([e])[0]) else Dialogue([e]) == []
  {
    assert Dialogue([e][1..]) == [];
  }

  /** What is said stands in the order of the entries, so with `OneSaid` it is fixed. */
  lemma {:induction false} DialogueConcat(a: seq<TranscriptEntry>, b: seq<TranscriptEntry>)
    ensures Dialogue(a + b) == Dialogue(a) + Dialogue(b)
    decreases |a|
  {
    if a == [] {
      assert a + b == b;
    } else {
      DialogueConcat(a[1..], b);
      assert (a + b)[1..] == a[1..] + b;
    }
  }

  function Size(messages: seq<HandoffMessage>): nat {
    if messages == [] then 0 else Utf8.ByteLength(messages[0].body) + Size(messages[1..])
  }

  /** `tail` is the longest end of `text` that has at most 48 000 bytes; a character less would not do. */
  ghost predicate LongestTail(text: string, tail: string) {
    exists k :: && 0 <= k <= |text| && tail == text[k..] && Utf8.ByteLength(tail) <= MAX_HANDOFF
                && (k > 0 ==> Utf8.ByteLength(text[k - 1..]) > MAX_HANDOFF)
  }

  /** What is kept of the dialogue: its longest end within the limit, but at least its last message, which
      is cut down to the longest tail within the limit and marked as cut. */
  ghost predicate Kept(marker: string, dialogue: seq<HandoffMessage>, messages: seq<HandoffMessage>, omitted: nat) {
    && omitted < |dialogue|
    && (omitted > 0 ==> Size(dialogue[omitted - 1..]) > MAX_HANDOFF)
    && (Size(dialogue[omitted..]) <= MAX_HANDOFF ==> messages == dialogue[omitted..])
    && (Size(dialogue[omitted..]) > MAX_HANDOFF ==>
          && omitted == |dialogue| - 1
          && |messages| == 1 && messages[0].role == dialogue[omitted].role
          && marker <= messages[0].body && LongestTail(dialogue[omitted].body, messages[0].body[|marker|..]))
  }

  /** The end of a text from a character boundary on. */
  method TailFrom(text: string, split: nat) returns (tail: string, ghost k: nat)
    requires split <= Utf8.ByteLength(text) && Utf8.IsBoundary(Utf8.Encode(text), split)
    ensures k <= |text| && tail == text[k..] && Utf8.ByteLength(text[..k]) == split
    ensures Utf8.ByteLength(tail) == Utf8.ByteLength(text) - split
  {
    k := Utf8.BoundaryPlace(text, split);
    Utf8.PlaceIsBoundary(text, k);
    Utf8.DecodeEncode(text[k..]);
    tail := Utf8.Decode(Utf8.Encode(text)[split..]).value;
  }

  lemma OneCharacter(c: char)
    ensures Utf8.ByteLength([c]) >= 1
  {
  }

  lemma EarlierPlace(text: string, k: nat)
    requires 0 < k <= |text|
    ensures Utf8.ByteLength(text[..k - 1]) < Utf8.ByteLength(text[..k])
  {
    OneCharacter(text[k - 1]);
    Utf8.EncodeConcat(text[..k - 1], [text[k - 1]]);
    assert text[..k] == text[..k - 1] + [text[k - 1]];
  }

  lemma BytesAt(text: string, k: nat)
    requires k <= |text|
    ensures Utf8.ByteLength(text[k..]) == Utf8.ByteLength(text) - Utf8.ByteLength(text[..k])
    ensures Utf8.IsBoundary(Utf8.Encode(text), Utf8.ByteLength(text[..k]))
  {
    Utf8.PlaceIsBoundary(text, k);
  }

  /** Cuts a text of more than 48 000 bytes at the first character boundary that leaves no more than that. */
  method Cut(text: string) returns (tail: string)
    requires Utf8.ByteLength(text) > MAX_HANDOFF
    ensures LongestTail(text, tail)
    ensures MAX_HANDOFF - 3 <= Utf8.ByteLength(tail) <= MAX_HANDOFF
  {
    var bytes := Utf8.Encode(text);
    var first := |bytes| - MAX_HANDOFF;
    var split := first;
    Utf8.BoundaryNear(text, first);
    ghost var near :| first <= near <= first + 3 && Utf8.IsBoundary(bytes, near);
    while !Utf8.IsBoundary(bytes, split)
      invariant first <= split <= near <= |bytes|
      invariant forall i :: first <= i < split ==> !Utf8.IsBoundary(bytes, i)
      decreases near - split
    {
      split := split + 1;
    }
    ghost var k;
    tail, k := TailFrom(text, split);
    if k > 0 {
      EarlierPlace(text, k);
      BytesAt(text, k - 1);
    }
  }

  lemma {:induction false} SizeAtLeastLast(messages: seq<HandoffMessage>)
    requires messages != []
    ensures Size(messages) >= Utf8.ByteLength(messages[0].body)
    ensures |messages| == 1 ==> Size(messages) == Utf8.ByteLength(messages[0].body)
  {
  }

  method FromTranscript(sourceProvider: string, targetProvider: string, entries: seq<TranscriptEntry>)
    returns (p: Option<HandoffPackage>)
    ensures p.None? <==> Dialogue(entries) == []
    ensures p.Some? ==> p.value.sourceProvider == sourceProvider && p.value.targetProvider == targetProvider
                        && Kept(MARKER, Dialogue(entries), p.value.messages, p.value.omittedMessages)
  {
    var messages := Dialogue(entries);
    if messages == [] {
      return None;
    }
    ghost var dialogue := messages;
    var originalCount := |messages|;
    var characters := Size(messages);
    while |messages| > 1 && characters > MAX_HANDOFF
      invariant 1 <= |messages| <= originalCount && messages == dialogue[originalCount - |messages|..]
      invariant characters == Size(messages)
      invariant |messages| < originalCount ==> Size(dialogue[originalCount - |messages| - 1..]) > MAX_HANDOFF
      decreases |messages|
    {
      characters := characters - Utf8.ByteLength(messages[0].body);
      messages := messages[1..];
    }
    SizeAtLeastLast(messages);
    if Utf8.ByteLength(messages[0].body) > MAX_HANDOFF {
      var tail := Cut(messages[0].body);
      messages := [messages[0].(body := MARKER + tail)];
    }
    return Some(HandoffPackage(sourceProvider, targetProvider, messages, originalCount - |messages|));
  }

  lemma {:induction false} SizeOfSuffix(dialogue: seq<HandoffMessage>, i: nat, j: nat)
    requires i <= j <= |dialogue|
    ensures Size(dialogue[i..]) >= Size(dialogue[j..])
    decreases j - i
  {
    if i < j {
      SizeOfSuffix(dialogue, i + 1, j);
      assert dialogue[i..][1..] == dialogue[i + 1..];
    }
  }

  /** No longer end of the dialogue would do, and none that is kept is too long: the number of omitted
      messages is the least one for which the rest fits, if any fits. */
  lemma FewestOmitted(marker: string, dialogue: seq<HandoffMessage>, messages: seq<HandoffMessage>, omitted: nat,
                      i: nat)
    requires Kept(marker, dialogue, messages, omitted) && i <= |dialogue|
    ensures i < omitted ==> Size(dialogue[i..]) > MAX_HANDOFF
    ensures i < |dialogue| && Size(dialogue[i..]) <= MAX_HANDOFF ==> omitted <= i && messages == dialogue[omitted..]
  {
    if i < omitted {
      SizeOfSuffix(dialogue, i, omitted - 1);
    }
  }

  /** The package is never longer than the limit and the marker. */
  lemma PackageFits(marker: string, dialogue: seq<HandoffMessage>, messages: seq<HandoffMessage>, omitted: nat)
    requires Kept(marker, dialogue, messages, omitted)
    ensures Size(messages) <= MAX_HANDOFF + Utf8.ByteLength(marker)
  {
    if Size(dialogue[omitted..]) > MAX_HANDOFF {
      var body := messages[0].body;
      Utf8.EncodeConcat(marker, body[|marker|..]);
      assert body == marker + body[|marker|..];
      SizeAtLeastLast(messages);
    }
  }
}
