/** The canonical transcript: entries, an index of their keys, and three caches (digests per entry, the
    proof chain up to a watermark, the last proofs), all changed in place by every mutator. */
module Transcript {
  import opened Options
  import opened Decimal
  import opened Proofs

  type KeyIndex = map<string, nat>

  /** The index holds exactly the keys of the entries, each at its entry. */
  ghost predicate IndexExact(entries: seq<TranscriptEntry>, index: KeyIndex) {
    && (forall k :: k in index ==> index[k] < |entries| && entries[index[k]].key == Some(k))
    && (forall i :: 0 <= i < |entries| && entries[i].key.Some? ==>
          entries[i].key.value in index && index[entries[i].key.value] == i)
  }

  /** Hence a key maps to `i` if and only if entry `i` has it, and no two entries share a key. */
  lemma IndexIff(entries: seq<TranscriptEntry>, index: KeyIndex, k: string, i: nat, j: nat)
    requires IndexExact(entries, index)
    ensures k in index && index[k] == i <==> i < |entries| && entries[i].key == Some(k)
    ensures i < |entries| && j < |entries| && entries[i].key == entries[j].key == Some(k) ==> i == j
  {
  }

  /** Every step before the watermark is the step its entry has in the chain from scratch. */
  ghost predicate ChainExact(g: Ground, entries: seq<TranscriptEntry>, watermark: nat, steps: seq<ProvenStep>) {
    && watermark <= |entries|
    && watermark <= |steps|
    && steps[..watermark] == Steps(g, entries[..watermark])
  }

  /** A change that leaves the first `n` entries and their image counts alone keeps the chain exact from a
      watermark lowered to at most `n`. */
  lemma ChainKept(g: Ground, entries: seq<TranscriptEntry>, watermark: nat, steps: seq<ProvenStep>,
                  images: Images, changed: seq<TranscriptEntry>, n: nat)
    requires ChainExact(g, entries, watermark, steps)
    requires n <= watermark && n <= |changed| && changed[..n] == entries[..n]
    requires forall i :: 0 <= i < n ==> ImageCount(images, entries[i]) == ImageCount(g.images, entries[i])
    ensures ChainExact(g.(images := images), changed, n, steps)
  {
    StepsPrefix(g, entries[..watermark], n);
    assert entries[..watermark][..n] == entries[..n];
    assert steps[..n] == steps[..watermark][..n];
    StepsFrame(g, images, entries[..n]);
  }

  lemma ChainWhole(g: Ground, entries: seq<TranscriptEntry>, steps: seq<ProvenStep>)
    requires steps == Steps(g, entries)
    ensures ChainExact(g, entries, |entries|, steps)
  {
    assert steps[..|entries|] == steps && entries[..|entries|] == entries;
  }

  /** The steps of the first `n` entries, and the chain they end with. */
  ghost predicate Chained(g: Ground, entries: seq<TranscriptEntry>, n: nat, steps: seq<ProvenStep>, current: Chain) {
    n <= |entries| && |steps| == n && steps == Steps(g, entries[..n]) && current == LastChain(g, steps)
  }

  lemma ChainedNext(g: Ground, entries: seq<TranscriptEntry>, n: nat, steps: seq<ProvenStep>, current: Chain)
    requires Chained(g, entries, n, steps, current) && n < |entries|
    ensures var step := StepAfter(g, current, DigestOf(g.reader, entries[n]), entries[n]);
            Chained(g, entries, n + 1, steps + [step], step.chain)
  {
    StepsAppend(g, entries, n);
  }

  lemma ProofsFromSteps(g: Ground, entries: seq<TranscriptEntry>)
    requires g.tools == CodemodeTools(g.reader, entries)
    ensures ProofsOf(g.reader, g.images, g.truncated, entries) == [Start(g.truncated)] + Prefixes(Steps(g, entries))
  {
    assert g == Ground(g.reader, g.images, g.truncated, CodemodeTools(g.reader, entries));
  }

  /** Changing one entry at or behind the watermark, its key apart. */
  lemma EditKept(g: Ground, entries: seq<TranscriptEntry>, index: KeyIndex, watermark: nat, steps: seq<ProvenStep>,
                 i: nat, entry: TranscriptEntry)
    requires IndexExact(entries, index) && ChainExact(g, entries, watermark, steps)
    requires watermark <= i < |entries| && entry.key == entries[i].key
    ensures IndexExact(entries[i := entry], index) && ChainExact(g, entries[i := entry], watermark, steps)
  {
    ChainKept(g, entries, watermark, steps, g.images, entries[i := entry], watermark);
  }

  /** Appending one entry, indexed when it has a key. */
  lemma AppendKept(g: Ground, entries: seq<TranscriptEntry>, index: KeyIndex, watermark: nat, steps: seq<ProvenStep>,
                   entry: TranscriptEntry)
    requires IndexExact(entries, index) && ChainExact(g, entries, watermark, steps)
    requires entry.key.Some? ==> entry.key.value !in index
    ensures IndexExact(entries + [entry], if entry.key.Some? then index[entry.key.value := |entries|] else index)
    ensures ChainExact(g, entries + [entry], watermark, steps)
  {
    ChainKept(g, entries, watermark, steps, g.images, entries + [entry], watermark);
  }

  type Digests = map<string, (TranscriptEntry, EntryDigest)>

  /** A cached digest is the digest of the entry cached with it. */
  ghost predicate DigestsExact(reader: AuditReader, digests: Digests) {
    forall id :: id in digests ==> digests[id].1 == DigestOf(reader, digests[id].0)
  }

  function Min(a: nat, b: nat): nat {
    if a <= b then a else b
  }

  // ----- edits of one keyed entry

  /** The setters that find an entry by its key and change it in place. */
  datatype KeyedEdit =
    | Coordination(json: Option<string>)
    | CreatedAt(at: Option<nat>)
    | Origin(provider: Option<string>, model: Option<string>)
    | ModelOptions(effort: Option<string>, fast: bool)
    | TurnAttribution(turn: string, turnEffort: Option<string>, turnFast: bool)
    | SourceTransport(transport: Option<string>)
    | ToolAudit(audit: Option<string>)
    | Status(status: EntryStatus)
    | FinishRunning(finished: EntryStatus)
    | Body(body: string, bodyStatus: EntryStatus)
    | Content(kind: EntryKind, title: string, content: string, contentStatus: EntryStatus)
    | Delta(delta: string)

  /** Each edit changes its own fields and no others. */
  function Edited(e: TranscriptEntry, edit: KeyedEdit): (r: TranscriptEntry)
    ensures r.key == e.key && r.id == e.id && FieldsAfter(e, edit, r)
  {
    match edit
    case Coordination(json) => e.(coordination := json)
    case CreatedAt(at) => e.(createdAt := at)
    case Origin(provider, model) =>
      e.(provider := if e.provider.None? then provider else e.provider,
         model := if e.model.None? then model else e.model)
    case ModelOptions(effort, fast) => e.(reasoningEffort := effort, fastMode := Some(fast))
    case TurnAttribution(turn, effort, fast) =>
      if e.ownerTurn.None? then e.(ownerTurn := Some(turn), reasoningEffort := effort, fastMode := Some(fast)) else e
    case SourceTransport(transport) => if e.sourceTransport.None? then e.(sourceTransport := transport) else e
    case ToolAudit(audit) => if audit.Some? then e.(toolAudit := audit) else e
    case Status(status) => e.(status := status)
    case FinishRunning(status) => if e.status == Running then e.(status := status) else e
    case Body(body, status) => e.(body := body, status := status)
    case Content(kind, title, body, status) => e.(kind := kind, title := title, body := body, status := status)
    case Delta(delta) => e.(body := e.body + delta, status := Running)
  }

  /** Field by field: what each edit sets, extends, or fills in only where nothing was, and what it leaves. */
  ghost predicate FieldsAfter(e: TranscriptEntry, edit: KeyedEdit, r: TranscriptEntry) {
    && r.id == e.id && r.key == e.key
    && r.coordination == (if edit.Coordination? then edit.json else e.coordination)
    && r.createdAt == (if edit.CreatedAt? then edit.at else e.createdAt)
    && r.provider == (if edit.Origin? && e.provider.None? then edit.provider else e.provider)
    && r.model == (if edit.Origin? && e.model.None? then edit.model else e.model)
    && r.ownerTurn == (if edit.TurnAttribution? && e.ownerTurn.None? then Some(edit.turn) else e.ownerTurn)
    && r.sourceTransport == (if edit.SourceTransport? && e.sourceTransport.None? then edit.transport
                             else e.sourceTransport)
    && r.toolAudit == (if edit.ToolAudit? && edit.audit.Some? then edit.audit else e.toolAudit)
    && r.kind == (if edit.Content? then edit.kind else e.kind)
    && r.title == (if edit.Content? then edit.title else e.title)
    && OptionsAfter(e, edit, r) && BodyAfter(e, edit, r) && StatusAfter(e, edit, r)
  }

  ghost predicate OptionsAfter(e: TranscriptEntry, edit: KeyedEdit, r: TranscriptEntry) {
    if edit.ModelOptions? then r.reasoningEffort == edit.effort && r.fastMode == Some(edit.fast)
    else if edit.TurnAttribution? && e.ownerTurn.None?
      then r.reasoningEffort == edit.turnEffort && r.fastMode == Some(edit.turnFast)
    else r.reasoningEffort == e.reasoningEffort && r.fastMode == e.fastMode
  }

  /** A delta goes behind what is there. */
  ghost predicate BodyAfter(e: TranscriptEntry, edit: KeyedEdit, r: TranscriptEntry) {
    match edit
    case Body(body, _) => r.body == body
    case Content(_, _, content, _) => r.body == content
    case Delta(delta) => e.body <= r.body && r.body[|e.body|..] == delta
    case _ => r.body == e.body
  }

  ghost predicate StatusAfter(e: TranscriptEntry, edit: KeyedEdit, r: TranscriptEntry) {
    match edit
    case Status(status) => r.status == status
    case FinishRunning(finished) => r.status == if e.status == Running then finished else e.status
    case Body(_, status) => r.status == status
    case Content(_, _, _, status) => r.status == status
    case Delta(_) => r.status == Running
    case _ => r.status == e.status
  }

  /** So a body that is streamed in deltas is their concatenation, however it is cut. */
  lemma DeltasConcatenate(e: TranscriptEntry, first: string, second: string)
    ensures Edited(Edited(e, Delta(first)), Delta(second)) == Edited(e, Delta(first + second))
  {
    assert (e.body + first) + second == e.body + (first + second);
  }

  /** A new entry, its identity minted by the caller. */
  function Fresh(id: string, key: Option<string>, kind: EntryKind, title: string, body: string,
                 status: EntryStatus, now: nat): (e: TranscriptEntry)
    ensures IsFresh(e, id, key, kind, title, body, status, now)
  {
    TranscriptEntry(None, id, key, kind, title, body, status, Some(now), None, None, None, None, None, None, None)
  }

  /** What a new entry says, and that nothing else is known of it. */
  predicate IsFresh(e: TranscriptEntry, id: string, key: Option<string>, kind: EntryKind, title: string, body: string,
                    status: EntryStatus, now: nat) {
    && e.id == id && e.key == key && e.kind == kind && e.title == title && e.body == body && e.status == status
    && e.createdAt == Some(now) && e.coordination.None? && e.provider.None? && e.model.None? && e.ownerTurn.None?
    && e.reasoningEffort.None? && e.fastMode.None? && e.sourceTransport.None? && e.toolAudit.None?
  }

  // ----- moving an entry

  function Without<T>(s: seq<T>, i: nat): seq<T>
    requires i < |s|
  {
    s[..i] + s[i + 1..]
  }

  /** Entry `index` removed and put back at `anchor`. */
  function Moved<T>(s: seq<T>, index: nat, anchor: nat): (r: seq<T>)
    requires anchor <= index < |s|
    ensures |r| == |s|
  {
    Without(s, index)[..anchor] + [s[index]] + Without(s, index)[anchor..]
  }

  lemma WithoutAt<T>(s: seq<T>, i: nat, j: nat)
    requires i < |s| && j < |s| - 1
    ensures Without(s, i)[j] == s[if j < i then j else j + 1]
  {
  }

  /** Where each entry ends up. */
  lemma MovedAt<T>(s: seq<T>, index: nat, anchor: nat, i: nat)
    requires anchor <= index < |s| && i < |s|
    ensures Moved(s, index, anchor)[i] == s[if i < anchor || index < i then i else if i == anchor then index else i - 1]
  {
    var w, r := Without(s, index), Moved(s, index, anchor);
    assert |w[..anchor]| == anchor && |w[..anchor] + [s[index]]| == anchor + 1;
    if i < anchor {
      assert r[i] == w[..anchor][i] == w[i];
      WithoutAt(s, index, i);
    } else if i > anchor {
      assert r[i] == w[anchor..][i - anchor - 1] == w[i - 1];
      WithoutAt(s, index, i - 1);
    }
  }

  /** A move permutes the entries, keeps the order of all the others, leaves those before the anchor in
      place, and puts the entry directly before its anchor. */
  lemma MovedProperties<T>(s: seq<T>, index: nat, anchor: nat)
    requires anchor <= index < |s|
    ensures multiset(Moved(s, index, anchor)) == multiset(s)
    ensures Without(Moved(s, index, anchor), anchor) == Without(s, index)
    ensures Moved(s, index, anchor)[..anchor] == s[..anchor]
    ensures Moved(s, index, anchor)[anchor] == s[index]
    ensures anchor < index ==> Moved(s, index, anchor)[anchor + 1] == s[anchor]
    ensures anchor == index ==> Moved(s, index, anchor) == s
  {
    var w, r := Without(s, index), Moved(s, index, anchor);
    assert Without(r, anchor) == w;
    MultisetOfParts(s, index);
    MultisetOfParts(r, anchor);
    MovedAt(s, index, anchor, anchor);
    if anchor == index {
      assert r == s;
    } else {
      MovedAt(s, index, anchor, anchor + 1);
    }
  }

  lemma MultisetOfParts<T>(s: seq<T>, i: nat)
    requires i < |s|
    ensures multiset(s) == multiset(Without(s, i)) + multiset{s[i]}
  {
    assert s == s[..i] + [s[i]] + s[i + 1..];
  }

  /** What is stored under the keys of present entries. */
  function OfKeys<V>(m: map<string, V>, index: KeyIndex): map<string, V> {
    map k | k in m && k in index :: m[k]
  }

  predicate Present(entries: seq<TranscriptEntry>, id: string) {
    exists i :: 0 <= i < |entries| && entries[i].id == id
  }

  // ----- images kept beside the entries

  function ImagesOf(images: Images, key: string): seq<Artifact> {
    if key in images then images[key] else []
  }

  function Restored(images: Images, stored: seq<(string, Artifact)>): Images {
    if stored == [] then images
    else
      var before, last := Restored(images, stored[..|stored| - 1]), stored[|stored| - 1];
      before[last.0 := ImagesOf(before, last.0) + [last.1]]
  }

  /** The stored images of one key, in order. */
  function ForKey(stored: seq<(string, Artifact)>, key: string): seq<Artifact> {
    if stored == [] then []
    else
      var last := stored[|stored| - 1];
      ForKey(stored[..|stored| - 1], key) + if last.0 == key then [last.1] else []
  }

  /** Restoring puts the stored images of each key behind those it has, and touches no other key. */
  lemma {:induction false} RestoredAt(images: Images, stored: seq<(string, Artifact)>, key: string)
    ensures ImagesOf(Restored(images, stored), key) == ImagesOf(images, key) + ForKey(stored, key)
    ensures key in Restored(images, stored) <==> key in images || ForKey(stored, key) != []
  {
    if stored != [] {
      RestoredAt(images, stored[..|stored| - 1], key);
    }
  }

  function Labelled(key: string, artifacts: seq<Artifact>): seq<(string, Artifact)> {
    seq(|artifacts|, i requires 0 <= i < |artifacts| => (key, artifacts[i]))
  }

  function StoredOf(entries: seq<TranscriptEntry>, images: Images): seq<(string, Artifact)> {
    if entries == [] then []
    else
      var last := entries[|entries| - 1];
      StoredOf(entries[..|entries| - 1], images)
      + if last.key.Some? then Labelled(last.key.value, ImagesOf(images, last.key.value)) else []
  }

  lemma {:induction false} ForKeyConcat(a: seq<(string, Artifact)>, b: seq<(string, Artifact)>, key: string)
    ensures ForKey(a + b, key) == ForKey(a, key) + ForKey(b, key)
  {
    if b == [] {
      assert a + b == a;
    } else {
      assert (a + b)[..|a + b| - 1] == a + b[..|b| - 1];
      ForKeyConcat(a, b[..|b| - 1], key);
    }
  }

  lemma {:induction false} ForKeyLabelled(owner: string, artifacts: seq<Artifact>, key: string)
    ensures ForKey(Labelled(owner, artifacts), key) == if owner == key then artifacts else []
  {
    if artifacts != [] {
      var front := artifacts[..|artifacts| - 1];
      ForKeyLabelled(owner, front, key);
      assert Labelled(owner, artifacts)[..|artifacts| - 1] == Labelled(owner, front);
    }
  }

  predicate Keyed(entries: seq<TranscriptEntry>, key: string) {
    exists i :: 0 <= i < |entries| && entries[i].key == Some(key)
  }

  lemma KeyedNext(entries: seq<TranscriptEntry>, key: string)
    requires entries != [] && KeysUnique(entries)
    ensures var before, last := entries[..|entries| - 1], entries[|entries| - 1];
            && KeysUnique(before)
            && (Keyed(entries, key) <==> Keyed(before, key) || last.key == Some(key))
            && !(Keyed(before, key) && last.key == Some(key))
  {
    var before := entries[..|entries| - 1];
    assert forall i :: 0 <= i < |before| ==> before[i] == entries[i];
  }

  lemma {:induction false} StoredForKey(entries: seq<TranscriptEntry>, images: Images, key: string)
    requires KeysUnique(entries)
    ensures ForKey(StoredOf(entries, images), key) == if Keyed(entries, key) then ImagesOf(images, key) else []
  {
    if entries != [] {
      var before, last := entries[..|entries| - 1], entries[|entries| - 1];
      KeyedNext(entries, key);
      StoredForKey(before, images, key);
      if last.key.Some? {
        var more := Labelled(last.key.value, ImagesOf(images, last.key.value));
        ForKeyConcat(StoredOf(before, images), more, key);
        ForKeyLabelled(last.key.value, ImagesOf(images, last.key.value), key);
      } else {
        assert StoredOf(entries, images) == StoredOf(before, images);
      }
    }
  }

  /** Storing the images and restoring them into a transcript without any brings back those of its entries,
      and no others. */
  lemma ImagesRoundTrip(entries: seq<TranscriptEntry>, images: Images, key: string)
    requires KeysUnique(entries)
    ensures ImagesOf(Restored(map[], StoredOf(entries, images)), key)
         == if Keyed(entries, key) then ImagesOf(images, key) else []
  {
    RestoredAt(map[], StoredOf(entries, images), key);
    StoredForKey(entries, images, key);
  }

  /** The key stands at its anchor or behind it. */
  predicate Moves(index: KeyIndex, key: string, anchor: string) {
    key in index && anchor in index && index[anchor] <= index[key]
  }

  /** The first `n` steps carry the digests of their entries. */
  ghost predicate Digested(reader: AuditReader, entries: seq<TranscriptEntry>, steps: seq<ProvenStep>, n: nat)
    requires n <= |steps| && n <= |entries|
  {
    forall i :: 0 <= i < n ==> steps[i].digest == DigestOf(reader, entries[i])
  }

  ghost predicate AreDigests(reader: AuditReader, entries: seq<TranscriptEntry>, proofs: seq<EntryDigest>) {
    |proofs| == |entries| && forall i :: 0 <= i < |entries| ==> proofs[i] == DigestOf(reader, entries[i])
  }

  /** An entry under an identity made of its session, and of its key or else its place. */
  function Retained(session: string, entry: TranscriptEntry, i: nat): TranscriptEntry {
    entry.(id := "retained:" + session + ":" + entry.key.GetOr(Numeral(i)))
  }

  /** What tells the retained id of an entry apart from the others of its session. */
  function Tag(entries: seq<TranscriptEntry>, i: nat): string
    requires i < |entries|
  {
    entries[i].key.GetOr(Numeral(i))
  }

  lemma SameRetainedId(session: string, entries: seq<TranscriptEntry>, i: nat, j: nat)
    requires i < |entries| && j < |entries|
    ensures Retained(session, entries[i], i).id == Retained(session, entries[j], j).id
       <==> Tag(entries, i) == Tag(entries, j)
  {
    var prefix := "retained:" + session + ":";
    assert (prefix + Tag(entries, i))[|prefix|..] == Tag(entries, i);
    assert (prefix + Tag(entries, j))[|prefix|..] == Tag(entries, j);
  }

  /** The place of an entry without a key is the key of another entry. */
  ghost predicate PlaceIsKey(entries: seq<TranscriptEntry>, i: nat, j: nat) {
    i < |entries| && j < |entries| && entries[i].key.None? && entries[j].key == Some(Numeral(i))
  }

  /** Two entries get the same retained id exactly when one has no key and its place is the key of the other. */
  lemma RetainedIdsCollide(session: string, entries: seq<TranscriptEntry>, index: KeyIndex, i: nat, j: nat)
    requires IndexExact(entries, index) && i < |entries| && j < |entries| && i != j
    ensures Retained(session, entries[i], i).id == Retained(session, entries[j], j).id
       <==> PlaceIsKey(entries, i, j) || PlaceIsKey(entries, j, i)
  {
    SameRetainedId(session, entries, i, j);
    ValueOfNumeral(i);
    ValueOfNumeral(j);
  }

  /** Where the entry of a key stands; an unknown key comes behind all entries. */
  function PlaceOf(entries: seq<TranscriptEntry>, index: KeyIndex, key: string): nat {
    if key in index then index[key] else |entries|
  }

  class DomainTranscript {
    const reader: AuditReader
    var entries: seq<TranscriptEntry>
    var itemIndices: KeyIndex
    var images: Images
    var localFiles: map<string, seq<(string, string)>>
    var streamActive: bool
    var streamLabel: string
    var truncated: bool
    var prefixes: Option<seq<Chain>>
    var digests: Digests
    var watermark: nat
    var steps: seq<ProvenStep>
    var codemodeTools: set<string>

    /** What the stored steps were chained against. */
    ghost function Stored(): Ground
      reads this`images, this`truncated, this`codemodeTools
    {
      Ground(reader, images, truncated, codemodeTools)
    }

    ghost predicate Valid()
      reads this
    {
      && IndexExact(entries, itemIndices)
      && ChainExact(Stored(), entries, watermark, steps)
      && (prefixes.Some? ==> prefixes.value == ProofsOf(reader, images, truncated, entries))
      && DigestsExact(reader, digests)
    }

    constructor (reader: AuditReader)
      ensures Valid() && entries == [] && images == map[] && !truncated && this.reader == reader
    {
      this.reader := reader;
      entries, itemIndices, images, localFiles := [], map[], map[], map[];
      streamActive, streamLabel, truncated := false, "Nakode", false;
      prefixes, digests, watermark, steps, codemodeTools := None, map[], 0, [], {};
    }

    /** Records a mutation: proofs of the entries before `index` still hold. */
    method ChangedFrom(index: nat)
      requires Valid()
      modifies this`prefixes, this`watermark
      ensures Valid() && prefixes.None? && watermark == Min(old(watermark), index)
    {
      prefixes := None;
      ChainKept(Stored(), entries, watermark, steps, images, entries, Min(watermark, index));
      watermark := Min(watermark, index);
    }

    /** Records a mutation of the entry with `key`; an unknown key changes no existing entry. */
    method ChangedAtKey(key: string)
      requires Valid()
      modifies this`prefixes, this`watermark
      ensures Valid() && prefixes.None? && watermark == Min(old(watermark), PlaceOf(entries, itemIndices, key))
    {
      ChangedFrom(if key in itemIndices then itemIndices[key] else |entries|);
    }

    /** Puts an entry in the place of one with the same key, behind what is still proven. */
    method ReplaceAt(index: nat, entry: TranscriptEntry)
      requires Valid() && prefixes.None? && watermark <= index < |entries| && entry.key == entries[index].key
      modifies this`entries
      ensures Valid() && entries == old(entries)[index := entry]
    {
      EditKept(Stored(), entries, itemIndices, watermark, steps, index, entry);
      entries := entries[index := entry];
    }

    method EditByKey(key: string, edit: KeyedEdit)
      requires Valid()
      modifies this`entries, this`prefixes, this`watermark
      ensures Valid() && prefixes.None?
      ensures watermark == Min(old(watermark), PlaceOf(old(entries), old(itemIndices), key))
      ensures entries == if key in itemIndices
                         then old(entries)[itemIndices[key] := Edited(old(entries)[itemIndices[key]], edit)]
                         else old(entries)
    {
      ChangedAtKey(key);
      if key in itemIndices {
        var index := itemIndices[key];
        ReplaceAt(index, Edited(entries[index], edit));
      }
    }

    method Push(id: string, kind: EntryKind, title: string, body: string, status: EntryStatus, now: nat)
      requires Valid()
      modifies this`entries, this`prefixes, this`watermark
      ensures Valid() && prefixes.None? && watermark == Min(old(watermark), |old(entries)|)
      ensures entries == old(entries) + [Fresh(id, None, kind, title, body, status, now)]
    {
      ChangedFrom(|entries|);
      Append(Fresh(id, None, kind, title, body, status, now));
    }

    /** Appends an entry without a key. */
    method Append(entry: TranscriptEntry)
      requires Valid() && prefixes.None? && entry.key.None?
      modifies this`entries
      ensures Valid() && entries == old(entries) + [entry]
    {
      AppendKept(Stored(), entries, itemIndices, watermark, steps, entry);
      entries := entries + [entry];
    }

    /** Appends an entry with a key the index does not hold. */
    method AppendKeyed(entry: TranscriptEntry)
      requires Valid() && prefixes.None? && entry.key.Some? && entry.key.value !in itemIndices
      modifies this`entries, this`itemIndices
      ensures Valid() && entries == old(entries) + [entry]
      ensures itemIndices == old(itemIndices)[entry.key.value := |old(entries)|]
    {
      AppendKept(Stored(), entries, itemIndices, watermark, steps, entry);
      itemIndices := itemIndices[entry.key.value := |entries|];
      entries := entries + [entry];
    }

    method Upsert(id: string, key: string, kind: EntryKind, title: string, body: string, status: EntryStatus, now: nat)
      requires Valid()
      modifies this`entries, this`itemIndices, this`prefixes, this`watermark
      ensures Valid() && prefixes.None?
      ensures watermark == Min(old(watermark), PlaceOf(old(entries), old(itemIndices), key))
      ensures key in old(itemIndices) ==>
                && itemIndices == old(itemIndices)
                && var i := itemIndices[key];
                   entries == old(entries)[i := Edited(old(entries)[i], Content(kind, title, body, status))]
      ensures key !in old(itemIndices) ==>
                && itemIndices == old(itemIndices)[key := |old(entries)|]
                && entries == old(entries) + [Fresh(id, Some(key), kind, title, body, status, now)]
    {
      ChangedAtKey(key);
      if key in itemIndices {
        var index := itemIndices[key];
        ReplaceAt(index, Edited(entries[index], Content(kind, title, body, status)));
      } else {
        AppendKeyed(Fresh(id, Some(key), kind, title, body, status, now));
      }
    }

    method AppendDelta(id: string, key: string, kind: EntryKind, title: string, delta: string, now: nat)
      requires Valid()
      modifies this`entries, this`itemIndices, this`prefixes, this`watermark
      ensures Valid() && prefixes.None?
      ensures watermark == Min(old(watermark), PlaceOf(old(entries), old(itemIndices), key))
      ensures key in old(itemIndices) ==>
                && itemIndices == old(itemIndices)
                && var i := itemIndices[key];
                   entries == old(entries)[i := Edited(old(entries)[i], Delta(delta))]
      ensures key !in old(itemIndices) ==>
                && itemIndices == old(itemIndices)[key := |old(entries)|]
                && entries == old(entries) + [Fresh(id, Some(key), kind, title, delta, Running, now)]
    {
      ChangedAtKey(key);
      if key in itemIndices {
        var index := itemIndices[key];
        ReplaceAt(index, Edited(entries[index], Delta(delta)));
      } else {
        AppendKeyed(Fresh(id, Some(key), kind, title, delta, Running, now));
      }
    }

    /** Restores a stored entry as it is, over the entry with its key if there is one. */
    method Restore(entry: TranscriptEntry)
      requires Valid()
      modifies this`entries, this`itemIndices, this`prefixes, this`watermark
      ensures Valid() && prefixes.None?
      ensures watermark == Min(old(watermark), if entry.key.Some?
                                               then PlaceOf(old(entries), old(itemIndices), entry.key.value)
                                               else |old(entries)|)
      ensures entry.key.Some? && entry.key.value in old(itemIndices) ==>
                itemIndices == old(itemIndices) && entries == old(entries)[itemIndices[entry.key.value] := entry]
      ensures !(entry.key.Some? && entry.key.value in old(itemIndices)) ==> entries == old(entries) + [entry]
    {
      if entry.key.Some? {
        ChangedAtKey(entry.key.value);
      } else {
        ChangedFrom(|entries|);
      }
      if entry.key.Some? && entry.key.value in itemIndices {
        ReplaceAt(itemIndices[entry.key.value], entry);
      } else if entry.key.Some? {
        AppendKeyed(entry);
      } else {
        Append(entry);
      }
    }

    /** Moves a later entry directly before its anchor; everything else keeps its order. */
    method MoveBefore(key: string, anchor: string)
      requires Valid()
      modifies this`entries, this`itemIndices, this`images, this`localFiles, this`prefixes, this`watermark
      ensures Valid() && prefixes.None?
      ensures watermark == Min(old(watermark), PlaceOf(old(entries), old(itemIndices), anchor))
      ensures entries == if Moves(old(itemIndices), key, anchor)
                         then Moved(old(entries), old(itemIndices)[key], old(itemIndices)[anchor])
                         else old(entries)
      ensures images == if Moves(old(itemIndices), key, anchor) then OfKeys(old(images), itemIndices) else old(images)
      ensures localFiles == if Moves(old(itemIndices), key, anchor) then OfKeys(old(localFiles), itemIndices)
                            else old(localFiles)
    {
      ChangedAtKey(anchor);
      if key !in itemIndices || anchor !in itemIndices {
        return;
      }
      var index, anchorIndex := itemIndices[key], itemIndices[anchor];
      if index < anchorIndex {
        return;
      }
      MovedKept(Stored(), entries, itemIndices, watermark, steps, index, anchorIndex);
      Rearrange(Moved(entries, index, anchorIndex));
    }

    method Remove(key: string)
      requires Valid()
      modifies this`entries, this`itemIndices, this`images, this`localFiles, this`prefixes, this`watermark
      ensures Valid() && prefixes.None?
      ensures watermark == Min(old(watermark), PlaceOf(old(entries), old(itemIndices), key))
      ensures entries == if key in old(itemIndices) then Without(old(entries), old(itemIndices)[key]) else old(entries)
      ensures images == if key in old(itemIndices) then OfKeys(old(images), itemIndices) else old(images)
      ensures localFiles == if key in old(itemIndices) then OfKeys(old(localFiles), itemIndices) else old(localFiles)
    {
      ChangedAtKey(key);
      if key !in itemIndices {
        return;
      }
      var index := itemIndices[key];
      var rest := Without(entries, index);
      RemovedKept(Stored(), entries, itemIndices, watermark, steps, index);
      Rearrange(rest);
    }

    /** Other entries, the same up to the watermark, and their index. */
    method Rearrange(rest: seq<TranscriptEntry>)
      requires KeysUnique(rest) && ChainExact(Stored(), rest, watermark, steps) && DigestsExact(reader, digests)
      modifies this`entries, this`itemIndices, this`images, this`localFiles, this`prefixes
      ensures Valid() && prefixes.None? && entries == rest
      ensures images == OfKeys(old(images), itemIndices) && localFiles == OfKeys(old(localFiles), itemIndices)
    {
      entries := rest;
      Reindex();
    }

    /** Rebuilds the key index and drops artifacts of keys that are gone. */
    method Reindex()
      requires KeysUnique(entries) && ChainExact(Stored(), entries, watermark, steps) && DigestsExact(reader, digests)
      modifies this`itemIndices, this`prefixes, this`images, this`localFiles
      ensures Valid() && prefixes.None?
      ensures images == OfKeys(old(images), itemIndices) && localFiles == OfKeys(old(localFiles), itemIndices)
    {
      prefixes := None;
      IndexEntries();
      RetainArtifacts();
    }

    method IndexEntries()
      requires KeysUnique(entries)
      modifies this`itemIndices
      ensures IndexExact(entries, itemIndices)
    {
      itemIndices := map[];
      for i := 0 to |entries|
        invariant IndexUpTo(entries, itemIndices, i)
      {
        IndexNext(entries, itemIndices, i);
        if entries[i].key.Some? {
          itemIndices := itemIndices[entries[i].key.value := i];
        }
      }
    }

    method RetainArtifacts()
      requires Valid() && prefixes.None?
      modifies this`images, this`localFiles
      ensures Valid()
      ensures images == OfKeys(old(images), itemIndices) && localFiles == OfKeys(old(localFiles), itemIndices)
    {
      var kept := OfKeys(images, itemIndices);
      KeptImages(entries, itemIndices, images, kept);
      ChainKept(Stored(), entries, watermark, steps, kept, entries, watermark);
      images := kept;
      localFiles := OfKeys(localFiles, itemIndices);
    }

    // ----- mutations of everything

    method SetSourceTransportForUserTurn(turn: string, transport: string)
      requires Valid()
      modifies this`entries, this`prefixes, this`watermark
      ensures Valid() && prefixes.None? && watermark == 0 && |entries| == |old(entries)|
      ensures forall i :: 0 <= i < |entries| ==>
                entries[i] == if old(entries)[i].kind == User && old(entries)[i].ownerTurn == Some(turn)
                              then Edited(old(entries)[i], SourceTransport(Some(transport)))
                              else old(entries)[i]
    {
      ChangedFrom(0);
      EditAll((e: TranscriptEntry) =>
                if e.kind == User && e.ownerTurn == Some(turn) then Edited(e, SourceTransport(Some(transport))) else e);
    }

    method FinishRunningEntries(status: EntryStatus)
      requires Valid()
      modifies this`entries, this`prefixes, this`watermark, this`streamActive
      ensures Valid() && prefixes.None? && watermark == 0 && !streamActive && |entries| == |old(entries)|
      ensures forall i :: 0 <= i < |entries| ==> entries[i] == Edited(old(entries)[i], FinishRunning(status))
    {
      ChangedFrom(0);
      EditAll((e: TranscriptEntry) => Edited(e, FinishRunning(status)));
      streamActive := false;
    }

    method EditAll(edit: TranscriptEntry -> TranscriptEntry)
      requires Valid() && prefixes.None? && watermark == 0
      requires forall e :: edit(e).key == e.key
      modifies this`entries
      ensures Valid() && |entries| == |old(entries)|
      ensures forall i :: 0 <= i < |entries| ==> entries[i] == edit(old(entries)[i])
    {
      for i := 0 to |entries|
        modifies this`entries
        invariant |entries| == |old(entries)|
        invariant forall j :: 0 <= j < |entries| ==>
                    entries[j] == if j < i then edit(old(entries)[j]) else old(entries)[j]
      {
        entries := entries[i := edit(entries[i])];
      }
    }

    /** Stable identities for evidence rebuilt without a live engine. */
    method RetainEntryIds(session: string)
      requires Valid()
      modifies this`entries, this`prefixes, this`watermark
      ensures Valid() && prefixes.None? && watermark == 0 && |entries| == |old(entries)|
      ensures forall i :: 0 <= i < |entries| ==> entries[i] == Retained(session, old(entries)[i], i)
    {
      ChangedFrom(0);
      for i := 0 to |entries|
        modifies this`entries
        invariant |entries| == |old(entries)|
        invariant forall j :: 0 <= j < |entries| ==>
                    entries[j] == if j < i then Retained(session, old(entries)[j], j) else old(entries)[j]
      {
        entries := entries[i := Retained(session, entries[i], i)];
      }
    }

    method Clear()
      requires Valid()
      modifies this
      ensures Valid() && entries == [] && itemIndices == map[] && images == map[] && localFiles == map[]
      ensures !streamActive && !truncated
    {
      ChangedFrom(0);
      entries, itemIndices, images, localFiles := [], map[], map[], map[];
      streamActive, truncated := false, false;
    }

    method MarkHistoryTruncated()
      requires Valid()
      modifies this`truncated, this`prefixes, this`watermark
      ensures Valid() && prefixes.None? && watermark == 0 && truncated
    {
      ChangedFrom(0);
      truncated := true;
    }

    method SetLabeledImages(key: string, labeled: seq<Artifact>)
      requires Valid()
      modifies this`images, this`prefixes, this`watermark
      ensures Valid() && prefixes.None? && watermark == 0
      ensures images == if labeled == [] then old(images) - {key} else old(images)[key := labeled]
    {
      ChangedFrom(0);
      images := if labeled == [] then images - {key} else images[key := labeled];
    }

    /** Each stored image goes behind those of its key. */
    method RestoreImages(stored: seq<(string, Artifact)>)
      requires Valid()
      modifies this`images, this`prefixes, this`watermark
      ensures Valid() && prefixes.None? && watermark == 0
      ensures images == Restored(old(images), stored)
    {
      ChangedFrom(0);
      for i := 0 to |stored|
        invariant Valid() && prefixes.None? && watermark == 0
        invariant images == Restored(old(images), stored[..i])
      {
        assert stored[..i + 1][..i] == stored[..i];
        var key, artifact := stored[i].0, stored[i].1;
        images := images[key := ImagesOf(images, key) + [artifact]];
      }
      assert stored[..|stored|] == stored;
    }

    /** The images of present entries, in order, with the key each belongs to. */
    method StoredImages() returns (stored: seq<(string, Artifact)>)
      ensures stored == StoredOf(entries, images)
    {
      stored := [];
      for i := 0 to |entries|
        invariant stored == StoredOf(entries[..i], images)
      {
        assert entries[..i + 1][..i] == entries[..i];
        if entries[i].key.Some? {
          stored := stored + Labelled(entries[i].key.value, ImagesOf(images, entries[i].key.value));
        }
      }
      assert entries[..|entries|] == entries;
    }

    method SetLocalFiles(key: string, files: seq<(string, string)>)
      requires Valid()
      modifies this`localFiles, this`prefixes, this`watermark
      ensures Valid() && prefixes.None? && watermark == 0
      ensures localFiles == if files == [] then old(localFiles) - {key} else old(localFiles)[key := files]
    {
      ChangedFrom(0);
      localFiles := if files == [] then localFiles - {key} else localFiles[key := files];
    }

    method SetStreamActive(active: bool)
      requires Valid()
      modifies this`streamActive, this`prefixes, this`watermark
      ensures Valid() && prefixes.None? && watermark == 0 && streamActive == active
    {
      ChangedFrom(0);
      streamActive := active;
    }

    method SetStreamLabel(caption: string)
      requires Valid()
      modifies this`streamLabel, this`prefixes, this`watermark
      ensures Valid() && prefixes.None? && watermark == 0 && streamLabel == caption
    {
      ChangedFrom(0);
      streamLabel := caption;
    }

    /** Digests kept elsewhere, computed by the same function. */
    method ShareEntryDigests(shared: Digests)
      requires Valid() && DigestsExact(reader, shared)
      modifies this`digests
      ensures Valid() && digests == shared
    {
      digests := shared;
    }

    // ----- proofs

    /** The digest of an entry, from the cache when the cached entry is equal. */
    method EntryDigest(entry: TranscriptEntry) returns (digest: EntryDigest)
      requires DigestsExact(reader, digests)
      modifies this`digests
      ensures DigestsExact(reader, digests) && digest == DigestOf(reader, entry)
    {
      if entry.id in digests && digests[entry.id].0 == entry {
        return digests[entry.id].1;
      }
      digest := DigestOf(reader, entry);
      digests := digests[entry.id := (entry, digest)];
    }

    method PruneEntryDigests()
      requires DigestsExact(reader, digests)
      modifies this`digests
      ensures DigestsExact(reader, digests)
      ensures digests == if |old(digests)| <= |entries| then old(digests)
                         else map id | id in old(digests) && Present(entries, id) :: old(digests)[id]
    {
      if |digests| <= |entries| {
        return;
      }
      var live := set i | 0 <= i < |entries| :: entries[i].id;
      assert forall id :: id in live <==> Present(entries, id);
      digests := map id | id in digests && id in live :: digests[id];
    }

    /** The digests of all entries: those of the reusable steps, then the others from the cache. */
    method CollectDigests(reusable: nat) returns (proofs: seq<EntryDigest>)
      requires DigestsExact(reader, digests)
      requires reusable <= |steps| && reusable <= |entries| && Digested(reader, entries, steps, reusable)
      modifies this`digests
      ensures DigestsExact(reader, digests)
      ensures AreDigests(reader, entries, proofs)
    {
      proofs := [];
      for i := 0 to |entries|
        modifies this`digests
        invariant |proofs| == i && DigestsExact(reader, digests)
        invariant forall j :: 0 <= j < i ==> proofs[j] == DigestOf(reader, entries[j])
      {
        if i < reusable {
          proofs := proofs + [steps[i].digest];
        } else {
          var digest := EntryDigest(entries[i]);
          proofs := proofs + [digest];
        }
      }
    }

    method CodemodeToolsOf(proofs: seq<EntryDigest>) returns (tools: set<string>)
      requires AreDigests(reader, entries, proofs)
      ensures tools == CodemodeTools(reader, entries)
    {
      tools := set i | 0 <= i < |entries| && proofs[i].codemodeTool :: entries[i].id;
    }

    /** A visible entry extends the chain, by its digest and image count, and its parent if that is a tool. */
    method NextStep(tools: set<string>, entry: TranscriptEntry, digest: EntryDigest, current: Chain)
      returns (step: ProvenStep)
      ensures step == StepAfter(Ground(reader, images, truncated, tools), current, digest, entry)
    {
      var next := current;
      var prefix := None;
      if VisibleEntry(entry) {
        var parent := if digest.parent.Some? && digest.parent.value in tools then digest.parent else None;
        next := Link(next, digest.content, ImageCount(images, entry), parent);
        prefix := Some(next);
      }
      step := ProvenStep(digest, next, prefix);
    }

    /** Chains the entries behind the steps already there. */
    method ExtendSteps(tools: set<string>, proofs: seq<EntryDigest>)
      requires |steps| <= |entries|
      requires steps == Steps(Ground(reader, images, truncated, tools), entries[..|steps|])
      requires AreDigests(reader, entries, proofs)
      modifies this`steps
      ensures steps == Steps(Ground(reader, images, truncated, tools), entries)
    {
      ghost var g := Ground(reader, images, truncated, tools);
      var current := if steps == [] then Start(truncated) else steps[|steps| - 1].chain;
      for i := |steps| to |entries|
        modifies this`steps
        invariant Chained(g, entries, i, steps, current)
      {
        ChainedNext(g, entries, i, steps, current);
        var step := NextStep(tools, entries[i], proofs[i], current);
        current := step.chain;
        steps := steps + [step];
      }
      assert entries[..|entries|] == entries;
    }

    method PrefixList() returns (result: seq<Chain>)
      ensures result == [Start(truncated)] + Prefixes(steps)
    {
      result := [Start(truncated)];
      for i := 0 to |steps|
        invariant result == [Start(truncated)] + Prefixes(steps[..i])
      {
        assert steps[..i + 1][..i] == steps[..i];
        if steps[i].prefix.Some? {
          result := result + [steps[i].prefix.value];
        }
      }
      assert steps[..|steps|] == steps;
    }

    /** Keeps the steps that still hold, and no others. */
    method KeepReusable() returns (reusable: nat)
      requires Valid()
      modifies this`steps
      ensures reusable == |steps| <= |entries| && steps == Steps(Stored(), entries[..reusable])
      ensures reusable <= |steps| && reusable <= |entries| && Digested(reader, entries, steps, reusable)
    {
      reusable := Min(Min(watermark, |steps|), |entries|);
      steps := steps[..reusable];
      assert steps == Steps(Stored(), entries[..reusable]);
      StepDigests(Stored(), entries[..reusable]);
    }

    /** Re-proves from the watermark; the result is what proving from scratch gives. */
    method TranscriptPrefixes() returns (result: seq<Chain>)
      requires Valid()
      modifies this`digests, this`watermark, this`steps, this`codemodeTools
      ensures Valid()
      ensures result == ProofsOf(reader, images, truncated, entries)
      ensures ProvesHistory(result, reader, images, truncated, entries)
      ensures codemodeTools == CodemodeTools(reader, entries)
      ensures watermark == |steps| == |entries| && steps == Steps(Stored(), entries)
    {
      var reusable := KeepReusable();
      result := Reprove(reusable);
    }

    /** Chains the rest behind `reusable` steps, or everything when the code-mode tools changed. */
    method Rechain(reusable: nat)
      requires DigestsExact(reader, digests) && reusable == |steps| <= |entries|
      requires steps == Steps(Stored(), entries[..reusable]) && Digested(reader, entries, steps, reusable)
      modifies this`digests, this`steps, this`codemodeTools
      ensures DigestsExact(reader, digests) && codemodeTools == CodemodeTools(reader, entries)
      ensures steps == Steps(Stored(), entries)
    {
      var proofs := CollectDigests(reusable);
      PruneEntryDigests();
      var tools := CodemodeToolsOf(proofs);
      if tools != codemodeTools {
        steps := [];
        assert entries[..0] == [];
      }
      ExtendSteps(tools, proofs);
      codemodeTools := tools;
    }

    /** Proves the rest behind `reusable` steps, and moves the watermark to the end. */
    method Reprove(reusable: nat) returns (result: seq<Chain>)
      requires DigestsExact(reader, digests) && reusable == |steps| <= |entries|
      requires steps == Steps(Stored(), entries[..reusable]) && Digested(reader, entries, steps, reusable)
      modifies this`digests, this`watermark, this`steps, this`codemodeTools
      ensures DigestsExact(reader, digests)
      ensures result == ProofsOf(reader, images, truncated, entries)
      ensures ProvesHistory(result, reader, images, truncated, entries)
      ensures codemodeTools == CodemodeTools(reader, entries)
      ensures watermark == |steps| == |entries| && steps == Steps(Stored(), entries)
      ensures ChainExact(Stored(), entries, watermark, steps)
    {
      Rechain(reusable);
      watermark := |entries|;
      ChainWhole(Stored(), entries, steps);
      ProofsFromSteps(Stored(), entries);
      ProofsProve(reader, images, truncated, entries);
      result := PrefixList();
    }

    /** The proofs as cached, or proved now: never stale. */
    method CachedPrefixes() returns (result: seq<Chain>)
      requires Valid()
      modifies this`digests, this`watermark, this`steps, this`codemodeTools, this`prefixes
      ensures Valid() && prefixes == Some(result)
      ensures result == ProofsOf(reader, images, truncated, entries)
      ensures ProvesHistory(result, reader, images, truncated, entries)
    {
      if prefixes.None? {
        var proven := TranscriptPrefixes();
        prefixes := Some(proven);
      }
      ProofsProve(reader, images, truncated, entries);
      result := prefixes.value;
    }

    /** The digests of the visible entries, read off the chain when it covers every entry. */
    method VisibleEntryDigests() returns (result: Option<seq<EntryDigest>>)
      requires Valid()
      ensures result.Some? <==> watermark == |entries| && |steps| == |entries|
      ensures result.Some? ==> result.value == VisibleDigests(reader, entries)
      ensures result.Some? ==> DigestsOfVisible(reader, images, entries, result.value)
    {
      if watermark != |entries| || |steps| != |entries| {
        return None;
      }
      var found: seq<EntryDigest> := [];
      assert steps[..watermark] == steps && entries[..watermark] == entries;
      StepDigests(Stored(), entries);
      VisibleDigestsAre(reader, images, entries);
      for i := 0 to |entries|
        invariant found == VisibleDigests(reader, entries[..i])
      {
        assert entries[..i + 1][..i] == entries[..i];
        if VisibleEntry(entries[i]) {
          found := found + [steps[i].digest];
        }
      }
      assert entries[..|entries|] == entries;
      result := Some(found);
    }
  }

  /** One digest a visible entry, in order, with its content and the parent it names. */
  ghost predicate DigestsOfVisible(reader: AuditReader, images: Images, entries: seq<TranscriptEntry>,
                                   digests: seq<EntryDigest>) {
    var visible := VisibleWithImages(images, entries);
    && |digests| == |visible|
    && forall k :: 0 <= k < |visible| ==>
         && digests[k].content == visible[k].0
         && digests[k].parent == AuditIdentity(reader, visible[k].0, "parentItemId")
  }

  lemma {:induction false} VisibleDigestsAre(reader: AuditReader, images: Images, entries: seq<TranscriptEntry>)
    ensures DigestsOfVisible(reader, images, entries, VisibleDigests(reader, entries))
  {
    if entries != [] {
      VisibleDigestsAre(reader, images, entries[..|entries| - 1]);
    }
  }

  function VisibleDigests(reader: AuditReader, entries: seq<TranscriptEntry>): seq<EntryDigest> {
    if entries == [] then []
    else
      var last := entries[|entries| - 1];
      VisibleDigests(reader, entries[..|entries| - 1]) + (if VisibleEntry(last) then [DigestOf(reader, last)] else [])
  }

  /** The index of the first `n` entries. */
  ghost predicate IndexUpTo(entries: seq<TranscriptEntry>, index: KeyIndex, n: nat) {
    && n <= |entries|
    && (forall k :: k in index ==> index[k] < n && entries[index[k]].key == Some(k))
    && (forall i :: 0 <= i < n && entries[i].key.Some? ==>
          entries[i].key.value in index && index[entries[i].key.value] == i)
  }

  lemma IndexNext(entries: seq<TranscriptEntry>, index: KeyIndex, n: nat)
    requires KeysUnique(entries) && IndexUpTo(entries, index, n) && n < |entries|
    ensures IndexUpTo(entries, if entries[n].key.Some? then index[entries[n].key.value := n] else index, n + 1)
  {
  }

  /** Artifacts of keys that no entry has count for no entry. */
  lemma KeptImages(entries: seq<TranscriptEntry>, index: KeyIndex, images: Images, kept: Images)
    requires IndexExact(entries, index) && kept == map k | k in images && k in index :: images[k]
    ensures forall i :: 0 <= i < |entries| ==> ImageCount(kept, entries[i]) == ImageCount(images, entries[i])
  {
  }

  ghost predicate KeysUnique(entries: seq<TranscriptEntry>) {
    forall i, j :: 0 <= i < j < |entries| && entries[i].key.Some? ==> entries[i].key != entries[j].key
  }

  lemma MovedKept(g: Ground, entries: seq<TranscriptEntry>, index: KeyIndex, watermark: nat, steps: seq<ProvenStep>,
                  from: nat, anchor: nat)
    requires IndexExact(entries, index) && ChainExact(g, entries, watermark, steps)
    requires watermark <= anchor <= from < |entries|
    ensures KeysUnique(Moved(entries, from, anchor))
    ensures ChainExact(g, Moved(entries, from, anchor), watermark, steps)
  {
    var moved := Moved(entries, from, anchor);
    MovedProperties(entries, from, anchor);
    assert moved[..anchor][..watermark] == moved[..watermark];
    assert entries[..anchor][..watermark] == entries[..watermark];
    ChainKept(g, entries, watermark, steps, g.images, moved, watermark);
    forall i, j | 0 <= i < j < |moved| && moved[i].key.Some?
      ensures moved[i].key != moved[j].key
    {
      MovedAt(entries, from, anchor, i);
      MovedAt(entries, from, anchor, j);
    }
  }

  lemma RemovedKept(g: Ground, entries: seq<TranscriptEntry>, index: KeyIndex, watermark: nat, steps: seq<ProvenStep>,
                    at: nat)
    requires IndexExact(entries, index) && ChainExact(g, entries, watermark, steps)
    requires watermark <= at < |entries|
    ensures KeysUnique(Without(entries, at))
    ensures ChainExact(g, Without(entries, at), watermark, steps)
  {
    var rest := Without(entries, at);
    assert rest[..watermark] == entries[..watermark];
    ChainKept(g, entries, watermark, steps, g.images, rest, watermark);
    forall i, j | 0 <= i < j < |rest| && rest[i].key.Some?
      ensures rest[i].key != rest[j].key
    {
      assert rest[i] == entries[if i < at then i else i + 1];
      assert rest[j] == entries[if j < at then j else j + 1];
    }
  }
}
