/** Transcript entries and the proof chain over them, computed from scratch. A proof is a hash chain;
    SHA-256 is taken as injective, so a hash is modelled by the value that was hashed. */
module Proofs {
  import opened Options

  datatype EntryKind = System | User | Assistant | Steering | Reasoning | Tool | Diff | Warning | Error

  datatype EntryStatus = Running | Complete | Failed | Interrupted

  datatype TranscriptEntry = TranscriptEntry(
    coordination: Option<string>,
    id: string,
    key: Option<string>,
    kind: EntryKind,
    title: string,
    body: string,
    status: EntryStatus,
    createdAt: Option<nat>,
    provider: Option<string>,
    model: Option<string>,
    ownerTurn: Option<string>,
    reasoningEffort: Option<string>,
    fastMode: Option<bool>,
    sourceTransport: Option<string>,
    toolAudit: Option<string>)

  datatype Artifact = Artifact(caption: string, image: string)

  type Images = map<string, seq<Artifact>>

  /** How a field of an audit text reads; the text itself is JSON and stays uninterpreted. */
  type AuditReader = (string, string) -> Option<string>

  function AuditIdentity(reader: AuditReader, entry: TranscriptEntry, field: string): Option<string> {
    if entry.toolAudit.None? then None else reader(entry.toolAudit.value, field)
  }

  datatype EntryDigest = EntryDigest(content: TranscriptEntry, parent: Option<string>, codemodeTool: bool)

  function DigestOf(reader: AuditReader, entry: TranscriptEntry): EntryDigest {
    EntryDigest(entry, AuditIdentity(reader, entry, "parentItemId"),
                entry.kind == Tool && AuditIdentity(reader, entry, "name") == Some("codemode"))
  }

  datatype Chain = Start(truncated: bool)
                 | Link(previous: Chain, content: TranscriptEntry, images: nat, parent: Option<string>)

  datatype ProvenStep = ProvenStep(digest: EntryDigest, chain: Chain, prefix: Option<Chain>)

  predicate VisibleEntry(entry: TranscriptEntry) {
    !(entry.key.Some? && "subagent:" <= entry.key.value)
  }

  function ImageCount(images: Images, entry: TranscriptEntry): nat {
    if entry.key.Some? && entry.key.value in images then |images[entry.key.value]| else 0
  }

  /** All that a proof depends on besides the entries. */
  datatype Ground = Ground(reader: AuditReader, images: Images, truncated: bool, tools: set<string>)

  /** One step of the chain: an entry that is not visible leaves the chain as it was. */
  function StepAfter(g: Ground, current: Chain, digest: EntryDigest, entry: TranscriptEntry): ProvenStep {
    if VisibleEntry(entry) then
      var parent := if digest.parent.Some? && digest.parent.value in g.tools then digest.parent else None;
      var next := Link(current, digest.content, ImageCount(g.images, entry), parent);
      ProvenStep(digest, next, Some(next))
    else ProvenStep(digest, current, None)
  }

  function LastChain(g: Ground, steps: seq<ProvenStep>): Chain {
    if steps == [] then Start(g.truncated) else steps[|steps| - 1].chain
  }

  /** The chain over all entries, from scratch. */
  function Steps(g: Ground, entries: seq<TranscriptEntry>): (steps: seq<ProvenStep>)
    ensures |steps| == |entries|
  {
    if entries == [] then []
    else
      var before := Steps(g, entries[..|entries| - 1]);
      var entry := entries[|entries| - 1];
      before + [StepAfter(g, LastChain(g, before), DigestOf(g.reader, entry), entry)]
  }

  function CodemodeTools(reader: AuditReader, entries: seq<TranscriptEntry>): set<string> {
    set i | 0 <= i < |entries| && DigestOf(reader, entries[i]).codemodeTool :: entries[i].id
  }

  function Prefixes(steps: seq<ProvenStep>): seq<Chain> {
    if steps == [] then []
    else
      var last := steps[|steps| - 1];
      Prefixes(steps[..|steps| - 1]) + (if last.prefix.Some? then [last.prefix.value] else [])
  }

  /** The proofs of a transcript, from scratch: one for the start and one per visible entry. */
  function ProofsOf(reader: AuditReader, images: Images, truncated: bool, entries: seq<TranscriptEntry>): seq<Chain> {
    var g := Ground(reader, images, truncated, CodemodeTools(reader, entries));
    [Start(truncated)] + Prefixes(Steps(g, entries))
  }

  lemma {:induction false} StepsPrefix(g: Ground, entries: seq<TranscriptEntry>, n: nat)
    requires n <= |entries|
    ensures Steps(g, entries)[..n] == Steps(g, entries[..n])
    decreases |entries|
  {
    if n < |entries| {
      var shorter := entries[..|entries| - 1];
      StepsPrefix(g, shorter, n);
      assert shorter[..n] == entries[..n];
    } else {
      assert entries[..n] == entries;
    }
  }

  lemma StepsAppend(g: Ground, entries: seq<TranscriptEntry>, n: nat)
    requires n < |entries|
    ensures Steps(g, entries[..n + 1])
         == Steps(g, entries[..n])
            + [StepAfter(g, LastChain(g, Steps(g, entries[..n])), DigestOf(g.reader, entries[n]), entries[n])]
  {
    assert entries[..n + 1][..n] == entries[..n];
  }

  lemma {:induction false} StepDigests(g: Ground, entries: seq<TranscriptEntry>)
    ensures forall i :: 0 <= i < |entries| ==> Steps(g, entries)[i].digest == DigestOf(g.reader, entries[i])
  {
    if entries != [] {
      StepDigests(g, entries[..|entries| - 1]);
    }
  }

  /** The chain over some entries only sees the image counts of those entries. */
  lemma {:induction false} StepsFrame(g: Ground, images: Images, entries: seq<TranscriptEntry>)
    requires forall i :: 0 <= i < |entries| ==> ImageCount(images, entries[i]) == ImageCount(g.images, entries[i])
    ensures Steps(g.(images := images), entries) == Steps(g, entries)
  {
    if entries != [] {
      StepsFrame(g, images, entries[..|entries| - 1]);
    }
  }

  /** What a chain commits to. */
  function Committed(c: Chain): seq<(TranscriptEntry, nat)> {
    match c
    case Start(_) => []
    case Link(previous, content, images, _) => Committed(previous) + [(content, images)]
  }

  function VisibleWithImages(images: Images, entries: seq<TranscriptEntry>): seq<(TranscriptEntry, nat)> {
    if entries == [] then []
    else
      var last := entries[|entries| - 1];
      VisibleWithImages(images, entries[..|entries| - 1])
      + (if VisibleEntry(last) then [(last, ImageCount(images, last))] else [])
  }

  /** The visible history of two stretches is that of one behind that of the other. */
  lemma {:induction false} VisibleConcat(images: Images, a: seq<TranscriptEntry>, b: seq<TranscriptEntry>)
    ensures VisibleWithImages(images, a + b) == VisibleWithImages(images, a) + VisibleWithImages(images, b)
    decreases |b|
  {
    if b == [] {
      assert a + b == a;
    } else {
      VisibleConcat(images, a, b[..|b| - 1]);
      assert (a + b)[..|a + b| - 1] == a + b[..|b| - 1];
    }
  }

  /** The code-mode parents a chain commits to, one a link. */
  function Parents(c: Chain): (parents: seq<Option<string>>)
    ensures |parents| == |Committed(c)|
  {
    match c
    case Start(_) => []
    case Link(previous, _, _, parent) => Parents(previous) + [parent]
  }

  /** Whether the history before a chain was cut. */
  function Truncated(c: Chain): bool {
    match c
    case Start(truncated) => truncated
    case Link(previous, _, _, _) => Truncated(previous)
  }

  /** Some entry is the code-mode call with this id. */
  ghost predicate IsCodemodeCall(reader: AuditReader, entries: seq<TranscriptEntry>, id: string) {
    exists i :: 0 <= i < |entries| && entries[i].id == id && entries[i].kind == Tool
             && AuditIdentity(reader, entries[i], "name") == Some("codemode")
  }

  /** The parent that an entry names, if that is a code-mode call of the transcript. */
  ghost predicate IsParent(reader: AuditReader, entries: seq<TranscriptEntry>, entry: TranscriptEntry,
                           parent: Option<string>) {
    var named := AuditIdentity(reader, entry, "parentItemId");
    parent == if named.Some? && IsCodemodeCall(reader, entries, named.value) then named else None
  }

  /** A chain commits to the first `k` visible entries of `entries`, in order, each with its image count and its
      parent among `all`, and to whether the history before them was cut. */
  ghost predicate CommitsTo(c: Chain, reader: AuditReader, images: Images, truncated: bool, all: seq<TranscriptEntry>,
                            entries: seq<TranscriptEntry>, k: nat) {
    var visible := VisibleWithImages(images, entries);
    && k <= |visible|
    && Committed(c) == visible[..k]
    && Truncated(c) == truncated
    && forall j :: 0 <= j < k ==> IsParent(reader, all, visible[j].0, Parents(c)[j])
  }

  /** The proofs of a history: one more than there are visible entries, each committing to one entry more. */
  ghost predicate ProvesHistory(result: seq<Chain>, reader: AuditReader, images: Images, truncated: bool,
                                entries: seq<TranscriptEntry>) {
    && |result| == |VisibleWithImages(images, entries)| + 1
    && forall k :: 0 <= k < |result| ==> CommitsTo(result[k], reader, images, truncated, entries, entries, k)
  }

  lemma CodemodeToolsIff(reader: AuditReader, entries: seq<TranscriptEntry>, id: string)
    ensures id in CodemodeTools(reader, entries) <==> IsCodemodeCall(reader, entries, id)
  {
    if IsCodemodeCall(reader, entries, id) {
      var i :| 0 <= i < |entries| && entries[i].id == id && entries[i].kind == Tool
             && AuditIdentity(reader, entries[i], "name") == Some("codemode");
      assert DigestOf(reader, entries[i]).codemodeTool;
    }
  }

  /** More entries behind leave what a chain commits to as it was. */
  lemma CommitsFurther(c: Chain, g: Ground, all: seq<TranscriptEntry>, entries: seq<TranscriptEntry>, k: nat)
    requires entries != []
    requires CommitsTo(c, g.reader, g.images, g.truncated, all, entries[..|entries| - 1], k)
    ensures CommitsTo(c, g.reader, g.images, g.truncated, all, entries, k)
  {
    var shorter := VisibleWithImages(g.images, entries[..|entries| - 1]);
    assert VisibleWithImages(g.images, entries)[..|shorter|] == shorter;
    assert shorter[..k] == VisibleWithImages(g.images, entries)[..k];
  }

  /** A visible entry behind the others is committed to by the next link. */
  lemma LinkCommits(c: Chain, g: Ground, all: seq<TranscriptEntry>, entries: seq<TranscriptEntry>)
    requires g.tools == CodemodeTools(g.reader, all) && entries != [] && VisibleEntry(entries[|entries| - 1])
    requires var before := entries[..|entries| - 1];
             CommitsTo(c, g.reader, g.images, g.truncated, all, before, |VisibleWithImages(g.images, before)|)
    ensures var entry := entries[|entries| - 1];
            CommitsTo(StepAfter(g, c, DigestOf(g.reader, entry), entry).chain, g.reader, g.images, g.truncated, all,
                      entries, |VisibleWithImages(g.images, entries)|)
  {
    var entry := entries[|entries| - 1];
    var parent := AuditIdentity(g.reader, entry, "parentItemId");
    if parent.Some? {
      CodemodeToolsIff(g.reader, all, parent.value);
    }
  }

  /** The newest chain commits to every visible entry, and the listed prefixes to one more each. */
  lemma {:induction false} PrefixesCommit(g: Ground, all: seq<TranscriptEntry>, entries: seq<TranscriptEntry>)
    requires g.tools == CodemodeTools(g.reader, all)
    ensures var visible, steps := VisibleWithImages(g.images, entries), Steps(g, entries);
            && CommitsTo(LastChain(g, steps), g.reader, g.images, g.truncated, all, entries, |visible|)
            && |Prefixes(steps)| == |visible|
            && forall k :: 0 <= k < |visible| ==>
                 CommitsTo(Prefixes(steps)[k], g.reader, g.images, g.truncated, all, entries, k + 1)
  {
    if entries != [] {
      var shorter := entries[..|entries| - 1];
      PrefixesCommit(g, all, shorter);
      var before := Steps(g, shorter);
      assert Steps(g, entries)[..|entries| - 1] == before;
      forall k | 0 <= k < |Prefixes(before)|
        ensures CommitsTo(Prefixes(before)[k], g.reader, g.images, g.truncated, all, entries, k + 1)
      {
        CommitsFurther(Prefixes(before)[k], g, all, entries, k + 1);
      }
      if VisibleEntry(entries[|entries| - 1]) {
        LinkCommits(LastChain(g, before), g, all, entries);
      } else {
        CommitsFurther(LastChain(g, before), g, all, entries, |VisibleWithImages(g.images, shorter)|);
      }
    }
  }

  /** The proofs of a transcript prove its history. */
  lemma ProofsProve(reader: AuditReader, images: Images, truncated: bool, entries: seq<TranscriptEntry>)
    ensures ProvesHistory(ProofsOf(reader, images, truncated, entries), reader, images, truncated, entries)
  {
    PrefixesCommit(Ground(reader, images, truncated, CodemodeTools(reader, entries)), entries, entries);
  }
}
