/** The local replica of a profile's agent catalogue: one file, replaced only by a later revision of the same
    profile. Reading, writing and encoding are given as what they yield. */
module CloudAgents {
  import opened Options
  import opened AgentPolicy
  import opened Sequences
  import opened Sorting
  import Utf8

  const MAX_BYTES: nat := 4 * 1024 * 1024
  const MAX_DEFINITIONS: nat := 512
  const MAX_PROFILE: nat := 128

  datatype Catalogue = Catalogue(profileId: string, revision: nat, definitions: seq<AgentDefinition>)

  // ----- what is stored

  function Slug(d: AgentDefinition): string {
    d.slug
  }

  predicate BySlug(a: AgentDefinition, b: AgentDefinition) {
    AtMost(a.slug, b.slug)
  }

  /** The local identity of a cloud definition. */
  function Identified(profileId: string, d: AgentDefinition): AgentDefinition {
    d.(id := "cloud:" + profileId + ":" + d.slug)
  }

  function Identify(profileId: string, ds: seq<AgentDefinition>): seq<AgentDefinition> {
    seq(|ds|, i requires 0 <= i < |ds| => Identified(profileId, ds[i]))
  }

  function Normal(c: Catalogue): Catalogue {
    c.(definitions := Identify(c.profileId, Sorted(c.definitions, BySlug)))
  }

  lemma IdentityBySlug(profileId: string, a: AgentDefinition, b: AgentDefinition)
    ensures Identified(profileId, a).id == Identified(profileId, b).id <==> a.slug == b.slug
  {
    var prefix := "cloud:" + profileId + ":";
    assert (prefix + a.slug)[|prefix|..] == a.slug && (prefix + b.slug)[|prefix|..] == b.slug;
  }

  /** The normal form has as many definitions, in the order of their slugs; different slugs have different
      identities. */
  lemma NormalSorted(c: Catalogue)
    ensures var n := Normal(c).definitions;
            && Normal(c) == c.(definitions := n)
            && |n| == |c.definitions| && InOrder(n, BySlug)
            && (forall i, j :: 0 <= i < j < |n| ==> (n[i].id == n[j].id <==> n[i].slug == n[j].slug))
  {
    var sorted := Sorted(c.definitions, BySlug);
    BySlugIsOrder();
    SortedKeeps(c.definitions, BySlug);
    SameMembers(sorted, c.definitions);
    SortedInOrder(c.definitions, BySlug);
    var n := Normal(c).definitions;
    forall i, j | 0 <= i < j < |n| ensures n[i].id == n[j].id <==> n[i].slug == n[j].slug {
      IdentityBySlug(c.profileId, sorted[i], sorted[j]);
    }
    forall i, j | 0 <= i < j < |n| ensures BySlug(n[i], n[j]) {
      assert BySlug(sorted[i], sorted[j]);
    }
  }

  /** But for its identity, a definition is in the normal form exactly when it was sent. */
  lemma NormalKeeps(c: Catalogue, d: AgentDefinition)
    requires d.id == "cloud:" + c.profileId + ":" + d.slug
    ensures d in Normal(c).definitions <==> exists sent <- c.definitions :: d == sent.(id := d.id)
  {
    var sorted, n := Sorted(c.definitions, BySlug), Normal(c).definitions;
    SortedKeeps(c.definitions, BySlug);
    SameMembers(sorted, c.definitions);
    if d in n {
      var i :| 0 <= i < |n| && n[i] == d;
      assert sorted[i] in c.definitions && d == sorted[i].(id := d.id);
    }
    if sent :| sent in c.definitions && d == sent.(id := d.id) {
      var i :| 0 <= i < |sorted| && sorted[i] == sent;
      assert n[i] == d;
    }
  }

  predicate IsArchetype(d: AgentDefinition) {
    Valid(d) && d.ownership == OwnerDefined && d.model.Some?
  }

  predicate ValidCatalogue(c: Catalogue) {
    && c.profileId != "" && Utf8.ByteLength(c.profileId) <= MAX_PROFILE
    && c.revision > 0 && |c.definitions| <= MAX_DEFINITIONS
    && (forall d <- c.definitions :: IsArchetype(d))
    && OneEach(c.definitions, Slug)
  }

  /** The loop of the source's validation: the slugs seen so far against each definition in turn. */
  method ValidateCatalogue(c: Catalogue) returns (valid: bool)
    ensures valid <==> ValidCatalogue(c)
  {
    if c.profileId == "" || Utf8.ByteLength(c.profileId) > MAX_PROFILE {
      return false;
    }
    if c.revision == 0 || |c.definitions| > MAX_DEFINITIONS {
      return false;
    }
    var slugs: set<string> := {};
    for i := 0 to |c.definitions|
      invariant forall d <- c.definitions[..i] :: IsArchetype(d)
      invariant OneEach(c.definitions[..i], Slug) && slugs == Keys(c.definitions[..i], Slug)
    {
      var d := c.definitions[i];
      TakeNext(c.definitions, i);
      OneEachNext(c.definitions[..i], d, Slug);
      if !IsArchetype(d) {
        return false;
      }
      if d.slug in slugs {
        OneEachBefore(c.definitions, i + 1, Slug);
        return false;
      }
      slugs := slugs + {d.slug};
    }
    assert c.definitions[..|c.definitions|] == c.definitions;
    return true;
  }

  datatype File = Absent | Broken | Holds(catalogue: Catalogue)

  /** What else is found when a catalogue is applied: the slugs of the built-in definitions, if they load,
      and whether the file can be replaced. */
  datatype Machine = Machine(builtins: Option<set<string>>, writes: bool)

  type Encoding = Catalogue -> nat

  datatype Outcome =
    | Applied | Invalid | CacheUnusable | OtherProfile | StaleRevision | RevisionReused | BuiltinsUnusable
    | BuiltinConflict | TooLarge | NotWritten

  /** The file can be read back: it holds a valid catalogue of at most 4 MiB. */
  predicate Usable(file: File, size: Encoding) {
    file.Absent? || (file.Holds? && ValidCatalogue(file.catalogue) && size(file.catalogue) <= MAX_BYTES)
  }

  predicate Conflicts(c: Catalogue, builtins: set<string>) {
    exists d <- c.definitions :: d.slug in builtins
  }

  /** The catalogue may replace the file. */
  predicate Replaces(file: File, c: Catalogue, machine: Machine, size: Encoding) {
    && Usable(file, size)
    && (file.Holds? ==> file.catalogue.profileId == c.profileId && file.catalogue.revision < c.revision)
    && machine.builtins.Some? && !Conflicts(c, machine.builtins.value) && size(c) <= MAX_BYTES && machine.writes
  }

  /** What applying a catalogue may do to the file. */
  ghost predicate Step(file: File, incoming: Catalogue, machine: Machine, size: Encoding, file': File, o: Outcome) {
    var c := Normal(incoming);
    && (o.Applied? <==>
          && ValidCatalogue(c)
          && ((Usable(file, size) && file == Holds(c)) || Replaces(file, c, machine, size)))
    && file' == (if o.Applied? then Holds(c) else file)
    && (o.RevisionReused? <==>
          && ValidCatalogue(c) && Usable(file, size) && file.Holds? && file.catalogue.profileId == c.profileId
          && file.catalogue.revision == c.revision && file.catalogue != c)
    && (o.StaleRevision? <==>
          && ValidCatalogue(c) && Usable(file, size) && file.Holds? && file.catalogue.profileId == c.profileId
          && file.catalogue.revision > c.revision)
    && (o.Invalid? <==> !ValidCatalogue(c))
    && (o.CacheUnusable? <==> ValidCatalogue(c) && !Usable(file, size))
    && (o.BuiltinConflict? ==> machine.builtins.Some? && Conflicts(c, machine.builtins.value))
    && (o.TooLarge? ==> size(c) > MAX_BYTES)
    && (o.BuiltinsUnusable? ==> machine.builtins.None?)
    && (o.NotWritten? ==> !machine.writes)
    && (o.OtherProfile? <==>
          && ValidCatalogue(c) && Usable(file, size) && file.Holds?
          && file.catalogue.profileId != c.profileId)
  }

  class CloudReplica {
    var file: File

    method Apply(incoming: Catalogue, machine: Machine, size: Encoding) returns (o: Outcome)
      modifies this
      ensures Step(old(file), incoming, machine, size, file, o)
    {
      var c := Normal(incoming);
      var valid := ValidateCatalogue(c);
      if !valid {
        return Invalid;
      }
      if file.Broken? || !Usable(file, size) {
        return CacheUnusable;
      }
      if file.Holds? {
        var current := file.catalogue;
        if current.profileId != c.profileId {
          return OtherProfile;
        }
        if c.revision < current.revision {
          return StaleRevision;
        }
        if c.revision == current.revision {
          return if current == c then Applied else RevisionReused;
        }
      }
      if machine.builtins.None? {
        return BuiltinsUnusable;
      }
      if Conflicts(c, machine.builtins.value) {
        return BuiltinConflict;
      }
      if size(c) > MAX_BYTES {
        return TooLarge;
      }
      if !machine.writes {
        return NotWritten;
      }
      file := Holds(c);
      return Applied;
    }
  }

  // ----- runs

  datatype Event = Event(incoming: Catalogue, machine: Machine, outcome: Outcome)

  ghost predicate IsRun(files: seq<File>, run: seq<Event>, size: Encoding) {
    && |files| == |run| + 1
    && forall i :: 0 <= i < |run| ==>
         Step(files[i], run[i].incoming, run[i].machine, size, files[i + 1], run[i].outcome)
  }

  /** What a replica never does: change its profile, go back a revision, or hold two contents of one. */
  ghost predicate Later(file: File, file': File) {
    file.Holds? ==>
      && file'.Holds? && file'.catalogue.profileId == file.catalogue.profileId
      && file.catalogue.revision <= file'.catalogue.revision
      && (file.catalogue.revision == file'.catalogue.revision ==> file' == file)
  }

  lemma {:induction false} RunGoesForward(files: seq<File>, run: seq<Event>, size: Encoding, i: nat, j: nat)
    requires IsRun(files, run, size) && i <= j <= |run|
    ensures Later(files[i], files[j])
  {
    if i < j {
      RunGoesForward(files, run, size, i, j - 1);
      assert Step(files[j - 1], run[j - 1].incoming, run[j - 1].machine, size, files[j], run[j - 1].outcome);
    }
  }

  lemma {:induction false} RunStaysUsable(files: seq<File>, run: seq<Event>, size: Encoding, i: nat)
    requires IsRun(files, run, size) && Usable(files[0], size) && i <= |run|
    ensures Usable(files[i], size)
  {
    if i > 0 {
      RunStaysUsable(files, run, size, i - 1);
      assert Step(files[i - 1], run[i - 1].incoming, run[i - 1].machine, size, files[i], run[i - 1].outcome);
    }
  }

  // ----- convergence

  /** The order in which definitions are sent does not matter. */
  lemma NormalIgnoresOrder(a: Catalogue, b: Catalogue)
    requires a.profileId == b.profileId && a.revision == b.revision
             && multiset(a.definitions) == multiset(b.definitions)
    requires OneEach(a.definitions, Slug)
    ensures Normal(a) == Normal(b)
  {
    BySlugIsOrder();
    SortedInOrder(a.definitions, BySlug);
    SortedInOrder(b.definitions, BySlug);
    SortedKeeps(a.definitions, BySlug);
    SortedKeeps(b.definitions, BySlug);
    DifferentSlugs(a.definitions, Sorted(a.definitions, BySlug));
    OneOrder(Sorted(a.definitions, BySlug), Sorted(b.definitions, BySlug), BySlug);
  }

  lemma BySlugIsOrder()
    ensures IsOrder(BySlug)
  {
    forall a, b ensures BySlug(a, b) || BySlug(b, a) {
      AtMostTotal(a.slug, b.slug);
    }
    forall a, b, c | BySlug(a, b) && BySlug(b, c) ensures BySlug(a, c) {
      AtMostTransitive(a.slug, b.slug, c.slug);
    }
  }

  lemma DifferentSlugs(ds: seq<AgentDefinition>, sorted: seq<AgentDefinition>)
    requires OneEach(ds, Slug) && multiset(sorted) == multiset(ds)
    ensures NoTies(sorted, BySlug)
  {
    SameMembers(sorted, ds);
    forall i, j | 0 <= i < j < |sorted| && Tied(sorted[i], sorted[j], BySlug) ensures sorted[i] == sorted[j] {
      AtMostAntisymmetric(sorted[i].slug, sorted[j].slug);
      assert sorted[i] in ds && sorted[j] in ds;
      assert Slug(sorted[i]) == Slug(sorted[j]);
    }
  }

  /** The register holds the one with the highest revision of what was sent. */
  ghost predicate HoldsHighest<C>(held: Option<C>, sent: seq<C>, revision: C -> nat) {
    if sent == [] then held.None?
    else held.Some? && held.value in sent && forall c <- sent :: revision(c) <= revision(held.value)
  }

  ghost predicate RevisionsDecide<C>(sent: seq<C>, revision: C -> nat) {
    forall a <- sent, b <- sent :: revision(a) == revision(b) ==> a == b
  }

  lemma HighestNext<C>(held: Option<C>, sent: seq<C>, c: C, revision: C -> nat)
    requires HoldsHighest(held, sent, revision)
    ensures var after := if held.None? || revision(held.value) < revision(c) then Some(c) else held;
            HoldsHighest(after, sent + [c], revision)
  {
  }

  lemma SameHighest<C>(held: Option<C>, sent: seq<C>, held': Option<C>, sent': seq<C>, revision: C -> nat)
    requires HoldsHighest(held, sent, revision) && HoldsHighest(held', sent', revision)
    requires (forall c <- sent :: c in sent') && (forall c <- sent' :: c in sent) && RevisionsDecide(sent, revision)
    ensures held == held'
  {
    assert sent' != [] ==> sent'[0] in sent;
    assert sent != [] ==> sent[0] in sent';
  }

  function Revision(c: Catalogue): nat {
    c.revision
  }

  /** The catalogues of a run, as they are stored. */
  function Sent(run: seq<Event>): seq<Catalogue> {
    if run == [] then [] else Sent(run[..|run| - 1]) + [Normal(run[|run| - 1].incoming)]
  }

  /** Nothing but its revision keeps a catalogue of this profile out. */
  ghost predicate OnlyRevisionsMatter(run: seq<Event>, profileId: string, size: Encoding) {
    forall e <- run :: Acceptable(e, profileId, size)
  }

  ghost predicate Acceptable(e: Event, profileId: string, size: Encoding) {
    var c := Normal(e.incoming);
    && c.profileId == profileId && ValidCatalogue(c) && size(c) <= MAX_BYTES && e.machine.writes
    && e.machine.builtins.Some? && !Conflicts(c, e.machine.builtins.value)
  }

  function Held(file: File): Option<Catalogue> {
    if file.Holds? then Some(file.catalogue) else None
  }

  lemma AcceptableStep(file: File, e: Event, file': File, profileId: string, size: Encoding)
    requires Step(file, e.incoming, e.machine, size, file', e.outcome) && Acceptable(e, profileId, size)
    requires Usable(file, size) && (file.Holds? ==> file.catalogue.profileId == profileId)
    ensures var c := Normal(e.incoming);
            Held(file') == if Held(file).None? || Held(file).value.revision < c.revision then Some(c) else Held(file)
    ensures Usable(file', size) && (file'.Holds? ==> file'.catalogue.profileId == profileId)
  {
  }

  /** From no file at all, a run ends with the highest revision that was sent. */
  lemma {:induction false} EndsAtHighest(files: seq<File>, run: seq<Event>, profileId: string, size: Encoding)
    requires IsRun(files, run, size) && files[0].Absent? && OnlyRevisionsMatter(run, profileId, size)
    ensures HoldsHighest(Held(files[|run|]), Sent(run), Revision)
    ensures Usable(files[|run|], size) && (files[|run|].Holds? ==> files[|run|].catalogue.profileId == profileId)
  {
    if run != [] {
      var n := |run| - 1;
      EndsAtHighest(files[..|run|], run[..n], profileId, size);
      assert Step(files[n], run[n].incoming, run[n].machine, size, files[n + 1], run[n].outcome);
      assert Acceptable(run[n], profileId, size);
      AcceptableStep(files[n], run[n], files[n + 1], profileId, size);
      HighestNext(Held(files[n]), Sent(run[..n]), Normal(run[n].incoming), Revision);
    }
  }

  /** Replicas that were sent the same catalogues agree in the end, whatever the order and repetition, if a
      revision is always the same catalogue. */
  lemma Converge(files: seq<File>, run: seq<Event>, files': seq<File>, run': seq<Event>, profileId: string,
                 size: Encoding)
    requires IsRun(files, run, size) && files[0].Absent? && OnlyRevisionsMatter(run, profileId, size)
    requires IsRun(files', run', size) && files'[0].Absent? && OnlyRevisionsMatter(run', profileId, size)
    requires (forall c <- Sent(run) :: c in Sent(run')) && (forall c <- Sent(run') :: c in Sent(run))
    requires RevisionsDecide(Sent(run), Revision)
    ensures files[|run|] == files'[|run'|]
  {
    EndsAtHighest(files, run, profileId, size);
    EndsAtHighest(files', run', profileId, size);
    SameHighest(Held(files[|run|]), Sent(run), Held(files'[|run'|]), Sent(run'), Revision);
  }
}
