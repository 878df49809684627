/** Agent archetypes: what their validation accepts, the tools a delegated run receives, and how a provider
    projects them. Canonical tool and capability names are constructors; any other name is kept as text. */
module AgentPolicy {
  import opened Options
  import opened Sequences
  import opened Characters

  datatype Tool =
    | Read | ReadSkill | ReadSkillComponent | SearchSharedContext | Grep | Find | Ls | Bash | BackgroundTasks
    | Write | Edit | Eval | Todo | Ask | MemorySearch | MemoryStore | ReturnImage | PrepareImage
    | ListChildMaterials | Vision | Browser | BrowserControl | NakodeAgent
    | OtherTool(name: string)

  datatype Capability =
    | FilesystemRead | FilesystemWrite | CommandExecution | Network | Memory | Sight | Interaction | Delegation
    | OtherCapability(name: string)

  datatype Profile = NoTools | ReadOnly | CommandRunner | BoundedWatcher | Custom

  datatype Ownership = BuiltIn | OwnerDefined

  datatype FallbackPolicy = Prohibited | ConfiguredOnly

  /** A definition; `details` stands for its prompts and contracts, which no rule reads. */
  datatype AgentDefinition = AgentDefinition(
    id: string,
    slug: string,
    description: string,
    model: Option<string>,
    fallbackModels: seq<string>,
    reasoningEffort: Option<string>,
    ownership: Ownership,
    enabled: bool,
    allowedCapabilities: seq<Capability>,
    deniedCapabilities: seq<Capability>,
    allowedTools: seq<Tool>,
    deniedTools: seq<Tool>,
    toolProfile: Profile,
    timeoutSeconds: Option<nat>,
    pollIntervalMs: Option<nat>,
    maxTurns: Option<nat>,
    maxConcurrency: nat,
    fallbackPolicy: FallbackPolicy,
    canDelegate: bool,
    maxDelegationDepth: nat,
    requireParentAttribution: bool,
    details: string)

  const CANONICAL_AGENT_TOOLS: seq<Tool> := [
    Read, ReadSkill, ReadSkillComponent, SearchSharedContext, Grep, Find, Ls, Bash, BackgroundTasks,
    Write, Edit, Eval, Todo, Ask, MemorySearch, MemoryStore, ReturnImage, PrepareImage,
    ListChildMaterials, Vision, Browser, BrowserControl, NakodeAgent]

  function RequiredCapability(tool: Tool): Option<Capability> {
    match tool
    case Read | Grep | Find | Ls | ReturnImage => Some(FilesystemRead)
    case Write | Edit => Some(FilesystemWrite)
    case Bash | BackgroundTasks => Some(CommandExecution)
    case Eval | Ask => Some(Interaction)
    case Browser | BrowserControl => Some(Network)
    case MemoryStore | MemorySearch => Some(Memory)
    case Vision => Some(Sight)
    case NakodeAgent => Some(Delegation)
    case _ => None
  }

  // ----- validation

  datatype Problem =
    | InvalidIdentity | InvalidSlug | EmptyDescription | EffortWithoutModel
    | Concurrency | Timeout | PollInterval | Turns | Depth | WatcherBounds | DelegationMismatch | DelegationForbidden
    | Unattributed | FallbackProhibited | ToolAllowedAndDenied | CapabilityAllowedAndDenied | IllFormedName
    | UnknownTool | UnknownCapability | NotInProfile | RestrictedCapability | MissingCapability | WriteInReadOnly
    | RunnerWithoutBash | InvalidModel

  predicate IsIdentityCharacter(c: char) {
    'a' <= c <= 'z' || 'A' <= c <= 'Z' || '0' <= c <= '9' || c == '.' || c == ':' || c == '_' || c == '-'
  }

  predicate IsSlugCharacter(c: char) {
    'a' <= c <= 'z' || '0' <= c <= '9' || c == '-'
  }

  predicate WellFormedName(name: string) {
    name != "" && forall i :: 0 <= i < |name| ==> IsSlugCharacter(name[i]) || name[i] == '_'
  }

  /** A provider and a model, both not empty, around the first slash. */
  predicate WellFormedModel(model: string) {
    exists i :: 0 < i < |model| - 1 && model[i] == '/' && '/' !in model[..i]
  }

  predicate InProfile(profile: Profile, tool: Tool) {
    match profile
    case NoTools => false
    case ReadOnly => tool in {Read, ReadSkill, ReadSkillComponent, Grep, Find, Ls, Todo, Ask, MemorySearch, Vision}
    case CommandRunner => tool in {Read, ReadSkill, ReadSkillComponent, Grep, Find, Ls, Bash, Todo, Ask}
    case BoundedWatcher => tool in {Read, ReadSkill, ReadSkillComponent, Grep, Find, Ls, Todo, Ask}
    case Custom => !tool.OtherTool?
  }

  predicate Within(value: Option<nat>, least: nat, most: nat) {
    value.None? || least <= value.value <= most
  }

  /** The checks on a definition's own fields, in order. */
  function FieldProblem(d: AgentDefinition): Option<Problem> {
    if d.id != "" && (|d.id| > 128 || exists i :: 0 <= i < |d.id| && !IsIdentityCharacter(d.id[i]))
      then Some(InvalidIdentity)
    else if d.slug == "" || exists i :: 0 <= i < |d.slug| && !IsSlugCharacter(d.slug[i]) then Some(InvalidSlug)
    else if IsBlank(d.description) then Some(EmptyDescription)
    else if d.reasoningEffort.Some? && d.model.None? then Some(EffortWithoutModel)
    else if d.maxConcurrency == 0 || d.maxConcurrency > 16 then Some(Concurrency)
    else if !Within(d.timeoutSeconds, 1, 86_400) then Some(Timeout)
    else if !Within(d.pollIntervalMs, 100, 3_600_000) then Some(PollInterval)
    else if !Within(d.maxTurns, 1, 100) then Some(Turns)
    else if d.maxDelegationDepth > 4 then Some(Depth)
    else if d.toolProfile == BoundedWatcher && (d.pollIntervalMs.None? || d.timeoutSeconds.None?)
      then Some(WatcherBounds)
    else if d.canDelegate != (d.maxDelegationDepth > 0) then Some(DelegationMismatch)
    else if d.canDelegate && (Delegation !in d.allowedCapabilities || Delegation in d.deniedCapabilities
                              || NakodeAgent in d.deniedTools || d.toolProfile == NoTools)
      then Some(DelegationForbidden)
    else if !d.requireParentAttribution then Some(Unattributed)
    else if d.fallbackPolicy == Prohibited && d.fallbackModels != [] then Some(FallbackProhibited)
    else None
  }

  /** The checks on tools and capabilities, in order. */
  function PolicyProblem(d: AgentDefinition): Option<Problem> {
    if exists t <- d.allowedTools :: t in d.deniedTools then Some(ToolAllowedAndDenied)
    else if exists c <- d.allowedCapabilities :: c in d.deniedCapabilities then Some(CapabilityAllowedAndDenied)
    else if || (exists t <- d.allowedTools + d.deniedTools :: t.OtherTool? && !WellFormedName(t.name))
            || (exists c <- d.allowedCapabilities + d.deniedCapabilities ::
                  c.OtherCapability? && !WellFormedName(c.name))
      then Some(IllFormedName)
    else if exists t <- d.allowedTools + d.deniedTools :: t.OtherTool? then Some(UnknownTool)
    else if exists c <- d.allowedCapabilities + d.deniedCapabilities :: c.OtherCapability? then Some(UnknownCapability)
    else if exists t <- d.allowedTools :: !InProfile(d.toolProfile, t) then Some(NotInProfile)
    else if d.toolProfile != Custom && (Network in d.allowedCapabilities || FilesystemWrite in d.allowedCapabilities)
      then Some(RestrictedCapability)
    else if exists t <- d.allowedTools ::
              RequiredCapability(t).Some? && RequiredCapability(t).value !in d.allowedCapabilities
      then Some(MissingCapability)
    else if && d.toolProfile in {ReadOnly, BoundedWatcher}
            && (Write in d.allowedTools || Edit in d.allowedTools || Bash in d.allowedTools)
      then Some(WriteInReadOnly)
    else if d.toolProfile == CommandRunner && Bash !in d.allowedTools then Some(RunnerWithoutBash)
    else if d.model.Some? && !WellFormedModel(d.model.value) then Some(InvalidModel)
    else if exists m <- d.fallbackModels :: !WellFormedModel(m) then Some(InvalidModel)
    else None
  }

  /** The first thing wrong with a definition. */
  function Validate(d: AgentDefinition): Option<Problem> {
    if FieldProblem(d).Some? then FieldProblem(d) else PolicyProblem(d)
  }

  predicate Valid(d: AgentDefinition) {
    Validate(d).None?
  }

  // ----- the tools of a delegated run

  function Keep<T>(s: seq<T>, p: T -> bool): seq<T> {
    if s == [] then [] else (if p(s[0]) then [s[0]] else []) + Keep(s[1..], p)
  }

  lemma {:induction false} KeepIn<T>(s: seq<T>, p: T -> bool, t: T)
    ensures t in Keep(s, p) <==> t in s && p(t)
  {
    if s != [] {
      KeepIn(s[1..], p, t);
      assert s == [s[0]] + s[1..];
    }
  }

  lemma KeepExactly<T(!new)>(s: seq<T>, p: T -> bool)
    ensures forall t :: t in Keep(s, p) <==> t in s && p(t)
  {
    forall t ensures t in Keep(s, p) <==> t in s && p(t) {
      KeepIn(s, p, t);
    }
  }

  predicate Delegates(d: AgentDefinition) {
    d.canDelegate && d.maxDelegationDepth > 0
  }

  predicate HasCapability(d: AgentDefinition, tool: Tool) {
    var required := RequiredCapability(tool);
    required.None? || (required.value in d.allowedCapabilities && required.value !in d.deniedCapabilities)
  }

  predicate IsContextTool(tool: Tool) {
    tool in {ReadSkill, ReadSkillComponent, SearchSharedContext}
  }

  /** A definition that names no tools at all leaves the choice to the provider. */
  predicate LeavesChoice(d: AgentDefinition) {
    d.toolProfile == Custom && d.allowedTools == [] && d.deniedTools == []
  }

  /** The tool is asked for: by name, by denying only others, as server-owned context, or for delegation. */
  predicate AskedFor(d: AgentDefinition, tool: Tool) {
    || tool in d.allowedTools
    || (d.toolProfile == Custom && d.allowedTools == [] && !tool.OtherTool?)
    || (d.toolProfile != NoTools && IsContextTool(tool))
    || (tool == NakodeAgent && Delegates(d))
  }

  /** Something keeps the tool out: a denial, its own or that of the skills for their components; delegation
      that is off; or a capability that is not granted. */
  predicate KeptOut(d: AgentDefinition, tool: Tool) {
    || tool in d.deniedTools
    || (tool == ReadSkillComponent && ReadSkill in d.deniedTools)
    || (tool == NakodeAgent && !Delegates(d))
    || !HasCapability(d, tool)
  }

  lemma {:induction false} KeepConcat<T>(s: seq<T>, t: seq<T>, p: T -> bool)
    ensures Keep(s + t, p) == Keep(s, p) + Keep(t, p)
  {
    if s == [] {
      assert s + t == t;
    } else {
      var first, rest := if p(s[0]) then [s[0]] else [], Keep(s[1..], p);
      assert (s + t)[0] == s[0] && (s + t)[1..] == s[1..] + t;
      KeepConcat(s[1..], t, p);
      assert first + (rest + Keep(t, p)) == (first + rest) + Keep(t, p);
    }
  }

  /** Keeping twice is keeping once what passes both times. */
  lemma {:induction false} KeepTwice<T>(s: seq<T>, p: T -> bool, q: T -> bool, both: T -> bool)
    requires forall t <- s :: both(t) <==> p(t) && q(t)
    ensures Keep(Keep(s, p), q) == Keep(s, both)
  {
    if s != [] {
      var first := if p(s[0]) then [s[0]] else [];
      KeepTwice(s[1..], p, q, both);
      KeepConcat(first, Keep(s[1..], p), q);
    }
  }

  lemma {:induction false} KeepAlike<T>(s: seq<T>, p: T -> bool, q: T -> bool)
    requires forall t <- s :: p(t) <==> q(t)
    ensures Keep(s, p) == Keep(s, q)
  {
    if s != [] {
      KeepAlike(s[1..], p, q);
    }
  }

  const CONTEXT_TOOLS: seq<Tool> := [ReadSkill, ReadSkillComponent, SearchSharedContext]

  function NotKeptOut(d: AgentDefinition): Tool -> bool {
    t => !KeptOut(d, t)
  }

  function NotIn(tools: seq<Tool>): Tool -> bool {
    t => t !in tools
  }

  /** The tools a definition starts from: those it allows, or every one if it only denies. */
  function Named(d: AgentDefinition): seq<Tool> {
    if d.toolProfile == Custom && d.allowedTools == [] then CANONICAL_AGENT_TOOLS else d.allowedTools
  }

  /** All tools that are asked for, in order: the named ones, then missing context tools, then delegation. */
  function Asked(d: AgentDefinition): seq<Tool> {
    var named := Named(d);
    named
    + (if d.toolProfile == NoTools then [] else Keep(CONTEXT_TOOLS, NotIn(named)))
    + (if Delegates(d) && NakodeAgent !in named then [NakodeAgent] else [])
  }

  lemma AskedIff(d: AgentDefinition, t: Tool)
    ensures t in Asked(d) <==> AskedFor(d, t)
  {
    var named := Named(d);
    KeepIn(CONTEXT_TOOLS, NotIn(named), t);
    assert t in CANONICAL_AGENT_TOOLS <==> !t.OtherTool? by {
      AllCanonical();
    }
    assert t in CONTEXT_TOOLS <==> IsContextTool(t);
  }

  /** The list leaves out of the tools that are asked for what is kept out, and keeps their order. */
  method BuiltinToolAllowlist(d: AgentDefinition) returns (r: Option<seq<Tool>>)
    ensures r.None? <==> LeavesChoice(d)
    ensures r.Some? ==> r.value == Keep(Asked(d), NotKeptOut(d))
    ensures r.Some? ==> forall t :: t in r.value <==> AskedFor(d, t) && !KeptOut(d, t)
  {
    if LeavesChoice(d) {
      return None;
    }
    var named := NamedNotDenied(d);
    var configured := AddContext(d, named);
    configured := AddDelegation(d, configured);
    SameList(d, named, configured);
    forall t ensures t in Keep(configured, Passing(d)) <==> AskedFor(d, t) && !KeptOut(d, t) {
      AskedIff(d, t);
      KeepIn(Asked(d), NotKeptOut(d), t);
    }
    return Some(Keep(configured, Passing(d)));
  }

  lemma AllCanonical()
    ensures forall t :: t in CANONICAL_AGENT_TOOLS <==> !t.OtherTool?
  {
  }

  /** The names that the list starts from, possibly without denied ones. */
  ghost predicate FromNames(d: AgentDefinition, configured: seq<Tool>) {
    && Keep(configured, NotKeptOut(d)) == Keep(Named(d), NotKeptOut(d))
    && forall t :: t !in d.deniedTools ==> (t in configured <==> t in Named(d))
  }

  lemma DeniedKeptOut(d: AgentDefinition)
    ensures FromNames(d, Keep(Named(d), NotIn(d.deniedTools)))
  {
    var named := Named(d);
    KeepTwice(named, NotIn(d.deniedTools), NotKeptOut(d), NotKeptOut(d));
    KeepExactly(named, NotIn(d.deniedTools));
  }

  method NamedNotDenied(d: AgentDefinition) returns (configured: seq<Tool>)
    ensures FromNames(d, configured)
  {
    configured := d.allowedTools;
    if d.toolProfile == Custom && d.allowedTools == [] {
      configured := Keep(CANONICAL_AGENT_TOOLS, NotIn(d.deniedTools));
      DeniedKeptOut(d);
    }
  }

  function Context(d: AgentDefinition, configured: seq<Tool>): seq<Tool> {
    if d.toolProfile == NoTools then [] else Keep(CONTEXT_TOOLS, NotIn(configured + d.deniedTools))
  }

  method AddContext(d: AgentDefinition, configured: seq<Tool>) returns (r: seq<Tool>)
    ensures r == configured + Context(d, configured)
  {
    r := configured;
    if d.toolProfile == NoTools {
      return;
    }
    ghost var missing := NotIn(configured + d.deniedTools);
    for i := 0 to |CONTEXT_TOOLS|
      invariant r == configured + Keep(CONTEXT_TOOLS[..i], missing)
    {
      KeepIn(CONTEXT_TOOLS[..i], missing, CONTEXT_TOOLS[i]);
      TakeNext(CONTEXT_TOOLS, i);
      KeepConcat(CONTEXT_TOOLS[..i], [CONTEXT_TOOLS[i]], missing);
      if CONTEXT_TOOLS[i] !in r && CONTEXT_TOOLS[i] !in d.deniedTools {
        r := r + [CONTEXT_TOOLS[i]];
      }
    }
    assert CONTEXT_TOOLS[..|CONTEXT_TOOLS|] == CONTEXT_TOOLS;
  }

  function WithoutComponents(d: AgentDefinition, configured: seq<Tool>): seq<Tool> {
    if ReadSkill in d.deniedTools then Keep(configured, NotIn([ReadSkillComponent])) else configured
  }

  function DelegationTool(d: AgentDefinition, configured: seq<Tool>): seq<Tool> {
    if Delegates(d) && NakodeAgent !in configured && NakodeAgent !in d.deniedTools then [NakodeAgent] else []
  }

  /** Drops the components of denied skills, and adds the delegation tool. */
  method AddDelegation(d: AgentDefinition, configured: seq<Tool>) returns (r: seq<Tool>)
    ensures r == WithoutComponents(d, configured) + DelegationTool(d, configured)
  {
    r := configured;
    if ReadSkill in d.deniedTools {
      r := Keep(configured, NotIn([ReadSkillComponent]));
      KeepIn(configured, NotIn([ReadSkillComponent]), NakodeAgent);
    }
    if Delegates(d) && NakodeAgent !in r && NakodeAgent !in d.deniedTools {
      r := r + [NakodeAgent];
    }
  }

  /** The last filter: not denied, allowed to delegate, and with its capability granted. */
  function Passing(d: AgentDefinition): Tool -> bool {
    t => t !in d.deniedTools && (t != NakodeAgent || Delegates(d)) && HasCapability(d, t)
  }

  /** Filtering at several places leaves what filtering once at the end does. */
  lemma SameList(d: AgentDefinition, named: seq<Tool>, all: seq<Tool>)
    requires FromNames(d, named)
    requires var configured := named + Context(d, named);
             all == WithoutComponents(d, configured) + DelegationTool(d, configured)
    ensures Keep(all, Passing(d)) == Keep(Asked(d), NotKeptOut(d))
  {
    var configured := named + Context(d, named);
    KeepConcat(WithoutComponents(d, configured), DelegationTool(d, configured), Passing(d));
    ComponentsKeptOut(d, configured);
    KeepConcat(named, Context(d, named), NotKeptOut(d));
    if d.toolProfile != NoTools {
      SameContext(d, named);
    }
    SameDelegation(d, named);
    var context := if d.toolProfile == NoTools then [] else Keep(CONTEXT_TOOLS, NotIn(Named(d)));
    var delegation := if Delegates(d) && NakodeAgent !in Named(d) then [NakodeAgent] else [];
    KeepConcat(Named(d) + context, delegation, NotKeptOut(d));
    KeepConcat(Named(d), context, NotKeptOut(d));
  }

  lemma ComponentsKeptOut(d: AgentDefinition, configured: seq<Tool>)
    ensures Keep(WithoutComponents(d, configured), Passing(d)) == Keep(configured, NotKeptOut(d))
  {
    if ReadSkill in d.deniedTools {
      KeepTwice(configured, NotIn([ReadSkillComponent]), Passing(d), NotKeptOut(d));
    } else {
      KeepAlike(configured, Passing(d), NotKeptOut(d));
    }
  }

  lemma SameContext(d: AgentDefinition, named: seq<Tool>)
    requires FromNames(d, named) && d.toolProfile != NoTools
    ensures Keep(Context(d, named), NotKeptOut(d)) == Keep(Keep(CONTEXT_TOOLS, NotIn(Named(d))), NotKeptOut(d))
  {
    var both := t => t !in Named(d) && !KeptOut(d, t);
    KeepTwice(CONTEXT_TOOLS, NotIn(named + d.deniedTools), NotKeptOut(d), both);
    KeepTwice(CONTEXT_TOOLS, NotIn(Named(d)), NotKeptOut(d), both);
  }

  lemma SameDelegation(d: AgentDefinition, named: seq<Tool>)
    requires FromNames(d, named)
    ensures Keep(DelegationTool(d, named + Context(d, named)), Passing(d))
         == Keep(if Delegates(d) && NakodeAgent !in Named(d) then [NakodeAgent] else [], NotKeptOut(d))
  {
    KeepIn(CONTEXT_TOOLS, NotIn(named + d.deniedTools), NakodeAgent);
  }

  // ----- what validation implies about the list

  predicate Listed(d: AgentDefinition, t: Tool) {
    AskedFor(d, t) && !KeptOut(d, t)
  }

  /** Every tool in the list of a valid definition is canonical, not denied, and has its capability granted. */
  lemma ListedIsGranted(d: AgentDefinition, t: Tool)
    requires Valid(d) && Listed(d, t)
    ensures t in CANONICAL_AGENT_TOOLS && t !in d.deniedTools
    ensures RequiredCapability(t).Some? ==>
              && RequiredCapability(t).value in d.allowedCapabilities
              && RequiredCapability(t).value !in d.deniedCapabilities
  {
    AllCanonical();
    assert t in d.allowedTools ==> t in d.allowedTools + d.deniedTools;
  }

  /** A valid definition's list has the delegation tool exactly when the definition can delegate. */
  lemma DelegationIff(d: AgentDefinition)
    requires Valid(d)
    ensures Listed(d, NakodeAgent) <==> d.canDelegate
  {
  }

  /** A tool that a valid definition allows by name is in the list, except the components of denied skills and
      the delegation tool of a definition that cannot delegate. */
  lemma AllowedSurvives(d: AgentDefinition, t: Tool)
    requires Valid(d) && t in d.allowedTools
    ensures Listed(d, t) <==>
              && !(t == ReadSkillComponent && ReadSkill in d.deniedTools)
              && !(t == NakodeAgent && !d.canDelegate)
  {
    assert t !in d.deniedTools;
    assert RequiredCapability(t).Some? ==> RequiredCapability(t).value in d.allowedCapabilities;
  }

  /** The restrictive profiles bound the list: it has nothing but the profile's tools, the context tools and
      delegation; so no profile but the custom one reaches the network or writes files. */
  lemma ProfileBounds(d: AgentDefinition, t: Tool)
    requires Valid(d) && Listed(d, t) && d.toolProfile != Custom
    ensures InProfile(d.toolProfile, t) || (d.toolProfile != NoTools && (IsContextTool(t) || t == NakodeAgent))
    ensures t !in {Write, Edit, Browser, BrowserControl}
    ensures t == Bash ==> d.toolProfile == CommandRunner
  {
    assert t in d.allowedTools ==> InProfile(d.toolProfile, t);
  }

  /** A valid command runner can run commands, and a valid definition without tools gets none. */
  lemma ProfileExtremes(d: AgentDefinition)
    requires Valid(d)
    ensures d.toolProfile == CommandRunner ==> Listed(d, Bash)
    ensures d.toolProfile == NoTools ==> forall t :: !Listed(d, t)
  {
    if d.toolProfile == CommandRunner {
      AllowedSurvives(d, Bash);
    }
    if d.toolProfile == NoTools {
      forall t ensures !Listed(d, t) {
        assert t in d.allowedTools ==> InProfile(d.toolProfile, t);
      }
    }
  }

  // ----- projection to a provider

  datatype Provider = Codex | Devin | Cursor | Claude | Kimi | Glm | OtherProvider(name: string)

  /** A provider's own identity for a tool: the canonical one, or the one in the projection table. */
  datatype Identity = Canonical(tool: Tool) | Mapped(provider: Provider, tool: Tool)

  datatype Projection = Projection(enforced: bool, allowedTools: Option<seq<Identity>>, unsupported: seq<Tool>)

  predicate IsNative(p: Provider) {
    p in {Codex, Devin, Kimi, Glm}
  }

  /** The tools that the table gives an identity of their own. */
  predicate InTable(p: Provider, t: Tool) {
    p == Claude
    && (t in {Read, Grep, Find, Bash, BackgroundTasks, Write, Edit, Ask, NakodeAgent, ReturnImage, ListChildMaterials,
              PrepareImage, ReadSkill, ReadSkillComponent, BrowserControl}
        || (t.OtherTool? && t.name in {"desktop_screenshot", "desktop_action", "screen_record"}))
  }

  predicate Supports(p: Provider, t: Tool) {
    if IsNative(p) then t in CANONICAL_AGENT_TOOLS else InTable(p, t)
  }

  function IdentityOf(p: Provider, t: Tool): Identity {
    if IsNative(p) then Canonical(t) else Mapped(p, t)
  }

  ghost predicate NoneTwice<T>(s: seq<T>) {
    forall i, j :: 0 <= i < j < |s| ==> s[i] != s[j]
  }

  lemma AddOnce<T>(s: seq<T>, t: T)
    requires NoneTwice(s) && t !in s
    ensures NoneTwice(s + [t])
  {
  }

  /** Every supported tool is allowed under its identity, once, and nothing else is. */
  ghost predicate AllowedOnce<I>(tools: seq<Tool>, supports: Tool -> bool, identity: Tool -> I, allowed: seq<I>) {
    && NoneTwice(allowed)
    && (forall t <- tools :: supports(t) ==> identity(t) in allowed)
    && (forall id <- allowed :: exists t <- tools :: supports(t) && id == identity(t))
  }

  lemma AllowedNext<I>(tools: seq<Tool>, tool: Tool, supports: Tool -> bool, identity: Tool -> I, allowed: seq<I>)
    requires AllowedOnce(tools, supports, identity, allowed)
    ensures AllowedOnce(tools + [tool], supports, identity,
                        if supports(tool) && identity(tool) !in allowed then allowed + [identity(tool)] else allowed)
  {
    var allowed' := if supports(tool) && identity(tool) !in allowed then allowed + [identity(tool)] else allowed;
    if allowed' != allowed {
      AddOnce(allowed, identity(tool));
    }
    forall id | id in allowed' ensures exists t <- tools + [tool] :: supports(t) && id == identity(t) {
      if id in allowed {
        var t :| t in tools && supports(t) && id == identity(t);
        assert t in tools + [tool];
      } else {
        assert tool in tools + [tool];
      }
    }
  }

  lemma {:induction false} KeepLast<T>(s: seq<T>, t: T, p: T -> bool)
    ensures Keep(s + [t], p) == Keep(s, p) + if p(t) then [t] else []
  {
    if s != [] {
      KeepLast(s[1..], t, p);
      assert (s + [t])[1..] == s[1..] + [t];
    }
  }

  method Project<I(==)>(tools: seq<Tool>, supports: Tool -> bool, identity: Tool -> I)
    returns (allowed: seq<I>, unsupported: seq<Tool>)
    ensures AllowedOnce(tools, supports, identity, allowed)
    ensures unsupported == Keep(tools, t => !supports(t))
  {
    allowed, unsupported := [], [];
    ghost var refused := t => !supports(t);
    for i := 0 to |tools|
      invariant AllowedOnce(tools[..i], supports, identity, allowed)
      invariant unsupported == Keep(tools[..i], refused)
    {
      var tool := tools[i];
      TakeNext(tools, i);
      AllowedNext(tools[..i], tool, supports, identity, allowed);
      KeepLast(tools[..i], tool, refused);
      if supports(tool) {
        if identity(tool) !in allowed {
          allowed := allowed + [identity(tool)];
        }
      } else {
        unsupported := unsupported + [tool];
      }
    }
    assert tools[..|tools|] == tools;
  }

  /** Every tool is either allowed under its provider's identity, once, or reported as unsupported. */
  method ProjectProviderTools(p: Provider, tools: Option<seq<Tool>>) returns (r: Projection)
    ensures r.enforced <==> p == Claude || IsNative(p)
    ensures r.allowedTools.Some? <==> tools.Some?
    ensures tools.None? ==> r.unsupported == []
    ensures tools.Some? ==>
              && NoneTwice(r.allowedTools.value)
              && (forall t <- tools.value :: Supports(p, t) ==> IdentityOf(p, t) in r.allowedTools.value)
              && (forall id <- r.allowedTools.value ::
                    exists t <- tools.value :: Supports(p, t) && id == IdentityOf(p, t))
              && r.unsupported == Keep(tools.value, t => !Supports(p, t))
  {
    var enforced := p == Claude || IsNative(p);
    if tools.None? {
      return Projection(enforced, None, []);
    }
    var supports := t => Supports(p, t);
    var allowed, unsupported := Project(tools.value, supports, t => IdentityOf(p, t));
    KeepSame(tools.value, t => !supports(t), t => !Supports(p, t));
    return Projection(enforced, Some(allowed), unsupported);
  }

  lemma {:induction false} KeepSame<T>(s: seq<T>, p: T -> bool, q: T -> bool)
    requires forall t <- s :: p(t) == q(t)
    ensures Keep(s, p) == Keep(s, q)
  {
    if s != [] {
      KeepSame(s[1..], p, q);
    }
  }

  lemma {:induction false} KeepNone<T>(s: seq<T>, p: T -> bool)
    requires forall t <- s :: !p(t)
    ensures Keep(s, p) == []
  {
    if s != [] {
      KeepNone(s[1..], p);
    }
  }

  /** A native provider projects the whole list of a valid definition under canonical identities. */
  method ProjectNative(d: AgentDefinition, p: Provider) returns (r: Projection)
    requires Valid(d) && IsNative(p) && !LeavesChoice(d)
    ensures r.enforced && r.unsupported == [] && r.allowedTools.Some? && NoneTwice(r.allowedTools.value)
    ensures forall t :: Canonical(t) in r.allowedTools.value <==> Listed(d, t)
  {
    var tools := BuiltinToolAllowlist(d);
    r := ProjectProviderTools(p, tools);
    forall t | t in tools.value ensures t in CANONICAL_AGENT_TOOLS {
      ListedIsGranted(d, t);
    }
    KeepNone(tools.value, t => !Supports(p, t));
  }
}
