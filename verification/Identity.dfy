/** Executable identities: an embedded source revision decides when both sides have one, the binary's
    digest and size only when neither has. */
module Identity {
  import opened Options

  datatype ExecutableIdentity = ExecutableIdentity(sha256: string, size: nat, buildRevision: Option<string>)

  datatype RuntimeRecord = RuntimeRecord(pid: nat, executable: Option<ExecutableIdentity>)

  datatype ServerReport = ServerReport(buildRevision: Option<string>, capabilities: seq<string>)

  datatype RunningIdentity = RunningIdentity(runtime: RuntimeRecord, server: Option<ServerReport>)

  predicate SameBinary(a: ExecutableIdentity, b: ExecutableIdentity) {
    a.sha256 == b.sha256 && a.size == b.size
  }

  predicate SameBuild(a: ExecutableIdentity, b: ExecutableIdentity) {
    match (a.buildRevision, b.buildRevision)
    case (Some(left), Some(right)) => left == right
    case (None, None) => SameBinary(a, b)
    case _ => false
  }

  /** A recorded target matches a current one, also when the current one only gained provenance. */
  predicate MatchesRecordedTarget(recorded: ExecutableIdentity, current: ExecutableIdentity) {
    || SameBuild(recorded, current)
    || (recorded.buildRevision.None? && current.buildRevision.Some? && SameBinary(recorded, current))
  }

  /** The target a check goes on with. */
  function Adopted(recorded: ExecutableIdentity, current: ExecutableIdentity): ExecutableIdentity {
    if recorded.buildRevision.None? && current.buildRevision.Some? then current else recorded
  }

  predicate RuntimeMatchesCli(record: Option<RuntimeRecord>, cli: ExecutableIdentity, server: Option<ServerReport>) {
    && record.Some?
    && var running := record.value.executable;
       var revision := if server.Some? && server.value.buildRevision.Some? then server.value.buildRevision
                       else if running.Some? then running.value.buildRevision
                       else None;
       match (cli.buildRevision, revision)
       case (Some(installed), Some(live)) => installed == live
       case (None, None) => running.Some? && SameBuild(running.value, cli)
       case _ => false
  }

  predicate RunningServiceHasBuild(running: RunningIdentity, installed: ExecutableIdentity) {
    running.server.Some? && RuntimeMatchesCli(Some(running.runtime), installed, running.server)
  }

  lemma SameBuildIsEquivalence(a: ExecutableIdentity, b: ExecutableIdentity, c: ExecutableIdentity)
    ensures SameBuild(a, a)
    ensures SameBuild(a, b) ==> SameBuild(b, a)
    ensures SameBuild(a, b) && SameBuild(b, c) ==> SameBuild(a, c)
  {
  }

  /** Matching a recorded target is looser than having the same build, and not transitive; but once a
      check has adopted the current identity, the recorded target is the same build, so matching it again
      is the equivalence. */
  lemma AdoptedTargetIsSameBuild(recorded: ExecutableIdentity, current: ExecutableIdentity, later: ExecutableIdentity)
    requires MatchesRecordedTarget(recorded, current)
    ensures SameBuild(Adopted(recorded, current), current)
    ensures current.buildRevision.Some? ==>
              (MatchesRecordedTarget(Adopted(recorded, current), later) <==> SameBuild(current, later))
  {
  }

  /** Two matches compose exactly when the first target has a revision, or the second has none, or the last
      executable is the same binary as the first target. */
  lemma MatchingComposesIff(a: ExecutableIdentity, b: ExecutableIdentity, c: ExecutableIdentity)
    requires MatchesRecordedTarget(a, b) && MatchesRecordedTarget(b, c)
    ensures MatchesRecordedTarget(a, c) <==> a.buildRevision.Some? || b.buildRevision.None? || SameBinary(a, c)
  {
  }

  lemma MatchingIsNotTransitive()
    ensures exists a, b, c :: MatchesRecordedTarget(a, b) && MatchesRecordedTarget(b, c) && !MatchesRecordedTarget(a, c)
  {
    var a := ExecutableIdentity("x", 1, None);
    var b := ExecutableIdentity("x", 1, Some("r"));
    var c := ExecutableIdentity("y", 1, Some("r"));
    assert MatchesRecordedTarget(a, b) && MatchesRecordedTarget(b, c) && !MatchesRecordedTarget(a, c);
  }

  /** A service that matches two executables runs the build of both. */
  lemma OneRunningBuild(running: RunningIdentity, a: ExecutableIdentity, b: ExecutableIdentity)
    requires RunningServiceHasBuild(running, a)
    ensures RunningServiceHasBuild(running, b) <==> SameBuild(a, b)
  {
  }
}
