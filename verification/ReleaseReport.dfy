/** The release report: assembled from five evidence inputs, and checked by a validator that derives
    every count and status again. */
module ReleaseReport {
  import opened Text
  import opened ReleaseGates
  import Delivery

  const MAX_INPUT_BYTES := 100_000_000
  const MAX_ARTIFACT_BYTES := 1_000_000_000
  const MAX_EVIDENCE_AGE := 86_400

  datatype ReleaseStatus = Complete | BlockedTechnical | FailedRelease

  /** In the order of their names. */
  datatype Role = CandidateRole | GateEvidenceRole | RunRole | RunVerificationRole | StaticEvidenceRole

  function AllRoles(): seq<Role> {
    [CandidateRole, GateEvidenceRole, RunRole, RunVerificationRole, StaticEvidenceRole]
  }

  function Rank(r: Role): nat {
    match r
    case CandidateRole => 0
    case GateEvidenceRole => 1
    case RunRole => 2
    case RunVerificationRole => 3
    case StaticEvidenceRole => 4
  }

  datatype InputBinding = InputBinding(role: Role, fixedPath: bool, file: Digest, size: nat, evidence: Digest)

  datatype Candidate = Candidate(commit: string, sha256: Digest, observedAt: int)

  datatype RunBinding = RunBinding(
    sha256: Digest, runId: string, manifest: Digest, manifestFile: Digest, sourceTree: Digest, config: Digest,
    requestedMaximum: bool, achievedMaximum: bool, requestedSolidity: bool, achievedSolidity: bool,
    matched: bool, reduced: bool, omissions: seq<string>, observedAt: int)

  datatype Verification = Verification(
    sha256: Digest, runBinding: Digest, runId: string, manifest: Digest, manifestFile: Digest, sourceTree: Digest,
    config: Digest, observedAt: int)

  datatype StaticEvidence = StaticEvidence(sha256: Digest, commit: string, candidate: Digest, observedAt: int)

  /** The projection of one receipt, with its artifact accounting. */
  datatype Observation = Observation(receipt: Receipt, artifactCount: nat, artifactBytes: nat, inventory: seq<Binding>)

  datatype Report = Report(
    generatedAt: int,
    candidate: Candidate,
    run: RunBinding,
    verification: Verification,
    staticEvidence: StaticEvidence,
    bundle: Digest,
    inputs: seq<InputBinding>,
    inputInventory: seq<InputBinding>,
    observationsDigest: seq<Observation>,
    status: ReleaseStatus,
    totalGates: nat,
    passedGates: nat,
    blockedGates: seq<Gate>,
    failedGates: seq<Gate>,
    safeLocalComplete: bool,
    allPassed: bool,
    gates: seq<Observation>,
    limitations: seq<string>)

  // ---------------------------------------------------------------- shared derivations

  predicate SafeLocal(g: Gate) {
    || g == Artifacts || g == BenchmarkCertificate || g == Manifests || g == Mypy || g == Pytest
    || g == RuffCheck || g == RuffFormat || g == Schemas
  }

  /** The gates with a status, in order. */
  function GatesWith(gates: seq<Observation>, status: Status): seq<Gate> {
    if gates == [] then []
    else
      var n := |gates| - 1;
      GatesWith(gates[..n], status) + (if gates[n].receipt.status == status then [gates[n].receipt.gate] else [])
  }

  function CountWith(gates: seq<Observation>, status: Status): nat {
    if gates == [] then 0
    else
      var n := |gates| - 1;
      CountWith(gates[..n], status) + (if gates[n].receipt.status == status then 1 else 0)
  }

  predicate AllPass(gates: seq<Observation>) {
    forall i :: 0 <= i < |gates| ==> gates[i].receipt.status == Passed
  }

  predicate SafeLocalPass(gates: seq<Observation>) {
    forall i :: 0 <= i < |gates| && SafeLocal(gates[i].receipt.gate) ==> gates[i].receipt.status == Passed
  }

  /** The summaries of the blockers, in order. */
  function BlockerSummaries(gates: seq<Observation>): seq<string> {
    if gates == [] then []
    else
      var n := |gates| - 1;
      BlockerSummaries(gates[..n]) + (if gates[n].receipt.blocker.Some? then [gates[n].receipt.blocker.value.summary] else [])
  }

  function StatusFrom(blocked: seq<Gate>, failed: seq<Gate>): ReleaseStatus {
    if failed != [] then FailedRelease else if blocked != [] then BlockedTechnical else Complete
  }

  function ObservedGates(gates: seq<Observation>): seq<Gate> {
    seq(|gates|, i requires 0 <= i < |gates| => gates[i].receipt.gate)
  }

  function RolesOf(inputs: seq<InputBinding>): seq<Role> {
    seq(|inputs|, i requires 0 <= i < |inputs| => inputs[i].role)
  }

  predicate MaximumRun(run: RunBinding) {
    && run.requestedMaximum && run.achievedMaximum && run.requestedSolidity && run.achievedSolidity
    && run.matched && !run.reduced && run.omissions == []
  }

  predicate PassesMaximum(r: Receipt) {
    r.gate == MaximumAssuranceRun && r.status == Passed
  }

  predicate LimitationsValid(texts: Texts, ls: seq<string>) {
    && |ls| <= 100 && ls == SortedSet(ls)
    && forall i :: 0 <= i < |ls| ==> |ls[i]| <= 1_000 && texts.line(ls[i])
  }

  predicate InputValid(b: InputBinding) {
    b.fixedPath && 1 <= b.size <= MAX_INPUT_BYTES
  }

  /** The inner evidence digest that each role has to carry. */
  function InnerDigest(r: Role, c: Candidate, bundle: Digest, run: RunBinding, v: Verification, s: StaticEvidence): Digest {
    match r
    case CandidateRole => c.sha256
    case GateEvidenceRole => bundle
    case RunRole => run.sha256
    case RunVerificationRole => v.sha256
    case StaticEvidenceRole => s.sha256
  }

  // ---------------------------------------------------------------- the validator

  /** `ReleaseGateReportObservation`. */
  predicate ObservationValid(o: Observation) {
    var r := o.receipt;
    && |r.artifacts| <= 1_000 && o.artifactCount <= 1_000 && o.artifactBytes <= MAX_ARTIFACT_BYTES
    && r.startedAt <= r.endedAt
    && Delivery.Paths(r.artifacts) == SortedSet(Delivery.Paths(r.artifacts))
    && o.artifactCount == |r.artifacts|
    && o.artifactBytes == Delivery.TotalSize(r.artifacts)
    && o.inventory == r.artifacts
    && (r.status == Passed ==>
          r.genuine && r.exitCode == Some(0) && !r.timedOut && r.blocker.None? && o.artifactCount != 0)
    && (r.status == Blocked ==> r.blocker.Some? && r.exitCode.None? && !r.timedOut)
    && (r.status == Failed ==> r.blocker.None? && (r.timedOut || (r.exitCode != None && r.exitCode != Some(0))))
  }

  predicate VerificationBound(v: Verification, run: RunBinding) {
    && v.runBinding == run.sha256 && v.runId == run.runId && v.manifest == run.manifest
    && v.manifestFile == run.manifestFile && v.sourceTree == run.sourceTree && v.config == run.config
  }

  predicate StaticBound(s: StaticEvidence, c: Candidate) {
    s.commit == c.commit && s.candidate == c.sha256
  }

  /** Not older than the freshness window and not before anything it is made of. */
  predicate Fresh(generatedAt: int, c: Candidate, run: RunBinding, v: Verification, s: StaticEvidence,
                  gates: seq<Observation>) {
    && Recent(generatedAt, c.observedAt) && Recent(generatedAt, run.observedAt)
    && Recent(generatedAt, v.observedAt) && Recent(generatedAt, s.observedAt)
    && (forall i :: 0 <= i < |gates| ==>
          && gates[i].receipt.endedAt <= generatedAt
          && generatedAt - gates[i].receipt.startedAt <= MAX_EVIDENCE_AGE
          && c.observedAt <= gates[i].receipt.startedAt && run.observedAt <= gates[i].receipt.startedAt)
  }

  predicate Recent(generatedAt: int, at: int) {
    at <= generatedAt && generatedAt - at <= MAX_EVIDENCE_AGE
  }

  /** `ReleaseGateReportPayload` with all its validators. */
  predicate ReportValid(texts: Texts, r: Report) {
    && (forall i :: 0 <= i < |r.inputs| ==> InputValid(r.inputs[i]))
    && (forall i :: 0 <= i < |r.gates| ==> ObservationValid(r.gates[i]))
    && r.totalGates == 12 && |r.gates| == 12 && r.passedGates <= 12
    && |r.blockedGates| <= 12 && |r.failedGates| <= 12 && |r.inputs| == 5
    && LimitationsValid(texts, r.limitations)
    && VerificationBound(r.verification, r.run)
    && StaticBound(r.staticEvidence, r.candidate)
    && RolesOf(r.inputs) == AllRoles()
    && (forall i :: 0 <= i < |r.inputs| ==>
          r.inputs[i].evidence
            == InnerDigest(r.inputs[i].role, r.candidate, r.bundle, r.run, r.verification, r.staticEvidence))
    && r.inputInventory == r.inputs
    && ObservedGates(r.gates) == AllGates()
    && r.observationsDigest == r.gates
    && (forall i :: 0 <= i < |r.gates| ==>
          r.gates[i].receipt.candidate == r.candidate.sha256 && r.gates[i].receipt.run == r.run.sha256)
    && r.blockedGates == GatesWith(r.gates, Blocked) && r.failedGates == GatesWith(r.gates, Failed)
    && r.totalGates == |r.gates|
    && r.passedGates == CountWith(r.gates, Passed)
    && r.safeLocalComplete == SafeLocalPass(r.gates)
    && r.allPassed == AllPass(r.gates)
    && r.status == StatusFrom(r.blockedGates, r.failedGates)
    && (forall i :: 0 <= i < |r.gates| && PassesMaximum(r.gates[i].receipt) ==> MaximumRun(r.run))
    && (forall s :: s in BlockerSummaries(r.gates) ==> s in r.limitations)
    && (r.status == Complete ==> r.limitations == [])
    && Fresh(r.generatedAt, r.candidate, r.run, r.verification, r.staticEvidence, r.gates)
  }

  // ---------------------------------------------------------------- assembly

  /** `_project_gate_receipt`. */
  function Project(r: Receipt): Observation {
    Observation(r, |r.artifacts|, Delivery.TotalSize(r.artifacts), r.artifacts)
  }

  function ProjectAll(receipts: seq<Receipt>): seq<Observation> {
    seq(|receipts|, i requires 0 <= i < |receipts| => Project(receipts[i]))
  }

  function InsertInput(b: InputBinding, bs: seq<InputBinding>): seq<InputBinding> {
    if bs == [] then [b]
    else if Rank(bs[0].role) < Rank(b.role) then [bs[0]] + InsertInput(b, bs[1..])
    else [b] + bs
  }

  /** `sorted(inputs, key=lambda binding: binding.role.value)`. */
  function SortInputs(bs: seq<InputBinding>): seq<InputBinding> {
    if bs == [] then [] else InsertInput(bs[0], SortInputs(bs[1..]))
  }

  datatype Parts = Parts(
    generatedAt: int, candidate: Candidate, run: RunBinding, verification: Verification,
    staticEvidence: StaticEvidence, bundle: Bundle, inputs: seq<InputBinding>, limitations: seq<string>)

  /** The report that `_assemble_release_gate_report` hands to its validator. */
  function Assemble(p: Parts): Report {
    var inputs := SortInputs(p.inputs);
    var gates := ProjectAll(p.bundle.receipts);
    var blocked, failed := GatesWith(gates, Blocked), GatesWith(gates, Failed);
    Report(
      p.generatedAt, p.candidate, p.run, p.verification, p.staticEvidence, p.bundle.sha256, inputs, inputs, gates,
      StatusFrom(blocked, failed), |gates|, CountWith(gates, Passed), blocked, failed, SafeLocalPass(gates),
      blocked == [] && failed == [], gates, SortedSet(p.limitations + BlockerSummaries(gates)))
  }

  // ---------------------------------------------------------------- counts

  /** Every gate has one of three statuses. */
  lemma {:induction false} StatusesPartition(gates: seq<Observation>)
    ensures CountWith(gates, Passed) + CountWith(gates, Blocked) + CountWith(gates, Failed) == |gates|
    ensures forall s :: |GatesWith(gates, s)| == CountWith(gates, s)
    decreases |gates|
  {
    if gates != [] {
      var n := |gates| - 1;
      StatusesPartition(gates[..n]);
      forall s ensures |GatesWith(gates, s)| == CountWith(gates, s) {
        assert |GatesWith(gates[..n], s)| == CountWith(gates[..n], s);
      }
    }
  }

  lemma {:induction false} NoneWith(gates: seq<Observation>, s: Status)
    ensures CountWith(gates, s) == 0 <==> forall i :: 0 <= i < |gates| ==> gates[i].receipt.status != s
    decreases |gates|
  {
    if gates != [] {
      var n := |gates| - 1;
      NoneWith(gates[..n], s);
      assert forall i :: 0 <= i < n ==> gates[..n][i] == gates[i];
      if CountWith(gates, s) == 0 {
        forall i | 0 <= i < |gates| ensures gates[i].receipt.status != s {
          if i < n { assert gates[..n][i] == gates[i]; }
        }
      }
    }
  }

  /** In any accepted report the three kinds of gates add up to twelve, a failed gate dominates a blocked
      one, and only a report without either is complete. */
  lemma AcceptedCounts(texts: Texts, r: Report)
    requires ReportValid(texts, r)
    ensures r.passedGates + |r.blockedGates| + |r.failedGates| == 12
    ensures r.status == FailedRelease <==> r.failedGates != []
    ensures r.status == Complete <==> r.passedGates == 12
    ensures r.status == Complete <==> r.allPassed
  {
    hide ObservationValid, LimitationsValid, Fresh, SortedSet;
    StatusesPartition(r.gates);
    NoneWith(r.gates, Blocked);
    NoneWith(r.gates, Failed);
    if r.status == Complete {
      forall i | 0 <= i < |r.gates| ensures r.gates[i].receipt.status == Passed {
        assert r.gates[i].receipt.status != Blocked && r.gates[i].receipt.status != Failed;
      }
    }
  }

  // ---------------------------------------------------------------- sorting the inputs

  ghost predicate InOrder(roles: seq<Role>) {
    forall i, j :: 0 <= i < j < |roles| ==> Rank(roles[i]) <= Rank(roles[j])
  }

  lemma {:induction false} InsertKeeps(b: InputBinding, bs: seq<InputBinding>)
    ensures multiset(InsertInput(b, bs)) == multiset(bs) + multiset{b}
    decreases |bs|
  {
    if bs != [] {
      InsertKeeps(b, bs[1..]);
      assert bs == [bs[0]] + bs[1..];
    }
  }

  lemma {:induction false} SortKeeps(bs: seq<InputBinding>)
    ensures multiset(SortInputs(bs)) == multiset(bs)
    decreases |bs|
  {
    if bs != [] {
      SortKeeps(bs[1..]);
      InsertKeeps(bs[0], SortInputs(bs[1..]));
      assert bs == [bs[0]] + bs[1..];
    }
  }

  function InsertRank(r: Role, rs: seq<Role>): seq<Role> {
    if rs == [] then [r]
    else if Rank(rs[0]) < Rank(r) then [rs[0]] + InsertRank(r, rs[1..])
    else [r] + rs
  }

  lemma ConsInOrder(r: Role, rs: seq<Role>)
    requires InOrder(rs) && forall x :: x in rs ==> Rank(r) <= Rank(x)
    ensures InOrder([r] + rs)
  {
    hide Rank;
  }

  lemma {:induction false} InsertRankKeeps(r: Role, rs: seq<Role>)
    ensures multiset(InsertRank(r, rs)) == multiset(rs) + multiset{r}
    ensures forall x :: x in InsertRank(r, rs) ==> x == r || x in rs
    decreases |rs|
  {
    hide Rank;
    if rs != [] {
      InsertRankKeeps(r, rs[1..]);
      assert rs == [rs[0]] + rs[1..];
    }
  }

  lemma {:induction false} InsertRanks(r: Role, rs: seq<Role>)
    requires InOrder(rs)
    ensures InOrder(InsertRank(r, rs))
    decreases |rs|
  {
    hide Rank;
    if rs != [] {
      assert forall x :: x in rs ==> Rank(rs[0]) <= Rank(x);
      if Rank(rs[0]) < Rank(r) {
        InsertRanks(r, rs[1..]);
        InsertRankKeeps(r, rs[1..]);
        ConsInOrder(rs[0], InsertRank(r, rs[1..]));
      } else {
        ConsInOrder(r, rs);
      }
    }
  }

  lemma {:induction false} InsertRoles(b: InputBinding, bs: seq<InputBinding>)
    ensures RolesOf(InsertInput(b, bs)) == InsertRank(b.role, RolesOf(bs))
    decreases |bs|
  {
    if bs != [] {
      InsertRoles(b, bs[1..]);
      assert RolesOf(bs)[1..] == RolesOf(bs[1..]);
      if Rank(bs[0].role) < Rank(b.role) {
        var rest := InsertInput(b, bs[1..]);
        assert RolesOf([bs[0]] + rest) == [bs[0].role] + RolesOf(rest);
      } else {
        assert RolesOf([b] + bs) == [b.role] + RolesOf(bs);
      }
    }
  }

  lemma {:induction false} SortRoles(bs: seq<InputBinding>)
    ensures InOrder(RolesOf(SortInputs(bs)))
    ensures multiset(RolesOf(SortInputs(bs))) == multiset(RolesOf(bs))
    decreases |bs|
  {
    if bs != [] {
      var rest := SortInputs(bs[1..]);
      SortRoles(bs[1..]);
      InsertRoles(bs[0], rest);
      InsertRanks(bs[0].role, RolesOf(rest));
      InsertRankKeeps(bs[0].role, RolesOf(rest));
      assert RolesOf(bs) == [bs[0].role] + RolesOf(bs[1..]);
    }
  }

  /** Each of the five fixed roles, once, in any order. */
  predicate OnePerRole(bs: seq<InputBinding>) {
    multiset(RolesOf(bs)) == multiset(AllRoles())
  }

  lemma SameMembers(a: seq<InputBinding>, b: seq<InputBinding>)
    requires multiset(a) == multiset(b)
    ensures |a| == |b| && forall x :: x in a <==> x in b
  {
    assert |multiset(a)| == |a| && |multiset(b)| == |b|;
    forall x ensures x in a <==> x in b { assert x in a <==> x in multiset(a); assert x in b <==> x in multiset(b); }
  }

  /** Five ranks below five in strict order are all the ranks. */
  lemma FiveRanks(roles: seq<Role>)
    requires |roles| == 5 && forall i, j :: 0 <= i < j < 5 ==> Rank(roles[i]) < Rank(roles[j])
    ensures roles == AllRoles()
  {
    assert Rank(roles[0]) < Rank(roles[1]) < Rank(roles[2]) < Rank(roles[3]) < Rank(roles[4]);
  }

  lemma RankInjective(a: Role, b: Role)
    ensures Rank(a) == Rank(b) <==> a == b
  {
  }

  lemma EachOnce(r: Role)
    ensures multiset(AllRoles())[r] == 1 && |multiset(AllRoles())| == 5
  {
  }

  /** Sorting the inputs gives the fixed roles exactly when each role comes once. */
  lemma SortedRoles(bs: seq<InputBinding>)
    ensures RolesOf(SortInputs(bs)) == AllRoles() <==> OnePerRole(bs)
  {
    hide SortInputs, AllRoles, RolesOf;
    SortRoles(bs);
    var roles := RolesOf(SortInputs(bs));
    if OnePerRole(bs) {
      assert |multiset(roles)| == |roles|;
      EachOnce(CandidateRole);
      forall i, j | 0 <= i < j < 5 ensures Rank(roles[i]) < Rank(roles[j]) {
        RankInjective(roles[i], roles[j]);
        EachOnce(roles[i]);
        if roles[i] == roles[j] { TwiceCounts(roles, i, j); }
      }
      FiveRanks(roles);
    }
  }

  // ---------------------------------------------------------------- assembly meets the validator

  /** Evidence that is bound together: a valid bundle for this candidate and run. */
  ghost predicate Bound(texts: Texts, p: Parts) {
    && BundleValid(texts, p.bundle)
    && p.bundle.candidate == p.candidate.sha256 && p.bundle.run == p.run.sha256
  }

  /** What assembly does not derive and therefore has to be given. */
  ghost predicate Assemblable(texts: Texts, p: Parts) {
    && VerificationBound(p.verification, p.run) && StaticBound(p.staticEvidence, p.candidate)
    && OnePerRole(p.inputs)
    && (forall b :: b in p.inputs ==>
          InputValid(b)
          && b.evidence == InnerDigest(b.role, p.candidate, p.bundle.sha256, p.run, p.verification, p.staticEvidence))
    && (forall i :: 0 <= i < |p.bundle.receipts| ==>
          Delivery.TotalSize(p.bundle.receipts[i].artifacts) <= MAX_ARTIFACT_BYTES)
    && (forall i :: 0 <= i < |p.bundle.receipts| && PassesMaximum(p.bundle.receipts[i]) ==> MaximumRun(p.run))
    && |SortedSet(p.limitations + BlockerSummaries(ProjectAll(p.bundle.receipts)))| <= 100
    && (forall s :: s in p.limitations ==> |s| <= 1_000 && texts.line(s))
    && ((forall i :: 0 <= i < |p.bundle.receipts| ==> p.bundle.receipts[i].status == Passed) ==> p.limitations == [])
    && Fresh(p.generatedAt, p.candidate, p.run, p.verification, p.staticEvidence, ProjectAll(p.bundle.receipts))
  }

  lemma ProjectionValid(texts: Texts, r: Receipt)
    requires ReceiptValid(texts, r)
    ensures ObservationValid(Project(r)) <==> Delivery.TotalSize(r.artifacts) <= MAX_ARTIFACT_BYTES
  {
    hide Delivery.TotalSize, SortedSet, Delivery.Paths;
  }

  /** Some gate is blocked with this summary. */
  ghost predicate HasSummary(gates: seq<Observation>, s: string) {
    exists i :: 0 <= i < |gates| && SummaryIs(gates[i], s)
  }

  predicate SummaryIs(o: Observation, s: string) {
    o.receipt.blocker.Some? && o.receipt.blocker.value.summary == s
  }

  lemma LastSummary(gates: seq<Observation>, s: string)
    requires gates != []
    ensures HasSummary(gates, s) <==> HasSummary(gates[..|gates| - 1], s) || SummaryIs(gates[|gates| - 1], s)
  {
    hide SummaryIs;
    var n := |gates| - 1;
    assert forall i :: 0 <= i < n ==> gates[..n][i] == gates[i];
  }

  lemma SummariesNext(gates: seq<Observation>, s: string)
    requires gates != []
    ensures s in BlockerSummaries(gates) <==>
              s in BlockerSummaries(gates[..|gates| - 1]) || SummaryIs(gates[|gates| - 1], s)
    ensures |BlockerSummaries(gates)| <= |BlockerSummaries(gates[..|gates| - 1])| + 1
  {
  }

  lemma {:induction false} SummaryMembers(gates: seq<Observation>, s: string)
    ensures s in BlockerSummaries(gates) <==> HasSummary(gates, s)
    ensures |BlockerSummaries(gates)| <= |gates|
    decreases |gates|
  {
    hide BlockerSummaries, HasSummary, SummaryIs;
    if gates == [] {
      NoSummaries(s);
    } else {
      SummaryMembers(gates[..|gates| - 1], s);
      LastSummary(gates, s);
      SummariesNext(gates, s);
    }
  }

  lemma NoSummaries(s: string)
    ensures BlockerSummaries([]) == [] && !HasSummary([], s)
  {
  }

  lemma PassedHasNoSummaries(texts: Texts, receipts: seq<Receipt>)
    requires forall i :: 0 <= i < |receipts| ==> ReceiptValid(texts, receipts[i]) && receipts[i].status == Passed
    ensures BlockerSummaries(ProjectAll(receipts)) == []
  {
    hide SummaryValid, ArtifactsValid, BlockerSummaries;
    var gates := ProjectAll(receipts);
    forall i | 0 <= i < |gates| ensures gates[i].receipt.blocker.None? {
      assert gates[i].receipt == receipts[i] && ReceiptValid(texts, receipts[i]);
    }
    if BlockerSummaries(gates) != [] { SummaryMembers(gates, BlockerSummaries(gates)[0]); }
  }

  lemma SortedMembers(s: seq<string>)
    ensures SortedSet(s) == SortedSet(SortedSet(s))
    ensures forall x :: x in SortedSet(s) <==> x in s
    ensures SortedSet(s) == [] <==> s == []
  {
    hide SortedSet;
    SortedSetCorrect(s);
    IsSortedSet(SortedSet(s));
    forall x ensures x in SortedSet(s) <==> x in s {
      assert x in SortedSet(s) <==> x in Elements(SortedSet(s));
      assert x in s <==> x in Elements(s);
    }
    if s != [] { assert s[0] in SortedSet(s); }
    if SortedSet(s) != [] { assert SortedSet(s)[0] in s; }
  }

  /** The assembled limitations pass their validator exactly when there are not too many and the given ones
      are bounded single lines. */
  lemma LimitationsAssembled(texts: Texts, p: Parts)
    requires Bound(texts, p)
    ensures var all := SortedSet(p.limitations + BlockerSummaries(ProjectAll(p.bundle.receipts)));
            LimitationsValid(texts, all) <==>
              |all| <= 100 && forall s :: s in p.limitations ==> |s| <= 1_000 && texts.line(s)
  {
    hide SortedSet, BlockerSummaries, SummaryValid, ArtifactsValid, ArtifactsFit;
    var gates := ProjectAll(p.bundle.receipts);
    var raw := p.limitations + BlockerSummaries(gates);
    var all := SortedSet(raw);
    SortedMembers(raw);
    forall s | s in BlockerSummaries(gates) ensures |s| <= 1_000 && texts.line(s) {
      SummaryMembers(gates, s);
      var i :| 0 <= i < |gates| && SummaryIs(gates[i], s);
      assert gates[i].receipt == p.bundle.receipts[i];
      assert ReceiptValid(texts, p.bundle.receipts[i]);
    }
    if |all| <= 100 && forall s :: s in p.limitations ==> |s| <= 1_000 && texts.line(s) {
      forall i | 0 <= i < |all| ensures |all[i]| <= 1_000 && texts.line(all[i]) { assert all[i] in raw; }
    }
    if LimitationsValid(texts, all) {
      forall s | s in p.limitations ensures |s| <= 1_000 && texts.line(s) {
        assert s in all;
        var i :| 0 <= i < |all| && all[i] == s;
      }
    }
  }

  /** A complete assembled report has no limitations exactly when none were given. */
  lemma CompleteAssembled(texts: Texts, p: Parts)
    requires Bound(texts, p)
    ensures var r := Assemble(p);
            (r.status == Complete ==> r.limitations == []) <==>
              ((forall i :: 0 <= i < |p.bundle.receipts| ==> p.bundle.receipts[i].status == Passed) ==> p.limitations == [])
  {
    hide SortedSet, BlockerSummaries, ReceiptValid, ArtifactsFit, SortInputs, SafeLocalPass, CountWith, GatesWith;
    var receipts := p.bundle.receipts;
    var gates := ProjectAll(receipts);
    StatusesPartition(gates);
    NoneWith(gates, Blocked);
    NoneWith(gates, Failed);
    SortedMembers(p.limitations + BlockerSummaries(gates));
    assert forall i :: 0 <= i < |gates| ==> gates[i].receipt == receipts[i];
    if forall i :: 0 <= i < |receipts| ==> receipts[i].status == Passed {
      PassedHasNoSummaries(texts, receipts);
      assert p.limitations + [] == p.limitations;
    }
    assert Assemble(p).status == Complete <==> forall i :: 0 <= i < |receipts| ==> receipts[i].status == Passed by {
      if Assemble(p).status == Complete {
        forall i | 0 <= i < |receipts| ensures receipts[i].status == Passed {
          assert gates[i].receipt.status != Blocked && gates[i].receipt.status != Failed;
        }
      }
    }
  }

  lemma InputsAssembled(p: Parts)
    ensures var r := Assemble(p);
            (&& (forall i :: 0 <= i < |r.inputs| ==> InputValid(r.inputs[i]))
             && (forall i :: 0 <= i < |r.inputs| ==>
                   r.inputs[i].evidence
                     == InnerDigest(r.inputs[i].role, p.candidate, p.bundle.sha256, p.run, p.verification, p.staticEvidence)))
            <==> forall b :: b in p.inputs ==>
                   InputValid(b)
                   && b.evidence == InnerDigest(b.role, p.candidate, p.bundle.sha256, p.run, p.verification, p.staticEvidence)
    ensures |Assemble(p).inputs| == |p.inputs|
  {
    hide SortInputs, GatesWith, CountWith, SafeLocalPass, SortedSet, BlockerSummaries, InnerDigest, InputValid;
    var r := Assemble(p);
    SortKeeps(p.inputs);
    SameMembers(r.inputs, p.inputs);
    forall i | 0 <= i < |r.inputs| ensures r.inputs[i] in p.inputs { assert r.inputs[i] in r.inputs; }
    forall b | b in p.inputs ensures exists i :: 0 <= i < |r.inputs| && r.inputs[i] == b { assert b in r.inputs; }
  }

  /** What the validator asks of the gates and assembly always derives. */
  lemma GatesAssembled(texts: Texts, p: Parts)
    requires Bound(texts, p)
    ensures var r := Assemble(p);
            && |r.gates| == 12 && r.totalGates == 12 && r.passedGates <= 12
            && |r.blockedGates| <= 12 && |r.failedGates| <= 12
            && ObservedGates(r.gates) == AllGates()
            && r.allPassed == AllPass(r.gates)
            && (forall i :: 0 <= i < |r.gates| ==>
                  r.gates[i].receipt.candidate == p.candidate.sha256 && r.gates[i].receipt.run == p.run.sha256)
  {
    hide SortedSet, BlockerSummaries, ReceiptValid, ArtifactsFit, SortInputs, SafeLocalPass, CountWith, GatesWith;
    var r := Assemble(p);
    var receipts := p.bundle.receipts;
    assert |AllGates()| == 12 && |GatesOf(receipts)| == |receipts|;
    StatusesPartition(r.gates);
    NoneWith(r.gates, Blocked);
    NoneWith(r.gates, Failed);
    assert ObservedGates(r.gates) == GatesOf(receipts);
    if r.allPassed {
      forall i | 0 <= i < |r.gates| ensures r.gates[i].receipt.status == Passed {
        assert r.gates[i].receipt.status != Blocked && r.gates[i].receipt.status != Failed;
      }
    }
  }

  lemma ObservationsAssembled(texts: Texts, p: Parts)
    requires Bound(texts, p)
    ensures var r := Assemble(p);
            (forall i :: 0 <= i < |r.gates| ==> ObservationValid(r.gates[i])) <==>
              forall i :: 0 <= i < |p.bundle.receipts| ==>
                Delivery.TotalSize(p.bundle.receipts[i].artifacts) <= MAX_ARTIFACT_BYTES
  {
    hide SortedSet, BlockerSummaries, ReceiptValid, ArtifactsFit, SortInputs, SafeLocalPass, CountWith, GatesWith,
      ObservationValid, Project;
    var r := Assemble(p);
    forall i | 0 <= i < |p.bundle.receipts|
      ensures ObservationValid(r.gates[i]) <==>
                Delivery.TotalSize(p.bundle.receipts[i].artifacts) <= MAX_ARTIFACT_BYTES
    {
      assert ReceiptValid(texts, p.bundle.receipts[i]);
      ProjectionValid(texts, p.bundle.receipts[i]);
      assert r.gates[i] == Project(p.bundle.receipts[i]);
    }
  }

  lemma MaximumAssembled(p: Parts)
    ensures var gates := Assemble(p).gates;
            (forall i :: 0 <= i < |gates| && PassesMaximum(gates[i].receipt) ==> MaximumRun(p.run)) <==>
            forall i :: 0 <= i < |p.bundle.receipts| && PassesMaximum(p.bundle.receipts[i]) ==> MaximumRun(p.run)
  {
    hide SortedSet, BlockerSummaries, SortInputs, SafeLocalPass, CountWith, GatesWith, MaximumRun;
    var gates := Assemble(p).gates;
    assert |gates| == |p.bundle.receipts|;
    assert forall i :: 0 <= i < |gates| ==> gates[i].receipt == p.bundle.receipts[i];
  }

  /** Assembly meets its validator: for bound evidence the assembled report is accepted exactly when the
      given parts fit; whatever assembly derives itself is never refused. */
  lemma AssemblyMeetsValidator(texts: Texts, p: Parts)
    requires Bound(texts, p)
    ensures ReportValid(texts, Assemble(p)) <==> Assemblable(texts, p)
  {
    hide SortedSet, BlockerSummaries, SortInputs, SafeLocalPass, CountWith, GatesWith, ObservationValid, InputValid,
      Fresh, MaximumRun, BundleValid, LimitationsValid, VerificationBound, StaticBound, InnerDigest, RolesOf, AllRoles,
      OnePerRole, AllPass, AllGates, ObservedGates, ProjectAll;
    GatesAssembled(texts, p);
    ObservationsAssembled(texts, p);
    InputsAssembled(p);
    SortedRoles(p.inputs);
    LimitationsAssembled(texts, p);
    CompleteAssembled(texts, p);
    MaximumAssembled(p);
    var gates := ProjectAll(p.bundle.receipts);
    SortedMembers(p.limitations + BlockerSummaries(gates));
    assert OnePerRole(p.inputs) ==> |p.inputs| == 5 by { FiveInputs(p.inputs); }
  }

  lemma FiveInputs(bs: seq<InputBinding>)
    ensures OnePerRole(bs) ==> |bs| == 5
  {
    assert |multiset(RolesOf(bs))| == |bs|;
    EachOnce(CandidateRole);
  }

  /** What is left to give when there are no limitations beyond the blockers' own. */
  ghost predicate PartsFit(p: Parts) {
    && VerificationBound(p.verification, p.run) && StaticBound(p.staticEvidence, p.candidate)
    && OnePerRole(p.inputs)
    && (forall b :: b in p.inputs ==>
          InputValid(b)
          && b.evidence == InnerDigest(b.role, p.candidate, p.bundle.sha256, p.run, p.verification, p.staticEvidence))
    && (forall i :: 0 <= i < |p.bundle.receipts| ==>
          Delivery.TotalSize(p.bundle.receipts[i].artifacts) <= MAX_ARTIFACT_BYTES)
    && (forall i :: 0 <= i < |p.bundle.receipts| && PassesMaximum(p.bundle.receipts[i]) ==> MaximumRun(p.run))
    && Fresh(p.generatedAt, p.candidate, p.run, p.verification, p.staticEvidence, ProjectAll(p.bundle.receipts))
  }

  /** Without extra limitations, as the collector assembles it, the report is accepted exactly when the
      evidence is bound together, fresh and within the byte bound, and the maximum-assurance gate passes only
      for a matching run: the limitations it derives are never refused. */
  lemma PlainAssembly(texts: Texts, p: Parts)
    requires Bound(texts, p) && p.limitations == []
    ensures ReportValid(texts, Assemble(p)) <==> PartsFit(p)
  {
    hide ReportValid, SortedSet, BlockerSummaries, Fresh, MaximumRun, BundleValid, VerificationBound, StaticBound,
      InnerDigest, OnePerRole, ProjectAll, Assemble, InputValid;
    AssemblyMeetsValidator(texts, p);
    var gates := ProjectAll(p.bundle.receipts);
    SummaryMembers(gates, "");
    SortedSetShorter([] + BlockerSummaries(gates));
    assert |gates| == 12 by { TwelveReceipts(texts, p); }
  }

  lemma TwelveReceipts(texts: Texts, p: Parts)
    requires Bound(texts, p)
    ensures |ProjectAll(p.bundle.receipts)| == 12
  {
    hide ReceiptValid, ArtifactsFit;
    assert |GatesOf(p.bundle.receipts)| == |AllGates()| == 12;
  }

  // ---------------------------------------------------------------- a receipt the bundle allows and the report does not

  /** Eleven artifacts of 95,000,000 bytes each. */
  function LargeArtifacts(): seq<Binding> {
    seq(11, i requires 0 <= i < 11 => Delivery.Binding("" + Letters(i + 1), Delivery.FileHash([]), 95_000_000))
  }

  /** The artifacts gate passed with them; every other gate is blocked. */
  function LargeReceipt(g: Gate, b: Blocker): Receipt {
    if g == Artifacts then
      Receipt(g, 0, 0, g, Passed, 0, 0, Some("1"), Some(0), true, Some(0), false, Summary(PassedKind, b.summary, 1, 1, 0),
              None, LargeArtifacts())
    else
      Receipt(g, 0, 0, g, Blocked, 0, 0, None, None, true, None, false, Summary(BlockedKind, b.summary, 0, 0, 0), Some(b), [])
  }

  function LargeReceipts(b: Blocker): seq<Receipt> {
    seq(12, i requires 0 <= i < 12 => LargeReceipt(AllGates()[i], b))
  }

  function LargeBundle(b: Blocker): Bundle {
    Bundle(0, 0, LargeReceipts(b), 0, 0)
  }

  lemma {:induction false} EqualSizes(bs: seq<Binding>, n: nat)
    requires forall i :: 0 <= i < |bs| ==> bs[i].size == n
    ensures Delivery.TotalSize(bs) == |bs| * n
    decreases |bs|
  {
    if bs != [] {
      EqualSizes(bs[1..], n);
      assert |bs| * n == (|bs| - 1) * n + n;
    }
  }

  lemma {:induction false} DistinctBytes(bs: seq<Binding>)
    requires NoDuplicates(bs)
    ensures TotalBytes(Elements(bs)) == Delivery.TotalSize(bs)
    decreases |bs|
  {
    if bs == [] {
      assert Elements(bs) == {};
    } else {
      DistinctBytes(bs[1..]);
      assert bs[0] !in bs[1..];
      BytesAdd(Elements(bs[1..]), bs[0]);
      assert bs == [bs[0]] + bs[1..];
      assert Elements(bs) == Elements(bs[1..]) + {bs[0]};
    }
  }

  lemma LargeArtifactsFacts()
    ensures |LargeArtifacts()| == 11 && Delivery.Paths(LargeArtifacts()) == LetterNames("", 11)
    ensures ArtifactsValid(LargeArtifacts()) && Delivery.TotalSize(LargeArtifacts()) == 1_045_000_000
    ensures NoDuplicates(LargeArtifacts()) && ArtifactsFit(LargeArtifacts())
  {
    hide SortedSet, TotalBytes, Delivery.TotalSize, Ascending;
    var bs := LargeArtifacts();
    assert Delivery.Paths(bs) == LetterNames("", 11);
    LettersAscend("", 11);
    IsSortedSet(LetterNames("", 11));
    Delivery.AscendingDistinct(LetterNames("", 11));
    forall i, j | 0 <= i < j < 11 ensures bs[i].path != bs[j].path {
      assert LetterNames("", 11)[i] != LetterNames("", 11)[j];
    }
    EqualSizes(bs, 95_000_000);
    DistinctBytes(bs);
    DistinctSize(bs);
  }

  lemma {:induction false} OnlyFirst(receipts: seq<Receipt>)
    requires receipts != [] && forall i :: 1 <= i < |receipts| ==> receipts[i].artifacts == []
    ensures AllBindings(receipts) == receipts[0].artifacts
    decreases |receipts|
  {
    var n := |receipts| - 1;
    if n == 0 {
      assert receipts[..0] == [];
    } else {
      assert forall i :: 0 <= i < n ==> receipts[..n][i] == receipts[i];
      OnlyFirst(receipts[..n]);
    }
  }

  lemma LargeBundleValid(texts: Texts, b: Blocker)
    requires BlockerValid(texts, b)
    ensures BundleValid(texts, LargeBundle(b))
    ensures LargeReceipts(b)[0].artifacts == LargeArtifacts()
  {
    hide LargeArtifacts, ArtifactsFit, ArtifactsValid, AllBindings;
    LargeArtifactsFacts();
    var rs := LargeReceipts(b);
    assert AllGates()[0] == Artifacts;
    assert GatesOf(rs) == AllGates();
    assert ArtifactsValid([]) by { NoArtifacts(); }
    forall i | 1 <= i < 12 ensures rs[i].artifacts == [] { OtherGate(i); }
    OnlyFirst(rs);
  }

  lemma OtherGate(i: nat)
    requires 1 <= i < 12
    ensures AllGates()[i] != Artifacts
  {
  }

  lemma NoArtifacts()
    ensures ArtifactsValid([])
  {
    assert Delivery.Paths([]) == [];
  }

  /** A valid bundle with one receipt of 1,045,000,000 artifact bytes: no report assembled from it is accepted,
      whatever the other parts are. */
  lemma LargeReceiptRefused(texts: Texts, b: Blocker, p: Parts)
    requires BlockerValid(texts, b) && p.bundle == LargeBundle(b) && p.candidate.sha256 == 0 && p.run.sha256 == 0
    ensures Bound(texts, p) && !ReportValid(texts, Assemble(p))
  {
    hide ReportValid, Assemble, BundleValid, LargeReceipts, LargeArtifacts, SortedSet, Fresh, Delivery.TotalSize;
    LargeBundleValid(texts, b);
    LargeArtifactsFacts();
    assert |LargeReceipts(b)| == 12 by { LargeCount(b); }
    AssemblyMeetsValidator(texts, p);
  }

  lemma LargeCount(b: Blocker)
    ensures |LargeReceipts(b)| == 12
  {
  }

  // ---------------------------------------------------------------- what an accepted report says

  /** The five inputs, in the order of their roles, small files at their fixed places, each with its own digest. */
  ghost predicate InputsSay(r: Report) {
    && RolesOf(r.inputs) == [CandidateRole, GateEvidenceRole, RunRole, RunVerificationRole, StaticEvidenceRole]
    && |r.inputs| == 5 && (forall b :: b in r.inputs ==> b.fixedPath && 1 <= b.size <= 100_000_000)
    && r.inputs[0].evidence == r.candidate.sha256 && r.inputs[1].evidence == r.bundle && r.inputs[2].evidence == r.run.sha256
    && r.inputs[3].evidence == r.verification.sha256 && r.inputs[4].evidence == r.staticEvidence.sha256
    && r.inputInventory == r.inputs
  }

  /** The verification is of this run, and the static evidence of this candidate. */
  ghost predicate EvidenceBound(r: Report) {
    && r.verification.runBinding == r.run.sha256 && r.verification.runId == r.run.runId
    && r.verification.manifest == r.run.manifest && r.verification.manifestFile == r.run.manifestFile
    && r.verification.sourceTree == r.run.sourceTree && r.verification.config == r.run.config
    && r.staticEvidence.commit == r.candidate.commit && r.staticEvidence.candidate == r.candidate.sha256
  }

  /** One observed gate: its artifacts sorted and added up, and one of the three endings. */
  ghost predicate GateSays(o: Observation) {
    var r := o.receipt;
    && r.startedAt <= r.endedAt && |r.artifacts| <= 1_000 && Ascending(Delivery.Paths(r.artifacts))
    && o.artifactCount == |r.artifacts| && o.inventory == r.artifacts
    && o.artifactBytes == Delivery.TotalSize(r.artifacts) <= 1_000_000_000
    && match r.status
       case Passed => r.genuine && r.exitCode == Some(0) && !r.timedOut && r.blocker == None && r.artifacts != []
       case Blocked => r.blocker.Some? && r.exitCode == None && !r.timedOut
       case Failed => r.blocker == None && (r.timedOut || (r.exitCode.Some? && r.exitCode.value != 0))
  }

  /** The twelve gates in order, each observed for this candidate and run. */
  ghost predicate GatesSay(r: Report) {
    && ObservedGates(r.gates) == [Artifacts, BenchmarkCertificate, Doctor, Manifests, MaximumAssuranceRun, ModelBenchmark,
                                  Mypy, Pytest, Replay, RuffCheck, RuffFormat, Schemas]
    && |r.gates| == 12 && r.totalGates == 12 && r.observationsDigest == r.gates
    && forall o :: o in r.gates ==>
         GateSays(o) && o.receipt.candidate == r.candidate.sha256 && o.receipt.run == r.run.sha256
  }

  ghost predicate HasStatus(gates: seq<Observation>, g: Gate, s: Status) {
    exists o :: o in gates && o.receipt.gate == g && o.receipt.status == s
  }

  /** The place of a gate in the order of names. */
  function Place(g: Gate): nat {
    match g
    case Artifacts => 0 case BenchmarkCertificate => 1 case Doctor => 2 case Manifests => 3
    case MaximumAssuranceRun => 4 case ModelBenchmark => 5 case Mypy => 6 case Pytest => 7
    case Replay => 8 case RuffCheck => 9 case RuffFormat => 10 case Schemas => 11
  }

  /** Exactly the gates with this status, in order. */
  ghost predicate Listed(gates: seq<Observation>, s: Status, listed: seq<Gate>) {
    && (forall g :: g in listed <==> HasStatus(gates, g, s))
    && forall i, j :: 0 <= i < j < |listed| ==> Place(listed[i]) < Place(listed[j])
  }

  /** The gates that a safe local release needs: all but the doctor, the replay, the maximum-assurance run and
      the model benchmark. */
  function LocalEight(): set<Gate> {
    {Artifacts, BenchmarkCertificate, Manifests, Mypy, Pytest, RuffCheck, RuffFormat, Schemas}
  }

  /** The lists, the counts, and what they mean for the release. */
  ghost predicate VerdictSays(r: Report) {
    && Listed(r.gates, Blocked, r.blockedGates) && Listed(r.gates, Failed, r.failedGates)
    && r.passedGates == 12 - |r.blockedGates| - |r.failedGates|
    && (r.allPassed <==> forall o :: o in r.gates ==> o.receipt.status == Passed)
    && (r.safeLocalComplete <==>
          forall o :: o in r.gates && o.receipt.gate in LocalEight() ==> o.receipt.status == Passed)
    && r.status == (if exists o :: o in r.gates && o.receipt.status == Failed then FailedRelease
                    else if exists o :: o in r.gates && o.receipt.status == Blocked then BlockedTechnical
                    else Complete)
    && (HasStatus(r.gates, MaximumAssuranceRun, Passed) ==>
          && r.run.requestedMaximum && r.run.achievedMaximum && r.run.requestedSolidity && r.run.achievedSolidity
          && r.run.matched && !r.run.reduced && r.run.omissions == [])
  }

  /** Bounded sorted limitations that tell every blocker, and none in a complete report. */
  ghost predicate LimitationsSay(texts: Texts, r: Report) {
    && |r.limitations| <= 100 && Ascending(r.limitations)
    && (forall s :: s in r.limitations ==> |s| <= 1_000 && texts.line(s))
    && (forall o :: o in r.gates && o.receipt.blocker.Some? ==> o.receipt.blocker.value.summary in r.limitations)
    && (r.status == Complete ==> r.limitations == [])
  }

  /** The report is not older than its evidence, no evidence older than a day, and no gate older than what it is of. */
  ghost predicate TimesSay(r: Report) {
    var now := r.generatedAt;
    && now - 86_400 <= r.candidate.observedAt <= now && now - 86_400 <= r.run.observedAt <= now
    && now - 86_400 <= r.verification.observedAt <= now && now - 86_400 <= r.staticEvidence.observedAt <= now
    && forall o :: o in r.gates ==>
         && now - 86_400 <= o.receipt.startedAt && o.receipt.endedAt <= now
         && r.candidate.observedAt <= o.receipt.startedAt && r.run.observedAt <= o.receipt.startedAt
  }

  lemma GateMeans(o: Observation)
    ensures ObservationValid(o) <==> GateSays(o)
  {
    hide SortedSet, Ascending, Delivery.Paths, Delivery.TotalSize;
    IsSortedSet(Delivery.Paths(o.receipt.artifacts));
  }

  lemma InputsMean(r: Report)
    ensures && (forall i :: 0 <= i < |r.inputs| ==> InputValid(r.inputs[i])) && |r.inputs| == 5
            && RolesOf(r.inputs) == AllRoles() && r.inputInventory == r.inputs
            && (forall i :: 0 <= i < |r.inputs| ==>
                  r.inputs[i].evidence
                    == InnerDigest(r.inputs[i].role, r.candidate, r.bundle, r.run, r.verification, r.staticEvidence))
            <==> InputsSay(r)
  {
    if |r.inputs| == 5 && RolesOf(r.inputs) == AllRoles() {
      var roles := RolesOf(r.inputs);
      assert roles[0] == r.inputs[0].role && roles[1] == r.inputs[1].role && roles[2] == r.inputs[2].role;
      assert roles[3] == r.inputs[3].role && roles[4] == r.inputs[4].role;
    }
    if forall b :: b in r.inputs ==> b.fixedPath && 1 <= b.size <= 100_000_000 {
      forall i | 0 <= i < |r.inputs| ensures InputValid(r.inputs[i]) { assert r.inputs[i] in r.inputs; }
    }
  }

  lemma {:induction false} WithMembers(gates: seq<Observation>, s: Status)
    ensures forall g :: g in GatesWith(gates, s) <==> HasStatus(gates, g, s)
    decreases |gates|
  {
    hide HasStatus;
    if gates == [] {
      NoStatus(s);
    } else {
      WithMembers(gates[..|gates| - 1], s);
      StatusNext(gates, s);
    }
  }

  lemma NoStatus(s: Status)
    ensures forall g :: !HasStatus([], g, s)
  {
  }

  lemma {:induction false} WithInOrder(gates: seq<Observation>, s: Status)
    requires forall i, j :: 0 <= i < j < |gates| ==> Place(gates[i].receipt.gate) < Place(gates[j].receipt.gate)
    ensures forall i, j :: 0 <= i < j < |GatesWith(gates, s)| ==> Place(GatesWith(gates, s)[i]) < Place(GatesWith(gates, s)[j])
    decreases |gates|
  {
    hide Place, HasStatus;
    if gates != [] {
      var n := |gates| - 1;
      var before := GatesWith(gates[..n], s);
      WithInOrder(gates[..n], s);
      WithMembers(gates[..n], s);
      forall i | 0 <= i < |before| ensures Place(before[i]) < Place(gates[n].receipt.gate) {
        assert before[i] in before;
        StatusEarlier(gates, before[i], s);
      }
    }
  }

  lemma StatusEarlier(gates: seq<Observation>, g: Gate, s: Status)
    requires gates != [] && HasStatus(gates[..|gates| - 1], g, s)
    requires forall i, j :: 0 <= i < j < |gates| ==> Place(gates[i].receipt.gate) < Place(gates[j].receipt.gate)
    ensures Place(g) < Place(gates[|gates| - 1].receipt.gate)
  {
    hide Place;
    var n := |gates| - 1;
    var o :| o in gates[..n] && o.receipt.gate == g;
    var i :| 0 <= i < n && gates[..n][i] == o;
    assert gates[i] == o;
  }

  lemma ListedWith(gates: seq<Observation>, s: Status)
    requires forall i, j :: 0 <= i < j < |gates| ==> Place(gates[i].receipt.gate) < Place(gates[j].receipt.gate)
    ensures Listed(gates, s, GatesWith(gates, s))
  {
    hide Place, HasStatus, GatesWith;
    WithMembers(gates, s);
    WithInOrder(gates, s);
  }

  lemma StatusNext(gates: seq<Observation>, s: Status)
    requires gates != []
    ensures forall g :: HasStatus(gates, g, s) <==>
              || HasStatus(gates[..|gates| - 1], g, s)
              || (gates[|gates| - 1].receipt.gate == g && gates[|gates| - 1].receipt.status == s)
  {
    var n := |gates| - 1;
    assert gates == gates[..n] + [gates[n]];
  }

  /** Two ordered lists of the same gates are one. */
  lemma {:induction false} OneList(a: seq<Gate>, b: seq<Gate>)
    requires forall g :: g in a <==> g in b
    requires forall i, j :: 0 <= i < j < |a| ==> Place(a[i]) < Place(a[j])
    requires forall i, j :: 0 <= i < j < |b| ==> Place(b[i]) < Place(b[j])
    ensures a == b
    decreases |a|
  {
    hide Place;
    if a == [] {
      SomeMember(b);
    } else {
      assert a[0] in a;
      assert a[0] in b && b[0] in a;
      assert a[0] == b[0];
      RestOf(a);
      RestOf(b);
      OneList(a[1..], b[1..]);
      assert a == [a[0]] + a[1..] && b == [b[0]] + b[1..];
    }
  }

  lemma SomeMember(b: seq<Gate>)
    ensures b == [] || exists g :: g in b
  {
    if b != [] { assert b[0] in b; }
  }

  lemma RestOf(a: seq<Gate>)
    requires a != [] && forall i, j :: 0 <= i < j < |a| ==> Place(a[i]) < Place(a[j])
    ensures forall g :: g in a[1..] <==> g in a && g != a[0]
  {
  }

  lemma PlacesAscend(gates: seq<Observation>)
    requires ObservedGates(gates) == AllGates()
    ensures |gates| == 12 && forall i, j :: 0 <= i < j < 12 ==> Place(gates[i].receipt.gate) < Place(gates[j].receipt.gate)
  {
    var gs := ObservedGates(gates);
    assert |gs| == 12;
    forall i | 0 <= i < 12 ensures Place(gates[i].receipt.gate) == i {
      assert gs[i] == gates[i].receipt.gate;
      assert Place(AllGates()[i]) == i;
    }
  }

  lemma ListIs(gates: seq<Observation>, s: Status, listed: seq<Gate>)
    requires ObservedGates(gates) == AllGates()
    ensures listed == GatesWith(gates, s) <==> Listed(gates, s, listed)
  {
    hide Place, AllGates, ObservedGates, GatesWith, HasStatus;
    PlacesAscend(gates);
    ListedWith(gates, s);
    if Listed(gates, s, listed) { OneList(listed, GatesWith(gates, s)); }
  }

  lemma VerdictMeans(r: Report)
    requires ObservedGates(r.gates) == AllGates()
    ensures && r.blockedGates == GatesWith(r.gates, Blocked) && r.failedGates == GatesWith(r.gates, Failed)
            && r.passedGates == CountWith(r.gates, Passed)
            && r.safeLocalComplete == SafeLocalPass(r.gates) && r.allPassed == AllPass(r.gates)
            && r.status == StatusFrom(r.blockedGates, r.failedGates)
            && (forall i :: 0 <= i < |r.gates| && PassesMaximum(r.gates[i].receipt) ==> MaximumRun(r.run))
            <==> VerdictSays(r)
  {
    hide AllGates, ObservedGates, GatesWith, CountWith, SafeLocalPass, AllPass, Listed;
    PlacesAscend(r.gates);
    ListIs(r.gates, Blocked, r.blockedGates);
    ListIs(r.gates, Failed, r.failedGates);
    StatusesPartition(r.gates);
    NoneWith(r.gates, Blocked);
    NoneWith(r.gates, Failed);
    AllPassMeans(r.gates);
    SomeStatus(r.gates, Blocked);
    SomeStatus(r.gates, Failed);
    MaximumMeans(r.gates);
  }

  lemma AllPassMeans(gates: seq<Observation>)
    ensures AllPass(gates) <==> forall o :: o in gates ==> o.receipt.status == Passed
    ensures SafeLocalPass(gates) <==>
              forall o :: o in gates && o.receipt.gate in LocalEight() ==> o.receipt.status == Passed
  {
    assert forall i :: 0 <= i < |gates| ==> gates[i] in gates;
  }

  lemma SomeStatus(gates: seq<Observation>, s: Status)
    ensures CountWith(gates, s) == 0 <==> !exists o :: o in gates && o.receipt.status == s
  {
    hide CountWith;
    NoneWith(gates, s);
    assert forall i :: 0 <= i < |gates| ==> gates[i] in gates;
  }

  lemma MaximumMeans(gates: seq<Observation>)
    ensures (exists i :: 0 <= i < |gates| && PassesMaximum(gates[i].receipt)) <==> HasStatus(gates, MaximumAssuranceRun, Passed)
  {
    if exists i :: 0 <= i < |gates| && PassesMaximum(gates[i].receipt) {
      var i :| 0 <= i < |gates| && PassesMaximum(gates[i].receipt);
      assert gates[i] in gates;
    }
    if HasStatus(gates, MaximumAssuranceRun, Passed) {
      var o :| o in gates && o.receipt.gate == MaximumAssuranceRun && o.receipt.status == Passed;
      var i :| 0 <= i < |gates| && gates[i] == o;
      assert PassesMaximum(gates[i].receipt);
    }
  }

  lemma LimitationsMean(texts: Texts, r: Report)
    ensures && LimitationsValid(texts, r.limitations)
            && (forall s :: s in BlockerSummaries(r.gates) ==> s in r.limitations)
            && (r.status == Complete ==> r.limitations == [])
            <==> LimitationsSay(texts, r)
  {
    hide SortedSet, Ascending, BlockerSummaries;
    IsSortedSet(r.limitations);
    forall s ensures s in BlockerSummaries(r.gates) <==> HasSummary(r.gates, s) { SummaryMembers(r.gates, s); }
    SummariesSaid(r.gates);
    if forall s :: s in r.limitations ==> |s| <= 1_000 && texts.line(s) {
      forall i | 0 <= i < |r.limitations| ensures |r.limitations[i]| <= 1_000 && texts.line(r.limitations[i]) {
        assert r.limitations[i] in r.limitations;
      }
    }
  }

  lemma SummariesSaid(gates: seq<Observation>)
    ensures forall s :: HasSummary(gates, s) <==>
              exists o :: o in gates && o.receipt.blocker.Some? && o.receipt.blocker.value.summary == s
  {
    forall s ensures HasSummary(gates, s) <==>
      exists o :: o in gates && o.receipt.blocker.Some? && o.receipt.blocker.value.summary == s
    {
      if HasSummary(gates, s) {
        var i :| 0 <= i < |gates| && SummaryIs(gates[i], s);
        assert gates[i] in gates;
      }
      if o :| o in gates && o.receipt.blocker.Some? && o.receipt.blocker.value.summary == s {
        var i :| 0 <= i < |gates| && gates[i] == o;
        assert SummaryIs(gates[i], s);
      }
    }
  }

  lemma TimesMean(r: Report)
    ensures Fresh(r.generatedAt, r.candidate, r.run, r.verification, r.staticEvidence, r.gates) <==> TimesSay(r)
  {
    assert forall i :: 0 <= i < |r.gates| ==> r.gates[i] in r.gates;
  }

  lemma GatesMean(r: Report)
    ensures && (forall i :: 0 <= i < |r.gates| ==> ObservationValid(r.gates[i]))
            && r.totalGates == 12 && |r.gates| == 12 && ObservedGates(r.gates) == AllGates() && r.observationsDigest == r.gates
            && (forall i :: 0 <= i < |r.gates| ==>
                  r.gates[i].receipt.candidate == r.candidate.sha256 && r.gates[i].receipt.run == r.run.sha256)
            <==> GatesSay(r)
  {
    hide ObservationValid, GateSays, ObservedGates;
    forall o ensures ObservationValid(o) <==> GateSays(o) { GateMeans(o); }
    assert forall i :: 0 <= i < |r.gates| ==> r.gates[i] in r.gates;
  }

  /** A report is accepted exactly when it says all of this. */
  lemma ReportMeans(texts: Texts, r: Report)
    ensures ReportValid(texts, r) <==>
              InputsSay(r) && EvidenceBound(r) && GatesSay(r) && VerdictSays(r) && LimitationsSay(texts, r) && TimesSay(r)
  {
    hide ObservationValid, LimitationsValid, Fresh, BlockerSummaries, InnerDigest, InputValid, RolesOf, AllRoles, ObservedGates,
      AllGates, GatesWith, CountWith, SafeLocalPass, AllPass, StatusFrom, PassesMaximum, MaximumRun, InputsSay, GatesSay, VerdictSays,
      LimitationsSay, TimesSay;
    InputsMean(r);
    GatesMean(r);
    if ObservedGates(r.gates) == AllGates() { VerdictMeans(r); ListsAreShort(r); }
    if GatesSay(r) { GatesObserved(r); }
    LimitationsMean(texts, r);
    TimesMean(r);
  }

  lemma GatesObserved(r: Report)
    requires GatesSay(r)
    ensures ObservedGates(r.gates) == AllGates()
  {
  }

  lemma ListsAreShort(r: Report)
    requires ObservedGates(r.gates) == AllGates()
    ensures |r.gates| == 12 && CountWith(r.gates, Passed) <= 12
    ensures |GatesWith(r.gates, Blocked)| <= 12 && |GatesWith(r.gates, Failed)| <= 12
  {
    hide AllGates, ObservedGates, GatesWith, CountWith;
    PlacesAscend(r.gates);
    StatusesPartition(r.gates);
  }

  /** What assembly carries over, and the limitations it puts together. */
  lemma AssembledCarries(texts: Texts, p: Parts)
    ensures var r := Assemble(p);
            && (r.generatedAt, r.candidate, r.run) == (p.generatedAt, p.candidate, p.run)
            && (r.verification, r.staticEvidence, r.bundle) == (p.verification, p.staticEvidence, p.bundle.sha256)
            && multiset(r.inputs) == multiset(p.inputs)
            && |r.gates| == |p.bundle.receipts|
            && (forall i :: 0 <= i < |r.gates| ==> r.gates[i].receipt == p.bundle.receipts[i])
            && Ascending(r.limitations)
            && forall s :: s in r.limitations <==>
                 s in p.limitations || exists x :: x in p.bundle.receipts && x.blocker.Some? && x.blocker.value.summary == s
  {
    hide SortedSet, Ascending, BlockerSummaries, SortInputs, GatesWith, CountWith, SafeLocalPass;
    var gates := ProjectAll(p.bundle.receipts);
    SortKeeps(p.inputs);
    SortedMembers(p.limitations + BlockerSummaries(gates));
    SortedSetCorrect(p.limitations + BlockerSummaries(gates));
    forall s ensures s in BlockerSummaries(gates) <==>
      exists x :: x in p.bundle.receipts && x.blocker.Some? && x.blocker.value.summary == s
    {
      SummaryMembers(gates, s);
      if HasSummary(gates, s) {
        var i :| 0 <= i < |gates| && SummaryIs(gates[i], s);
        assert gates[i].receipt == p.bundle.receipts[i] && p.bundle.receipts[i] in p.bundle.receipts;
      }
      if x :| x in p.bundle.receipts && x.blocker.Some? && x.blocker.value.summary == s {
        var i :| 0 <= i < |p.bundle.receipts| && p.bundle.receipts[i] == x;
        assert SummaryIs(gates[i], s);
      }
    }
  }
}
