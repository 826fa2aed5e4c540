/** Collecting the twelve receipts, eight of them from bound observations, and recomputing the bound ones:
    gates without a real integration stay blocked all the way into the report. */
module ReleaseCollection {
  import opened Text
  import opened ReleaseGates
  import opened ReleaseReport
  import Delivery

  /** The gates that run a fixed local command. */
  predicate Local(g: Gate) {
    g == Mypy || g == Pytest || g == RuffCheck || g == RuffFormat
  }

  /** The bound gates that can pass. */
  predicate CanPass(g: Gate) {
    g == Artifacts || g == Manifests || g == Schemas
  }

  /** The five gates that no integration backs. */
  predicate Unbacked(g: Gate) {
    !Local(g) && !CanPass(g)
  }

  datatype Subject =
    | ArtifactSet(run: RunBinding)
    | ManifestSet(run: RunBinding, verification: Verification)
    | SchemaSet(candidate: Candidate, staticEvidence: StaticEvidence)
    | Prerequisite(gate: Gate, blocker: Blocker)

  /** The typed result file of one bound observation. */
  datatype BoundResult = BoundResult(
    gate: Gate,
    candidate: Digest,
    run: Digest,
    plan: Gate,
    status: Status,
    startedAt: int,
    endedAt: int,
    toolVersion: string,
    interpreter: Digest,
    inputs: seq<InputBinding>,
    subject: Subject,
    blocker: Option<Blocker>)

  /** What the collection runs on: the observed evidence and its input files by role, the tool and its
      interpreter, the fixed blocker of each unbacked gate (told whether the run achieved maximum
      assurance), the summary of each passing gate, and the file name and encoding of results. */
  datatype Setting = Setting(
    texts: Texts,
    candidate: Candidate,
    run: RunBinding,
    verification: Verification,
    staticEvidence: StaticEvidence,
    inputs: Role -> InputBinding,
    toolVersion: string,
    interpreter: Digest,
    blockers: (Gate, bool) -> Blocker,
    summaries: Gate -> string,
    path: Gate -> string,
    encode: BoundResult -> Bytes)

  ghost predicate Sound(s: Setting) {
    && (forall g, b :: BlockerValid(s.texts, s.blockers(g, b)))
    && (forall g :: 1 <= |s.summaries(g)| <= 2_000 && s.texts.line(s.summaries(g)))
  }

  /** `_subject_for_gate` and `_blocker_for_gate`. */
  function SubjectFor(s: Setting, g: Gate): (Subject, Option<Blocker>) {
    if g == Artifacts then (ArtifactSet(s.run), None)
    else if g == Manifests then (ManifestSet(s.run, s.verification), None)
    else if g == Schemas then (SchemaSet(s.candidate, s.staticEvidence), None)
    else
      var blocker := s.blockers(g, g == MaximumAssuranceRun && MaximumRun(s.run));
      (Prerequisite(g, blocker), Some(blocker))
  }

  /** `_required_roles`, in order. */
  function RolesFor(g: Gate): seq<Role> {
    match g
    case Artifacts => [RunRole]
    case BenchmarkCertificate => [CandidateRole, StaticEvidenceRole]
    case Doctor => [CandidateRole]
    case Manifests => [RunRole, RunVerificationRole]
    case MaximumAssuranceRun => [RunRole, RunVerificationRole]
    case ModelBenchmark => [StaticEvidenceRole]
    case Replay => [RunRole]
    case Schemas => [StaticEvidenceRole]
    case _ => []
  }

  function InputsFor(s: Setting, g: Gate): seq<InputBinding> {
    seq(|RolesFor(g)|, i requires 0 <= i < |RolesFor(g)| => s.inputs(RolesFor(g)[i]))
  }

  function StatusFor(s: Setting, g: Gate): Status {
    if SubjectFor(s, g).1.Some? then Blocked else Passed
  }

  /** `_summary_for_gate`. */
  function SummaryFor(s: Setting, g: Gate): string {
    if SubjectFor(s, g).1.Some? then SubjectFor(s, g).1.value.summary else s.summaries(g)
  }

  // ---------------------------------------------------------------- collecting

  function ResultFor(s: Setting, g: Gate, start: int, end: int): BoundResult {
    BoundResult(g, s.candidate.sha256, s.run.sha256, g, StatusFor(s, g), start, end, s.toolVersion, s.interpreter,
                InputsFor(s, g), SubjectFor(s, g).0, SubjectFor(s, g).1)
  }

  function BindingFor(s: Setting, r: BoundResult): Binding {
    Delivery.Binding(s.path(r.gate), Delivery.FileHash(s.encode(r)), |s.encode(r)|)
  }

  function ExecutionFor(s: Setting, g: Gate, start: int, end: int): Execution {
    Execution(g, s.candidate.sha256, s.run.sha256, g, start, end, Some(s.toolVersion), Some(s.interpreter), true,
              if SubjectFor(s, g).1.Some? then None else Some(0), false, SummaryFor(s, g), SubjectFor(s, g).1,
              [BindingFor(s, ResultFor(s, g, start, end))], None)
  }

  /** The collector's receipt for a bound gate is refused only for a result file that is too large. Otherwise
      it has the status the subject gives it, and an unbacked gate is blocked. */
  lemma BoundReceipt(s: Setting, g: Gate, start: int, end: int)
    requires Sound(s) && !Local(g) && start <= end
    ensures var r := BuildReceipt(s.texts, ExecutionFor(s, g, start, end));
            && (r.Some? <==> |s.encode(ResultFor(s, g, start, end))| <= MAX_GATE_ARTIFACT_BYTES)
            && (r.Some? ==> r.value.status == StatusFor(s, g))
    ensures StatusFor(s, g) == Blocked <==> Unbacked(g)
  {
    hide ReceiptValid, Delivery.SortBindings, ResultFor;
    var x := ExecutionFor(s, g, start, end);
    assert BlockerValid(s.texts, s.blockers(g, g == MaximumAssuranceRun && MaximumRun(s.run)));
    assert 1 <= |s.summaries(g)| <= 2_000 && s.texts.line(s.summaries(g));
    assert x.artifacts[0].size == |s.encode(ResultFor(s, g, start, end))|;
    DerivedReceiptAccepted(s.texts, x);
  }

  /** The observed clock of each gate and the outcome of each local command. */
  datatype World = World(starts: Gate -> int, ends: Gate -> int, local: Gate -> Option<Receipt>)

  /** Local receipts are built by the same builder for this candidate and run. */
  ghost predicate LocalSound(s: Setting, w: World) {
    forall g :: Local(g) && w.local(g).Some? ==>
      && ReceiptValid(s.texts, w.local(g).value) && w.local(g).value.gate == g
      && w.local(g).value.candidate == s.candidate.sha256 && w.local(g).value.run == s.run.sha256
  }

  /** The receipt the collector appends for a gate. */
  ghost predicate Collected(s: Setting, w: World, g: Gate, r: Receipt) {
    if Local(g) then w.local(g) == Some(r)
    else w.starts(g) <= w.ends(g) && BuildReceipt(s.texts, ExecutionFor(s, g, w.starts(g), w.ends(g))) == Some(r)
  }

  /** What the collection of one gate needs: a local outcome, or a clock that runs on from the bound evidence
      and a result file within its bound. */
  predicate GateCollects(s: Setting, w: World, g: Gate) {
    if Local(g) then w.local(g).Some?
    else
      && s.candidate.observedAt <= w.starts(g) && s.run.observedAt <= w.starts(g) && w.starts(g) <= w.ends(g)
      && |s.encode(ResultFor(s, g, w.starts(g), w.ends(g)))| <= MAX_GATE_ARTIFACT_BYTES
  }

  /** A valid receipt for this candidate and run, as collected. */
  ghost predicate Gathered(s: Setting, w: World, g: Gate, r: Receipt) {
    && Collected(s, w, g, r) && ReceiptValid(s.texts, r) && r.gate == g
    && r.candidate == s.candidate.sha256 && r.run == s.run.sha256
  }

  lemma LocalStep(s: Setting, w: World, g: Gate)
    requires LocalSound(s, w) && Local(g)
    ensures GateCollects(s, w, g) <==> w.local(g).Some?
    ensures w.local(g).Some? ==> Gathered(s, w, g, w.local(g).value)
  {
    hide ReceiptValid;
  }

  lemma BoundStep(s: Setting, w: World, g: Gate)
    requires Sound(s) && !Local(g)
    ensures var start, end, r := w.starts(g), w.ends(g), BuildReceipt(s.texts, ExecutionFor(s, g, w.starts(g), w.ends(g)));
            && (GateCollects(s, w, g) <==>
                  && s.candidate.observedAt <= start && s.run.observedAt <= start && start <= end
                  && |s.encode(ResultFor(s, g, start, end))| <= MAX_GATE_ARTIFACT_BYTES)
            && (GateCollects(s, w, g) ==> r.Some? && Gathered(s, w, g, r.value))
  {
    hide BuildReceipt, ReceiptValid, ExecutionFor, ResultFor;
    if GateCollects(s, w, g) {
      BoundReceipt(s, g, w.starts(g), w.ends(g));
      BuiltFields(s, g, w.starts(g), w.ends(g));
    }
  }

  /** The receipt loop of `collect_release_report`, with the result files it writes. It succeeds exactly when
      every local command gave a receipt and every bound observation was made after its evidence and gave a
      result within its bound. */
  method CollectReceipts(s: Setting, w: World) returns (r: Result<seq<Receipt>>, files: map<Gate, BoundResult>)
    requires Sound(s) && LocalSound(s, w)
    ensures r.Ok? <==> forall g :: g in AllGates() ==> GateCollects(s, w, g)
    ensures r.Ok? ==>
              && GatesOf(r.value) == AllGates()
              && (forall i :: 0 <= i < 12 ==> Gathered(s, w, AllGates()[i], r.value[i]))
              && (forall g :: g in AllGates() && !Local(g) ==>
                    g in files && files[g] == ResultFor(s, g, w.starts(g), w.ends(g)))
  {
    hide BuildReceipt, ExecutionFor, ResultFor, AllGates, GateCollects, Gathered, Sound, LocalSound;
    var gates := AllGates();
    var receipts: seq<Receipt> := [];
    files := map[];
    var i := 0;
    while i < |gates|
      invariant i <= |gates| && |receipts| == i
      invariant forall j :: 0 <= j < i ==> GateCollects(s, w, gates[j]) && Gathered(s, w, gates[j], receipts[j])
      invariant forall j :: 0 <= j < i && !Local(gates[j]) ==> gates[j] in files
      invariant forall g :: g in files ==> files[g] == ResultFor(s, g, w.starts(g), w.ends(g))
    {
      var g := gates[i];
      assert g in AllGates();
      var receipt: Option<Receipt>;
      if Local(g) {
        LocalStep(s, w, g);
        receipt := w.local(g);
      } else {
        BoundStep(s, w, g);
        var start, end := w.starts(g), w.ends(g);
        if start < s.candidate.observedAt || start < s.run.observedAt || end < start {
          return Err, files;
        }
        var result := ResultFor(s, g, start, end);
        if |s.encode(result)| > MAX_GATE_ARTIFACT_BYTES {
          return Err, files;
        }
        files := files[g := result];
        receipt := BuildReceipt(s.texts, ExecutionFor(s, g, start, end));
      }
      if receipt.None? {
        return Err, files;
      }
      receipts := receipts + [receipt.value];
      i := i + 1;
    }
    GatheredGates(s, w, gates, receipts);
    TwelveGates();
    return Ok(receipts), files;
  }

  lemma GatheredGates(s: Setting, w: World, gates: seq<Gate>, receipts: seq<Receipt>)
    requires |receipts| == |gates|
    requires forall j :: 0 <= j < |gates| ==> Gathered(s, w, gates[j], receipts[j])
    ensures GatesOf(receipts) == gates
  {
    hide Collected, ReceiptValid;
  }

  lemma TwelveGates()
    ensures |AllGates()| == 12
  {
  }

  lemma BuiltFields(s: Setting, g: Gate, start: int, end: int)
    requires BuildReceipt(s.texts, ExecutionFor(s, g, start, end)).Some?
    ensures var r := BuildReceipt(s.texts, ExecutionFor(s, g, start, end)).value;
            && ReceiptValid(s.texts, r) && r.gate == g && r.candidate == s.candidate.sha256 && r.run == s.run.sha256
  {
    hide ReceiptValid, Delivery.SortBindings, ResultFor;
  }

  // ---------------------------------------------------------------- recomputing

  /** The comparisons made on the receipt and the result of one bound gate. */
  predicate Reconciled(s: Setting, g: Gate, receipt: Receipt, result: BoundResult) {
    && receipt.artifacts == [BindingFor(s, result)] && s.path(g) == s.path(result.gate)
    && result.gate == g
    && result.candidate == s.candidate.sha256 && result.run == s.run.sha256 && result.plan == g
    && result.status == StatusFor(s, g)
    && result.subject == SubjectFor(s, g).0 && result.blocker == SubjectFor(s, g).1
    && result.inputs == InputsFor(s, g)
    && result.toolVersion == s.toolVersion && result.interpreter == s.interpreter
    && receipt.candidate == s.candidate.sha256 && receipt.run == s.run.sha256 && receipt.plan == g
    && receipt.status == StatusFor(s, g)
    && receipt.startedAt == result.startedAt && receipt.endedAt == result.endedAt
    && receipt.toolVersion == Some(result.toolVersion) && receipt.toolExecutable == Some(result.interpreter)
    && receipt.genuine
    && receipt.exitCode == (if SubjectFor(s, g).1.Some? then None else Some(0))
    && !receipt.timedOut
    && receipt.blocker == SubjectFor(s, g).1
    && receipt.summary.text == SummaryFor(s, g)
    && (receipt.summary.total, receipt.summary.passed, receipt.summary.failed)
         == (if SubjectFor(s, g).1.Some? then (0, 0, 0) else (1, 1, 0))
  }

  function ReceiptFor(receipts: seq<Receipt>, g: Gate): (r: Option<Receipt>)
    ensures r.Some? ==> exists i :: 0 <= i < |receipts| && receipts[i] == r.value && receipts[i].gate == g
    ensures r.None? ==> forall i :: 0 <= i < |receipts| ==> receipts[i].gate != g
  {
    if receipts == [] then None
    else if receipts[|receipts| - 1].gate == g then Some(receipts[|receipts| - 1])
    else ReceiptFor(receipts[..|receipts| - 1], g)
  }

  ghost predicate BoundExact(s: Setting, receipts: seq<Receipt>, files: map<Gate, BoundResult>, g: Gate) {
    && ReceiptFor(receipts, g).Some? && g in files
    && Reconciled(s, g, ReceiptFor(receipts, g).value, files[g])
  }

  /** `validate_bound_release_gate_receipts` on unchanging files. */
  method ValidateBoundReceipts(s: Setting, receipts: seq<Receipt>, files: map<Gate, BoundResult>) returns (ok: bool)
    ensures ok <==> forall g :: g in AllGates() && !Local(g) ==> BoundExact(s, receipts, files, g)
  {
    hide Reconciled, ReceiptFor, AllGates;
    var gates := AllGates();
    var i := 0;
    while i < |gates|
      invariant i <= |gates|
      invariant forall j :: 0 <= j < i && !Local(gates[j]) ==> BoundExact(s, receipts, files, gates[j])
    {
      var g := gates[i];
      if !Local(g) {
        var receipt := ReceiptFor(receipts, g);
        if receipt.None? || g !in files || !Reconciled(s, g, receipt.value, files[g]) {
          return false;
        }
      }
      i := i + 1;
    }
    return true;
  }

  /** With files and interpreter unchanged, the collector's own bound receipts are accepted. */
  lemma CollectedReconciles(s: Setting, w: World, g: Gate, r: Receipt)
    requires !Local(g) && Collected(s, w, g, r)
    ensures Reconciled(s, g, r, ResultFor(s, g, w.starts(g), w.ends(g)))
  {
    hide ReceiptValid;
    var b := BindingFor(s, ResultFor(s, g, w.starts(g), w.ends(g)));
    assert Delivery.SortBindings([b]) == [b] by {
      assert [b][1..] == [];
      assert Delivery.SortBindings([]) == [];
    }
  }

  lemma CollectedAccepted(s: Setting, w: World, receipts: seq<Receipt>, files: map<Gate, BoundResult>, g: Gate)
    requires !Local(g) && g in AllGates() && GatesOf(receipts) == AllGates()
    requires forall i :: 0 <= i < |receipts| ==> Collected(s, w, AllGates()[i], receipts[i])
    requires forall h :: h in AllGates() && !Local(h) ==> h in files && files[h] == ResultFor(s, h, w.starts(h), w.ends(h))
    ensures BoundExact(s, receipts, files, g)
  {
    hide Collected, Reconciled, ResultFor, AllGates, ReceiptFor;
    var r := ReceiptFor(receipts, g);
    var i :| 0 <= i < |AllGates()| && AllGates()[i] == g;
    assert GatesOf(receipts)[i] == receipts[i].gate;
    assert r.Some?;
    var j :| 0 <= j < |receipts| && receipts[j] == r.value && receipts[j].gate == g;
    assert GatesOf(receipts)[j] == g;
    CollectedReconciles(s, w, g, r.value);
  }

  // ---------------------------------------------------------------- blockers are never promoted

  lemma {:induction false} CountOf(gates: seq<Observation>, s: Status, ids: set<Gate>)
    requires forall i, j :: 0 <= i < j < |gates| ==> gates[i].receipt.gate != gates[j].receipt.gate
    requires forall g :: g in ids ==> exists i :: 0 <= i < |gates| && gates[i].receipt.gate == g && gates[i].receipt.status == s
    ensures CountWith(gates, s) >= |ids|
    decreases |gates|
  {
    if gates == [] {
      assert ids == {};
    } else {
      var n := |gates| - 1;
      var last := gates[n].receipt;
      forall g | g in ids - {last.gate}
        ensures exists i :: 0 <= i < n && gates[..n][i].receipt.gate == g && gates[..n][i].receipt.status == s
      {
        var i :| 0 <= i < |gates| && gates[i].receipt.gate == g && gates[i].receipt.status == s;
        assert gates[..n][i] == gates[i];
      }
      CountOf(gates[..n], s, ids - {last.gate});
      if last.gate in ids {
        var i :| 0 <= i < |gates| && gates[i].receipt.gate == last.gate && gates[i].receipt.status == s;
        assert i == n;
        assert |ids| == |ids - {last.gate}| + 1;
      } else {
        assert ids - {last.gate} == ids;
      }
    }
  }

  function UnbackedGates(): set<Gate> {
    {BenchmarkCertificate, Doctor, MaximumAssuranceRun, ModelBenchmark, Replay}
  }

  lemma GateAt(g: Gate)
    ensures g in AllGates() && (g in UnbackedGates() <==> Unbacked(g)) && |UnbackedGates()| == 5
  {
    assert AllGates()[0] == Artifacts && AllGates()[1] == BenchmarkCertificate && AllGates()[2] == Doctor;
    assert AllGates()[3] == Manifests && AllGates()[4] == MaximumAssuranceRun && AllGates()[5] == ModelBenchmark;
    assert AllGates()[6] == Mypy && AllGates()[7] == Pytest && AllGates()[8] == Replay;
    assert AllGates()[9] == RuffCheck && AllGates()[10] == RuffFormat && AllGates()[11] == Schemas;
  }

  lemma GatesDistinct()
    ensures forall i, j :: 0 <= i < j < |AllGates()| ==> AllGates()[i] != AllGates()[j]
  {
  }

  ghost predicate HasBlocked(gates: seq<Observation>, g: Gate) {
    exists i :: 0 <= i < |gates| && gates[i].receipt.gate == g && gates[i].receipt.status == Blocked
  }

  lemma UnbackedObserved(s: Setting, receipts: seq<Receipt>, files: map<Gate, BoundResult>, g: Gate)
    requires Unbacked(g) && BoundExact(s, receipts, files, g)
    ensures HasBlocked(ProjectAll(receipts), g)
  {
    hide Reconciled, ReceiptFor;
    var receipt := ReceiptFor(receipts, g).value;
    UnbackedBlocked(s, g, receipt, files[g]);
    var i :| 0 <= i < |receipts| && receipts[i] == receipt && receipts[i].gate == g;
    assert ProjectAll(receipts)[i].receipt == receipt;
  }

  /** Five blocked gates in an accepted report, and what follows for its verdict. */
  lemma FiveBlocked(texts: Texts, r: Report)
    requires ReportValid(texts, r) && forall g :: g in UnbackedGates() ==> HasBlocked(r.gates, g)
    ensures forall g :: g in UnbackedGates() ==> g in r.blockedGates
    ensures r.status != Complete && r.passedGates <= 7 && !r.safeLocalComplete && !r.allPassed
  {
    hide AllGates, ObservationValid, LimitationsValid, Fresh, SortedSet, BlockerSummaries, AllRoles, InnerDigest,
      CountWith, GatesWith, VerificationBound, StaticBound, RolesOf, MaximumRun, PassesMaximum;
    var gates := r.gates;
    forall g | g in UnbackedGates() ensures g in r.blockedGates {
      var i :| 0 <= i < |gates| && gates[i].receipt.gate == g && gates[i].receipt.status == Blocked;
      WithMember(gates, Blocked, i);
    }
    GatesDistinct();
    forall i, j | 0 <= i < j < |gates| ensures gates[i].receipt.gate != gates[j].receipt.gate {
      assert ObservedGates(gates)[i] != ObservedGates(gates)[j];
    }
    GateAt(Doctor);
    CountOf(gates, Blocked, UnbackedGates());
    StatusesPartition(gates);
    AcceptedCounts(texts, r);
    var i :| 0 <= i < |gates| && gates[i].receipt.gate == BenchmarkCertificate && gates[i].receipt.status == Blocked;
    assert SafeLocal(gates[i].receipt.gate);
  }

  /** Whoever produced the bundle: once its bound receipts are accepted, every report that is accepted for
      it has the five unbacked gates blocked, is not complete, passes at most seven gates and does not
      claim that the safe local gates are complete. */
  lemma BlockersNeverPromoted(s: Setting, receipts: seq<Receipt>, files: map<Gate, BoundResult>, r: Report)
    requires forall g :: g in AllGates() && !Local(g) ==> BoundExact(s, receipts, files, g)
    requires ReportValid(s.texts, r) && r.gates == ProjectAll(receipts)
    ensures forall g :: Unbacked(g) ==> g in r.blockedGates
    ensures r.status != Complete && r.passedGates <= 7 && !r.safeLocalComplete && !r.allPassed
  {
    hide AllGates, UnbackedGates, ReportValid, BoundExact, ProjectAll, HasBlocked;
    forall g ensures g in UnbackedGates() <==> Unbacked(g) { GateAt(g); }
    forall g | g in UnbackedGates() ensures HasBlocked(r.gates, g) {
      GateAt(g);
      UnbackedObserved(s, receipts, files, g);
    }
    FiveBlocked(s.texts, r);
  }

  /** In particular, no report on receipts that the collector gathered is ever complete. */
  lemma CollectedNeverComplete(s: Setting, w: World, receipts: seq<Receipt>, files: map<Gate, BoundResult>, r: Report)
    requires GatesOf(receipts) == AllGates()
    requires forall i :: 0 <= i < |receipts| ==> Collected(s, w, AllGates()[i], receipts[i])
    requires forall h :: h in AllGates() && !Local(h) ==> h in files && files[h] == ResultFor(s, h, w.starts(h), w.ends(h))
    requires ReportValid(s.texts, r) && r.gates == ProjectAll(receipts)
    ensures forall g :: Unbacked(g) ==> g in r.blockedGates
    ensures r.status != Complete && r.passedGates <= 7 && !r.safeLocalComplete
  {
    hide AllGates, Collected, ResultFor, ReportValid, BoundExact, ProjectAll;
    forall g | g in AllGates() && !Local(g) ensures BoundExact(s, receipts, files, g) {
      CollectedAccepted(s, w, receipts, files, g);
    }
    BlockersNeverPromoted(s, receipts, files, r);
  }

  lemma UnbackedBlocked(s: Setting, g: Gate, receipt: Receipt, result: BoundResult)
    requires Unbacked(g) && Reconciled(s, g, receipt, result)
    ensures receipt.status == Blocked
  {
  }

  lemma {:induction false} WithMember(gates: seq<Observation>, s: Status, i: nat)
    requires i < |gates| && gates[i].receipt.status == s
    ensures gates[i].receipt.gate in GatesWith(gates, s)
    decreases |gates|
  {
    var n := |gates| - 1;
    if i < n {
      assert gates[..n][i] == gates[i];
      WithMember(gates[..n], s, i);
    }
  }

  // ---------------------------------------------------------------- the bound gates, one by one

  /** What the observer writes for each bound gate: its inputs, its subject, and a pass or a blocker. */
  lemma BoundGates(s: Setting, start: int, end: int)
    ensures var r := ResultFor(s, Artifacts, start, end);
            r.inputs == [s.inputs(RunRole)] && r.subject == ArtifactSet(s.run) && r.blocker == None && r.status == Passed
    ensures var r := ResultFor(s, Manifests, start, end);
            && r.inputs == [s.inputs(RunRole), s.inputs(RunVerificationRole)]
            && r.subject == ManifestSet(s.run, s.verification) && r.blocker == None && r.status == Passed
    ensures var r := ResultFor(s, Schemas, start, end);
            && r.inputs == [s.inputs(StaticEvidenceRole)]
            && r.subject == SchemaSet(s.candidate, s.staticEvidence) && r.blocker == None && r.status == Passed
    ensures ResultFor(s, BenchmarkCertificate, start, end).inputs == [s.inputs(CandidateRole), s.inputs(StaticEvidenceRole)]
    ensures ResultFor(s, Doctor, start, end).inputs == [s.inputs(CandidateRole)]
    ensures ResultFor(s, MaximumAssuranceRun, start, end).inputs == [s.inputs(RunRole), s.inputs(RunVerificationRole)]
    ensures ResultFor(s, ModelBenchmark, start, end).inputs == [s.inputs(StaticEvidenceRole)]
    ensures ResultFor(s, Replay, start, end).inputs == [s.inputs(RunRole)]
    ensures forall g :: g in {BenchmarkCertificate, Doctor, MaximumAssuranceRun, ModelBenchmark, Replay} ==>
              var r := ResultFor(s, g, start, end);
              var b := s.blockers(g, g == MaximumAssuranceRun
                                     && s.run.requestedMaximum && s.run.achievedMaximum && s.run.requestedSolidity
                                     && s.run.achievedSolidity && s.run.matched && !s.run.reduced && s.run.omissions == []);
              r.subject == Prerequisite(g, b) && r.blocker == Some(b) && r.status == Blocked
    ensures forall g ::
              var r := ResultFor(s, g, start, end);
              && r.gate == g == r.plan && r.candidate == s.candidate.sha256 && r.run == s.run.sha256
              && r.startedAt == start && r.endedAt == end && r.toolVersion == s.toolVersion && r.interpreter == s.interpreter
  {
    InputLists(s);
  }

  lemma InputLists(s: Setting)
    ensures InputsFor(s, Artifacts) == [s.inputs(RunRole)] == InputsFor(s, Replay)
    ensures InputsFor(s, Manifests) == [s.inputs(RunRole), s.inputs(RunVerificationRole)] == InputsFor(s, MaximumAssuranceRun)
    ensures InputsFor(s, Schemas) == [s.inputs(StaticEvidenceRole)] == InputsFor(s, ModelBenchmark)
    ensures InputsFor(s, BenchmarkCertificate) == [s.inputs(CandidateRole), s.inputs(StaticEvidenceRole)]
    ensures InputsFor(s, Doctor) == [s.inputs(CandidateRole)]
  {
  }

  /** The receipt of a bound gate as the observer builds it from a result: real, by this tool, exit code zero for a
      pass and none for a blocker, one check for a pass and none for a blocker, and the one result file. */
  ghost predicate ReceiptSays(s: Setting, g: Gate, receipt: Receipt, result: BoundResult) {
    && receipt.gate == g == receipt.plan && receipt.candidate == s.candidate.sha256 && receipt.run == s.run.sha256
    && receipt.startedAt == result.startedAt && receipt.endedAt == result.endedAt
    && receipt.toolVersion == Some(s.toolVersion) && receipt.toolExecutable == Some(s.interpreter)
    && receipt.genuine && !receipt.timedOut
    && receipt.artifacts == [Delivery.Binding(s.path(g), Delivery.FileHash(s.encode(result)), |s.encode(result)|)]
    && receipt.blocker == result.blocker
    && match result.blocker
       case None =>
         && receipt.status == Passed && receipt.exitCode == Some(0)
         && receipt.summary == Summary(PassedKind, s.summaries(g), 1, 1, 0)
       case Some(b) =>
         && receipt.status == Blocked && receipt.exitCode == None
         && receipt.summary == Summary(BlockedKind, b.summary, 0, 0, 0)
  }

  /** Recomputation accepts a valid receipt and its result exactly when the result is the one the observer writes
      for those times, and the receipt the one it builds from it: nothing in either is free. */
  lemma ReconciledIff(s: Setting, g: Gate, receipt: Receipt, result: BoundResult)
    requires ReceiptValid(s.texts, receipt) && receipt.gate == g
    ensures Reconciled(s, g, receipt, result) <==>
              result == ResultFor(s, g, result.startedAt, result.endedAt) && ReceiptSays(s, g, receipt, result)
  {
    hide SubjectFor, InputsFor, ArtifactsValid;
  }

  /** The collector's receipt says the same. */
  lemma CollectedSays(s: Setting, w: World, g: Gate, r: Receipt)
    requires !Local(g) && Collected(s, w, g, r)
    ensures ReceiptSays(s, g, r, ResultFor(s, g, w.starts(g), w.ends(g)))
  {
    hide Collected;
    CollectedReconciles(s, w, g, r);
    CollectedValid(s, w, g, r);
    ReconciledIff(s, g, r, ResultFor(s, g, w.starts(g), w.ends(g)));
  }

  lemma CollectedValid(s: Setting, w: World, g: Gate, r: Receipt)
    requires !Local(g) && Collected(s, w, g, r)
    ensures ReceiptValid(s.texts, r) && r.gate == g
  {
    hide ReceiptValid, Delivery.SortBindings;
  }

  /** Which gates run a local command, which can pass, and which have nothing behind them. */
  lemma GateKinds(g: Gate)
    ensures Local(g) <==> g in {Mypy, Pytest, RuffCheck, RuffFormat}
    ensures CanPass(g) <==> g in {Artifacts, Manifests, Schemas}
    ensures Unbacked(g) <==> g in {BenchmarkCertificate, Doctor, MaximumAssuranceRun, ModelBenchmark, Replay}
  {
  }
}
