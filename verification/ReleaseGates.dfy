/** Release-gate receipts: how the status and the counts of a gate are derived, the receipt and bundle
    validators, and the dictionary loop over all artifact bindings of a bundle. */
module ReleaseGates {
  import opened Text
  import Delivery

  type Binding = Delivery.Binding

  const MAX_GATE_ARTIFACT_BYTES := 100_000_000
  const MAX_BUNDLE_ARTIFACTS := 4_096
  const MAX_BUNDLE_ARTIFACT_BYTES := 1_073_741_824

  /** In the order of their names. */
  datatype Gate =
    | Artifacts | BenchmarkCertificate | Doctor | Manifests | MaximumAssuranceRun | ModelBenchmark
    | Mypy | Pytest | Replay | RuffCheck | RuffFormat | Schemas

  function AllGates(): seq<Gate> {
    [Artifacts, BenchmarkCertificate, Doctor, Manifests, MaximumAssuranceRun, ModelBenchmark,
     Mypy, Pytest, Replay, RuffCheck, RuffFormat, Schemas]
  }

  datatype Status = Passed | Blocked | Failed

  datatype ResultKind = PassedKind | FailedKind | TimedOutKind | BlockedKind

  datatype Blocker = Blocker(code: string, summary: string)

  datatype Summary = Summary(kind: ResultKind, text: string, total: nat, passed: nat, failed: nat)

  /** Digests of records that are not opened here. */
  type Digest = nat

  /** The bounded single-line text rule. */
  datatype Texts = Texts(line: string -> bool)

  /** What is known about one execution of a gate; `genuine` says that the execution evidence is real. */
  datatype Execution = Execution(
    gate: Gate,
    candidate: Digest,
    run: Digest,
    plan: Gate,
    startedAt: int,
    endedAt: int,
    toolVersion: Option<string>,
    toolExecutable: Option<Digest>,
    genuine: bool,
    exitCode: Option<int>,
    timedOut: bool,
    text: string,
    blocker: Option<Blocker>,
    artifacts: seq<Binding>,
    counts: Option<(nat, nat, nat)>)

  /** The receipt; `plan` names the gate whose canonical plan the digest is of. */
  datatype Receipt = Receipt(
    gate: Gate,
    candidate: Digest,
    run: Digest,
    plan: Gate,
    status: Status,
    startedAt: int,
    endedAt: int,
    toolVersion: Option<string>,
    toolExecutable: Option<Digest>,
    genuine: bool,
    exitCode: Option<int>,
    timedOut: bool,
    summary: Summary,
    blocker: Option<Blocker>,
    artifacts: seq<Binding>)

  // ---------------------------------------------------------------- validators

  /** `ReleaseGateResultSummary`. */
  predicate SummaryValid(texts: Texts, s: Summary) {
    && 1 <= |s.text| <= 2_000 && texts.line(s.text)
    && s.total <= 1_000_000 && s.passed <= 1_000_000 && s.failed <= 1_000_000
    && s.total == s.passed + s.failed
    && (s.kind == PassedKind ==> s.total != 0 && s.failed == 0)
    && (s.kind == FailedKind || s.kind == TimedOutKind ==> s.failed != 0)
    && (s.kind == BlockedKind ==> s.total == 0)
  }

  predicate BlockerValid(texts: Texts, b: Blocker) {
    1 <= |b.summary| <= 1_000 && texts.line(b.summary)
  }

  predicate ArtifactsValid(bs: seq<Binding>) {
    && |bs| <= 1_000
    && Delivery.Paths(bs) == SortedSet(Delivery.Paths(bs))
    && forall i :: 0 <= i < |bs| ==> bs[i].size <= MAX_GATE_ARTIFACT_BYTES
  }

  /** `ReleaseGateReceipt` with its validators. */
  predicate ReceiptValid(texts: Texts, r: Receipt) {
    && (r.exitCode.Some? ==> -255 <= r.exitCode.value <= 255)
    && SummaryValid(texts, r.summary)
    && (r.blocker.Some? ==> BlockerValid(texts, r.blocker.value))
    && ArtifactsValid(r.artifacts)
    && r.startedAt <= r.endedAt
    && r.plan == r.gate
    && r.summary.kind == KindOf(r.status, r.timedOut)
    && !(r.timedOut && r.exitCode == Some(0))
    && (r.status != Blocked ==> r.toolVersion.Some? && r.toolExecutable.Some?)
    && (match r.status
        case Passed => r.genuine && r.exitCode == Some(0) && !r.timedOut && r.blocker.None? && r.artifacts != []
        case Blocked => r.blocker.Some? && r.exitCode.None? && !r.timedOut
        case Failed => r.blocker.None? && (r.timedOut || (r.exitCode != None && r.exitCode != Some(0))))
  }

  // ---------------------------------------------------------------- derivation

  /** `_derive_status`; None when it raises. */
  function DeriveStatus(genuine: bool, exitCode: Option<int>, timedOut: bool, blocked: bool, hasArtifacts: bool)
    : Option<Status>
  {
    if timedOut || (exitCode != None && exitCode != Some(0)) then Some(Failed)
    else if blocked then Some(Blocked)
    else if exitCode != Some(0) || !genuine || !hasArtifacts then None
    else Some(Passed)
  }

  /** `_result_kind`. */
  function KindOf(status: Status, timedOut: bool): ResultKind {
    match status
    case Passed => PassedKind
    case Blocked => BlockedKind
    case Failed => if timedOut then TimedOutKind else FailedKind
  }

  /** `_normalize_check_counts`. */
  function CountsOf(kind: ResultKind, given: Option<(nat, nat, nat)>): (nat, nat, nat) {
    if given.Some? then given.value
    else match kind
         case PassedKind => (1, 1, 0)
         case FailedKind => (1, 0, 1)
         case TimedOutKind => (1, 0, 1)
         case BlockedKind => (0, 0, 0)
  }

  function StatusOf(x: Execution): Option<Status> {
    DeriveStatus(x.genuine, x.exitCode, x.timedOut, x.blocker.Some?, x.artifacts != [])
  }

  function ReceiptOf(x: Execution): Receipt
    requires StatusOf(x).Some?
  {
    var status := StatusOf(x).value;
    var kind := KindOf(status, x.timedOut);
    var (total, passed, failed) := CountsOf(kind, x.counts);
    Receipt(x.gate, x.candidate, x.run, x.plan, status, x.startedAt, x.endedAt, x.toolVersion, x.toolExecutable,
            x.genuine, x.exitCode, x.timedOut, Summary(kind, x.text, total, passed, failed), x.blocker,
            Delivery.SortBindings(x.artifacts))
  }

  /** `build_release_gate_receipt`; None when it raises. */
  function BuildReceipt(texts: Texts, x: Execution): (r: Option<Receipt>)
    ensures r.Some? ==> ReceiptValid(texts, r.value)
  {
    if StatusOf(x).Some? && ReceiptValid(texts, ReceiptOf(x)) then Some(ReceiptOf(x)) else None
  }

  /** The execution ended in a timeout or with a nonzero exit code. */
  predicate EndedBadly(x: Execution) {
    x.timedOut || (x.exitCode != None && x.exitCode != Some(0))
  }

  /** Counts that the caller gives add up and fit how the execution ended. */
  predicate CountsFit(x: Execution) {
    x.counts.Some? ==>
      var (total, passed, failed) := x.counts.value;
      && total <= 1_000_000 && total == passed + failed
      && (if EndedBadly(x) then failed != 0
          else if x.blocker.Some? then total == 0
          else total != 0 && failed == 0)
  }

  /** What a caller has to supply for the derived receipt to be accepted. */
  ghost predicate Supplies(texts: Texts, x: Execution)
    requires StatusOf(x).Some?
  {
    && x.startedAt <= x.endedAt && x.plan == x.gate
    && (x.exitCode.Some? ==> -255 <= x.exitCode.value <= 255)
    && !(x.timedOut && x.exitCode == Some(0))
    && (x.blocker.Some? ==> BlockerValid(texts, x.blocker.value) && x.exitCode.None? && !x.timedOut)
    && (x.blocker.None? ==> x.toolVersion.Some? && x.toolExecutable.Some?)
    && 1 <= |x.text| <= 2_000 && texts.line(x.text)
    && CountsFit(x)
    && |x.artifacts| <= 1_000 && NoDuplicates(Delivery.Paths(x.artifacts))
    && forall i :: 0 <= i < |x.artifacts| ==> x.artifacts[i].size <= MAX_GATE_ARTIFACT_BYTES
  }

  /** Sorted artifacts are valid exactly when no path comes twice and every size is within its bound. */
  lemma SortedArtifacts(bs: seq<Binding>)
    ensures ArtifactsValid(Delivery.SortBindings(bs)) <==>
              && |bs| <= 1_000 && NoDuplicates(Delivery.Paths(bs))
              && forall i :: 0 <= i < |bs| ==> bs[i].size <= MAX_GATE_ARTIFACT_BYTES
  {
    hide Delivery.SortBindings, Sort, SortedSet;
    var sorted := Delivery.SortBindings(bs);
    Delivery.SortKeepsCount(bs);
    Delivery.SortBindingsPaths(bs);
    SortAscends(Delivery.Paths(bs));
    IsSortedSet(Delivery.Paths(sorted));
    assert forall b :: b in bs <==> b in Elements(bs);
    assert forall b :: b in sorted <==> b in Elements(sorted);
    if forall i :: 0 <= i < |bs| ==> bs[i].size <= MAX_GATE_ARTIFACT_BYTES {
      forall i | 0 <= i < |sorted| ensures sorted[i].size <= MAX_GATE_ARTIFACT_BYTES {
        assert sorted[i] in sorted;
      }
    }
    if forall i :: 0 <= i < |sorted| ==> sorted[i].size <= MAX_GATE_ARTIFACT_BYTES {
      forall i | 0 <= i < |bs| ensures bs[i].size <= MAX_GATE_ARTIFACT_BYTES {
        assert bs[i] in bs;
      }
    }
  }

  /** The receipt built from an execution with a derivable status is accepted exactly when the caller
      supplied consistent facts: derivation itself never contradicts the validator, except that a
      blocker goes with neither an exit code nor a timeout. */
  lemma DerivedReceiptAccepted(texts: Texts, x: Execution)
    requires StatusOf(x).Some?
    ensures ReceiptValid(texts, ReceiptOf(x)) <==> Supplies(texts, x)
  {
    hide Delivery.SortBindings, SortedSet, NoDuplicates, Delivery.Paths, ArtifactsValid;
    SortedArtifacts(x.artifacts);
    Delivery.SortKeepsCount(x.artifacts);
  }

  // ---------------------------------------------------------------- receipts in three cases

  /** A status is derived exactly for executions that timed out, exited, or were blocked, except that exit code
      zero without a blocker also needs real execution and an artifact. */
  lemma StatusExact(x: Execution)
    ensures StatusOf(x) ==
            if x.timedOut then Some(Failed)
            else match x.exitCode
                 case None => if x.blocker.Some? then Some(Blocked) else None
                 case Some(code) =>
                   if code != 0 then Some(Failed)
                   else if x.blocker.Some? then Some(Blocked)
                   else if x.genuine && |x.artifacts| > 0 then Some(Passed) else None
  {
  }

  /** What every receipt holds, whatever its status. */
  ghost predicate Sane(texts: Texts, r: Receipt) {
    && r.startedAt <= r.endedAt && r.plan == r.gate
    && 1 <= |r.summary.text| <= 2_000 && texts.line(r.summary.text)
    && r.summary.total <= 1_000_000 && r.summary.total == r.summary.passed + r.summary.failed
    && |r.artifacts| <= 1_000 && Ascending(Delivery.Paths(r.artifacts))
    && (forall b :: b in r.artifacts ==> b.size <= 100_000_000)
  }

  /** Passed: real, exit code zero, some artifact, every check passed. */
  ghost predicate SaysPassed(r: Receipt) {
    && r.status == Passed && r.genuine && r.exitCode == Some(0) && !r.timedOut && r.blocker == None && r.artifacts != []
    && r.toolVersion != None && r.toolExecutable != None
    && r.summary.kind == PassedKind && r.summary.failed == 0 && r.summary.passed > 0
  }

  /** Failed: a timeout or a nonzero exit code, some check failed, no blocker. */
  ghost predicate SaysFailed(r: Receipt) {
    && r.status == Failed && r.blocker == None && r.toolVersion != None && r.toolExecutable != None
    && r.summary.failed > 0
    && (if r.timedOut
        then r.summary.kind == TimedOutKind && (r.exitCode.Some? ==> r.exitCode.value != 0 && -255 <= r.exitCode.value <= 255)
        else r.summary.kind == FailedKind && r.exitCode.Some? && r.exitCode.value != 0 && -255 <= r.exitCode.value <= 255)
  }

  /** Blocked: a blocker, no end of execution, no checks. */
  ghost predicate SaysBlocked(texts: Texts, r: Receipt) {
    && r.status == Blocked && r.exitCode == None && !r.timedOut
    && r.blocker.Some? && 1 <= |r.blocker.value.summary| <= 1_000 && texts.line(r.blocker.value.summary)
    && r.summary.kind == BlockedKind && r.summary.total == 0
  }

  /** A receipt is valid exactly when it is sane and speaks of one of the three endings. */
  lemma ReceiptMeans(texts: Texts, r: Receipt)
    ensures ReceiptValid(texts, r) <==> Sane(texts, r) && (SaysPassed(r) || SaysFailed(r) || SaysBlocked(texts, r))
  {
    hide SortedSet, Ascending, Delivery.Paths;
    IsSortedSet(Delivery.Paths(r.artifacts));
    if forall b :: b in r.artifacts ==> b.size <= 100_000_000 {
      forall i | 0 <= i < |r.artifacts| ensures r.artifacts[i].size <= 100_000_000 { assert r.artifacts[i] in r.artifacts; }
    }
  }

  /** What a built receipt says: what it was given, with the artifacts sorted, the checks as counted or one check
      for the gate, and the status of how the execution ended. */
  lemma BuiltSays(texts: Texts, x: Execution)
    requires BuildReceipt(texts, x).Some?
    ensures var r := BuildReceipt(texts, x).value;
            && (r.gate, r.candidate, r.run, r.plan) == (x.gate, x.candidate, x.run, x.plan)
            && (r.startedAt, r.endedAt, r.toolVersion, r.toolExecutable) == (x.startedAt, x.endedAt, x.toolVersion, x.toolExecutable)
            && (r.genuine, r.exitCode, r.timedOut, r.blocker) == (x.genuine, x.exitCode, x.timedOut, x.blocker)
            && r.summary.text == x.text
            && Elements(r.artifacts) == Elements(x.artifacts) && |r.artifacts| == |x.artifacts|
            && Ascending(Delivery.Paths(r.artifacts))
            && (x.counts.Some? ==> (r.summary.total, r.summary.passed, r.summary.failed) == x.counts.value)
            && (x.counts.None? ==>
                  (r.summary.total, r.summary.passed, r.summary.failed) ==
                  match r.status case Passed => (1, 1, 0) case Failed => (1, 0, 1) case Blocked => (0, 0, 0))
            && (r.status == Failed <==> x.timedOut || (x.exitCode.Some? && x.exitCode.value != 0))
            && (r.status == Blocked <==> x.blocker.Some?)
  {
    hide SortedSet, Ascending, Delivery.Paths, Delivery.SortBindings;
    IsSortedSet(Delivery.Paths(ReceiptOf(x).artifacts));
    Delivery.SortKeepsCount(x.artifacts);
    Delivery.SortBindingsPaths(x.artifacts);
  }

  /** A blocked execution that also reports how it ended. */
  function BlockedExecution(g: Gate, blocker: Blocker, exitCode: Option<int>, timedOut: bool): Execution {
    Execution(g, 0, 0, g, 0, 0, None, None, true, exitCode, timedOut, blocker.summary, Some(blocker), [], None)
  }

  /** A blocker alone makes a valid receipt. With an exit code or a timeout beside it a status is still
      derived, blocked for exit code zero and failed otherwise, and the receipt is refused. */
  lemma BlockedExitRefused(texts: Texts, g: Gate, blocker: Blocker, exitCode: int, timedOut: bool)
    requires BlockerValid(texts, blocker) && -255 <= exitCode <= 255
    ensures var x := BlockedExecution(g, blocker, None, false);
            StatusOf(x) == Some(Blocked) && ReceiptValid(texts, ReceiptOf(x))
    ensures var x := BlockedExecution(g, blocker, Some(exitCode), timedOut);
            && StatusOf(x) == Some(if exitCode == 0 && !timedOut then Blocked else Failed)
            && !ReceiptValid(texts, ReceiptOf(x))
    ensures var x := BlockedExecution(g, blocker, None, true);
            StatusOf(x) == Some(Failed) && !ReceiptValid(texts, ReceiptOf(x))
  {
    hide ReceiptValid, ReceiptOf;
    DerivedReceiptAccepted(texts, BlockedExecution(g, blocker, None, false));
    DerivedReceiptAccepted(texts, BlockedExecution(g, blocker, Some(exitCode), timedOut));
    DerivedReceiptAccepted(texts, BlockedExecution(g, blocker, None, true));
  }

  // ---------------------------------------------------------------- bundles

  datatype Bundle = Bundle(candidate: Digest, run: Digest, receipts: seq<Receipt>, receiptSet: Digest, sha256: Digest)

  function GatesOf(receipts: seq<Receipt>): seq<Gate> {
    seq(|receipts|, i requires 0 <= i < |receipts| => receipts[i].gate)
  }

  function AllBindings(receipts: seq<Receipt>): seq<Binding> {
    if receipts == [] then [] else AllBindings(receipts[..|receipts| - 1]) + receipts[|receipts| - 1].artifacts
  }

  predicate NoConflict(bs: seq<Binding>) {
    forall i, j :: 0 <= i < j < |bs| && bs[i].path == bs[j].path ==> bs[i] == bs[j]
  }

  /** The bytes of a set of bindings. */
  ghost function TotalBytes(bs: set<Binding>): nat {
    if bs == {} then 0 else var b :| b in bs; b.size + TotalBytes(bs - {b})
  }

  lemma {:induction false} BytesAdd(bs: set<Binding>, b: Binding)
    requires b !in bs
    ensures TotalBytes(bs + {b}) == TotalBytes(bs) + b.size
    decreases |bs|
  {
    var all := bs + {b};
    var c :| c in all && TotalBytes(all) == c.size + TotalBytes(all - {c});
    if c == b {
      assert all - {c} == bs;
    } else {
      assert all - {c} == (bs - {c}) + {b};
      BytesAdd(bs - {c}, b);
      BytesAdd(bs - {c}, c);
      assert (bs - {c}) + {c} == bs;
    }
  }

  /** The bundle's artifacts: consistent, and within the bounds counted once a path. */
  ghost predicate ArtifactsFit(bs: seq<Binding>) {
    NoConflict(bs) && |Elements(bs)| <= MAX_BUNDLE_ARTIFACTS && TotalBytes(Elements(bs)) <= MAX_BUNDLE_ARTIFACT_BYTES
  }

  /** The dictionary holds each binding seen so far under its path. */
  ghost predicate Recorded(seen: map<string, Binding>, bs: seq<Binding>) {
    && (forall k :: k in seen ==> seen[k].path == k && seen[k] in bs)
    && forall i :: 0 <= i < |bs| ==> bs[i].path in seen && seen[bs[i].path] == bs[i]
  }

  lemma RecordedValues(seen: map<string, Binding>, bs: seq<Binding>)
    requires Recorded(seen, bs)
    ensures NoConflict(bs) && seen.Values == Elements(bs) && |seen| == |Elements(bs)|
  {
    assert seen.Values == Elements(bs);
    var keys := seen.Keys;
    assert forall k :: k in keys ==> seen[k] in Elements(bs);
    OneToOne(seen);
  }

  lemma {:induction false} OneToOne(m: map<string, Binding>)
    requires forall k :: k in m ==> m[k].path == k
    ensures |m.Values| == |m|
    decreases |m|
  {
    if m != map[] {
      var k :| k in m;
      var rest := m - {k};
      OneToOne(rest);
      forall v ensures v in m.Values <==> v in rest.Values + {m[k]} {
        if v in m.Values {
          var x :| x in m && m[x] == v;
          if x != k { assert x in rest && rest[x] == v; }
        }
        if v in rest.Values {
          var x :| x in rest && rest[x] == v;
          assert x in m && m[x] == v;
        }
      }
      assert m.Values == rest.Values + {m[k]};
      assert m[k] !in rest.Values;
      assert |m| == |rest| + 1 by { assert m == rest[k := m[k]]; }
    }
  }

  /** The dictionary loop of the bundle validator over all artifact bindings. */
  method CheckBundleArtifacts(receipts: seq<Receipt>) returns (ok: bool)
    ensures ok <==> ArtifactsFit(AllBindings(receipts))
  {
    hide NoConflict, TotalBytes, Elements, Recorded;
    var bs := AllBindings(receipts);
    var seen: map<string, Binding> := map[];
    var total := 0;
    EmptyRecorded();
    var i := 0;
    while i < |bs|
      invariant i <= |bs|
      invariant Recorded(seen, bs[..i])
      invariant total == TotalBytes(Elements(bs[..i]))
    {
      var b := bs[i];
      if b.path in seen && seen[b.path] != b {
        ConflictFound(seen, bs, i);
        return false;
      }
      RecordNext(seen, bs, i);
      if b.path !in seen {
        total := total + b.size;
      }
      seen := seen[b.path := b];
      i := i + 1;
    }
    assert bs[..i] == bs;
    RecordedValues(seen, bs);
    return |seen| <= MAX_BUNDLE_ARTIFACTS && total <= MAX_BUNDLE_ARTIFACT_BYTES;
  }

  lemma EmptyRecorded()
    ensures Recorded(map[], []) && Elements<Binding>([]) == {} && TotalBytes({}) == 0
  {
  }

  lemma ConflictFound(seen: map<string, Binding>, bs: seq<Binding>, i: nat)
    requires i < |bs| && Recorded(seen, bs[..i]) && bs[i].path in seen && seen[bs[i].path] != bs[i]
    ensures !NoConflict(bs)
  {
    var c := seen[bs[i].path];
    var j :| 0 <= j < i && bs[..i][j] == c;
    assert bs[j].path == bs[i].path && bs[j] != bs[i];
  }

  lemma RecordNext(seen: map<string, Binding>, bs: seq<Binding>, i: nat)
    requires i < |bs| && Recorded(seen, bs[..i]) && (bs[i].path in seen ==> seen[bs[i].path] == bs[i])
    ensures Recorded(seen[bs[i].path := bs[i]], bs[..i + 1])
    ensures TotalBytes(Elements(bs[..i + 1])) ==
            TotalBytes(Elements(bs[..i])) + if bs[i].path in seen then 0 else bs[i].size
  {
    hide TotalBytes;
    assert bs[..i + 1] == bs[..i] + [bs[i]];
    assert Elements(bs[..i + 1]) == Elements(bs[..i]) + {bs[i]};
    if bs[i].path in seen {
      assert bs[i] in Elements(bs[..i]);
      assert Elements(bs[..i + 1]) == Elements(bs[..i]);
    } else {
      assert bs[i] !in Elements(bs[..i]);
      BytesAdd(Elements(bs[..i]), bs[i]);
    }
  }

  /** `ReleaseGateEvidenceBundle` with its validators. */
  ghost predicate BundleValid(texts: Texts, b: Bundle) {
    && GatesOf(b.receipts) == AllGates()
    && (forall i :: 0 <= i < |b.receipts| ==>
          && ReceiptValid(texts, b.receipts[i])
          && b.receipts[i].candidate == b.candidate && b.receipts[i].run == b.run)
    && ArtifactsFit(AllBindings(b.receipts))
  }

  /** A bundle is valid exactly when it has a valid receipt of each gate in the order of their names, all for its
      candidate and run, and its artifacts agree wherever two bind one path, 4,096 of them and one gibibyte at
      most, each counted once. */
  lemma BundleMeans(texts: Texts, b: Bundle)
    ensures BundleValid(texts, b) <==>
              && GatesOf(b.receipts) == [Artifacts, BenchmarkCertificate, Doctor, Manifests, MaximumAssuranceRun, ModelBenchmark,
                                         Mypy, Pytest, Replay, RuffCheck, RuffFormat, Schemas]
              && (forall r :: r in b.receipts ==> ReceiptValid(texts, r) && r.candidate == b.candidate && r.run == b.run)
              && (forall x, y :: Binds(b, x) && Binds(b, y) && x.path == y.path ==> x == y)
              && |Elements(AllBindings(b.receipts))| <= 4_096 && TotalBytes(Elements(AllBindings(b.receipts))) <= 1_073_741_824
  {
    hide ReceiptValid, TotalBytes;
    var bs := AllBindings(b.receipts);
    forall x ensures x in bs <==> Binds(b, x) { AllBindingsMembers(b.receipts, x); }
    if forall x, y :: Binds(b, x) && Binds(b, y) && x.path == y.path ==> x == y {
      forall i, j | 0 <= i < j < |bs| && bs[i].path == bs[j].path ensures bs[i] == bs[j] {
        assert bs[i] in bs && bs[j] in bs;
      }
    }
    if NoConflict(bs) {
      forall x, y | Binds(b, x) && Binds(b, y) && x.path == y.path ensures x == y {
        var i :| 0 <= i < |bs| && bs[i] == x;
        var j :| 0 <= j < |bs| && bs[j] == y;
      }
    }
    if forall r :: r in b.receipts ==> ReceiptValid(texts, r) && r.candidate == b.candidate && r.run == b.run {
      forall i | 0 <= i < |b.receipts|
        ensures ReceiptValid(texts, b.receipts[i]) && b.receipts[i].candidate == b.candidate && b.receipts[i].run == b.run
      {
        assert b.receipts[i] in b.receipts;
      }
    }
  }

  /** Some receipt binds the artifact. */
  ghost predicate Binds(b: Bundle, x: Binding) {
    exists r :: r in b.receipts && x in r.artifacts
  }

  lemma {:induction false} AllBindingsMembers(receipts: seq<Receipt>, x: Binding)
    ensures x in AllBindings(receipts) <==> exists r :: r in receipts && x in r.artifacts
    decreases |receipts|
  {
    if receipts != [] {
      var n := |receipts| - 1;
      AllBindingsMembers(receipts[..n], x);
      assert receipts == receipts[..n] + [receipts[n]];
    }
  }
}
