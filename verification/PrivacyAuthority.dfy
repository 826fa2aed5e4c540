/** The live registries of consent observations and privacy authorizations, and what every run of
    loading, issuing, validating, forgetting and outside interference guarantees. */
module PrivacyAuthority {
  import opened Text
  import opened Money
  import opened PrivacyPolicy
  import opened Identifiers

  /** The identity of an object. */
  type Ref = nat

  /** A consent observation handed to callers; its consent is an object of its own. */
  datatype ObservationObject = ObservationObject(file: Hash, fileSize: nat, consent: Ref)

  /** What the registry remembers; the content stands for its injective hash. */
  datatype ObservationBinding = ObservationBinding(file: Hash, fileSize: nat, consent: Ref, content: Consent)

  datatype AuthorizationBinding = AuthorizationBinding(evidence: Ref, sha256: Hash, content: Evidence)

  /** The objects callers hold: observations, consents, authorizations and evidence. Anyone may
      overwrite them. */
  datatype Objects = Objects(
    observations: map<Ref, ObservationObject>,
    consents: map<Ref, Consent>,
    authorizations: map<Ref, Ref>,
    evidences: map<Ref, Evidence>)

  datatype State = State(
    objects: Objects,
    liveObservations: map<Ref, ObservationBinding>,
    liveAuthorizations: map<Ref, AuthorizationBinding>,
    next: Ref)

  /** A consent file as it was read: `safe` stands for the checks on its path and metadata. */
  datatype ConsentFile = ConsentFile(safe: bool, sha256: Hash, size: nat, parsed: Option<Consent>)

  /** A pending provider request, presented with an authorization. */
  datatype Claim = Claim(
    evidence: Hash,
    source: Hash,
    classification: Classification,
    provenance: Option<Hash>,
    models: seq<string>,
    providers: seq<string>,
    budget: Decimal)

  datatype Step =
    | Load(file: ConsentFile)
    | Issue(observation: Option<Ref>, request: Request, provenance: Option<Provenance>, issueTime: int)
    | Validate(authorization: Ref, claim: Claim, now: int)
    | ForgetObservation(gone: Ref)
    | ForgetAuthorization(gone: Ref)
    | Interfere(objects: Objects)

  datatype Outcome = Refused | Loaded(observation: Ref) | Issued(authorization: Ref) | Validated(evidence: Evidence) | Done

  // ---------------------------------------------------------------- the operations as functions

  predicate Loads(rules: Rules, file: ConsentFile) {
    && file.safe && 1 <= file.size <= MAX_CONSENT_BYTES
    && file.parsed.Some? && ConsentValid(rules, file.parsed.value)
  }

  function ApplyLoad(rules: Rules, s: State, file: ConsentFile): (State, Outcome) {
    if !Loads(rules, file) then (s, Refused)
    else
      var content := file.parsed.value;
      var o := s.objects;
      (State(o.(consents := o.consents[s.next := content],
                observations := o.observations[s.next := ObservationObject(file.sha256, file.size, s.next)]),
             s.liveObservations[s.next := ObservationBinding(file.sha256, file.size, s.next, content)],
             s.liveAuthorizations, s.next + 1),
       Loaded(s.next))
  }

  /** `_require_trusted_observation`. */
  function TrustedObservation(rules: Rules, s: State, given: Option<Ref>): Option<Trusted> {
    if given.None? || given.value !in s.objects.observations || given.value !in s.liveObservations then None
    else
      var o, b := s.objects.observations[given.value], s.liveObservations[given.value];
      if !(1 <= o.fileSize <= MAX_CONSENT_BYTES) || o.file != b.file || o.fileSize != b.fileSize
         || o.consent != b.consent || o.consent !in s.objects.consents then None
      else
        var c := s.objects.consents[o.consent];
        if !ConsentValid(rules, c) || c != b.content then None else Some(Trusted(b.file, b.fileSize, c))
  }

  /** The resolver demands a trusted observation on every branch that uses a consent. */
  function ResolveObserved(rules: Rules, s: State, given: Option<Ref>, r: Request, p: Option<Provenance>, now: int)
    : Option<Evidence>
  {
    if given.None? then Resolve(rules, r, None, p, now)
    else
      var t := TrustedObservation(rules, s, given);
      if r.profile == StrictZdr || t.None? then None else Resolve(rules, r, t, p, now)
  }

  /** `resolve_trusted_privacy_authorization`. */
  function ApplyIssue(rules: Rules, s: State, given: Option<Ref>, r: Request, p: Option<Provenance>, now: int)
    : (State, Outcome)
  {
    var e := ResolveObserved(rules, s, given, r, p, now);
    if e.None? || TrustedObservation(rules, s, given).None? || e.value.body.profile == StrictZdr
       || e.value.body.requireZdr then (s, Refused)
    else
      var o := s.objects;
      (State(o.(evidences := o.evidences[s.next := e.value],
                authorizations := o.authorizations[s.next := s.next]),
             s.liveObservations,
             s.liveAuthorizations[s.next := AuthorizationBinding(s.next, e.value.sha256, e.value)],
             s.next + 1),
       Issued(s.next))
  }

  /** The claim is exactly what the evidence binds, and the consent is in force. */
  predicate ClaimMatches(rules: Rules, e: Evidence, claim: Claim, now: int) {
    var b := e.body;
    && e.sha256 == claim.evidence
    && b.source == claim.source && b.classification == claim.classification
    && (claim.provenance.Some? ==> b.provenance == claim.provenance.value)
    && CanonicalNames(ExactModel, claim.models) && CanonicalNames(SafeProvider, claim.providers)
    && b.models == claim.models && b.providers == claim.providers
    && BudgetAllowed(claim.budget)
    && Positive(rules.read(b.requestedBudget)) && SameValue(rules.read(b.requestedBudget), claim.budget)
    && b.consent.issuedAt.Some? && b.consent.expiresAt.Some?
    && b.consent.issuedAt.value <= now < b.consent.expiresAt.value
    && !b.requireZdr && b.profile != StrictZdr
  }

  /** `validate_trusted_privacy_authorization`. */
  function ApplyValidate(rules: Rules, s: State, a: Ref, claim: Claim, now: int): Outcome {
    if a !in s.liveAuthorizations || a !in s.objects.authorizations then Refused
    else
      var b, held := s.liveAuthorizations[a], s.objects.authorizations[a];
      if held != b.evidence || held !in s.objects.evidences then Refused
      else
        var e := s.objects.evidences[held];
        if !EvidenceValid(rules, e) || e.sha256 != b.sha256 || e != b.content || !ClaimMatches(rules, e, claim, now)
        then Refused else Validated(e)
  }

  function Apply(rules: Rules, s: State, step: Step): (State, Outcome) {
    match step
    case Load(file) => ApplyLoad(rules, s, file)
    case Issue(given, r, p, now) => ApplyIssue(rules, s, given, r, p, now)
    case Validate(a, claim, now) => (s, ApplyValidate(rules, s, a, claim, now))
    case ForgetObservation(gone) => (s.(liveObservations := s.liveObservations - {gone}), Done)
    case ForgetAuthorization(gone) => (s.(liveAuthorizations := s.liveAuthorizations - {gone}), Done)
    case Interfere(objects) => (s.(objects := objects), Done)
  }

  function Start(): State {
    State(Objects(map[], map[], map[], map[]), map[], map[], 0)
  }

  /** The state after all the steps. */
  function After(rules: Rules, steps: seq<Step>): State {
    if steps == [] then Start()
    else Apply(rules, After(rules, steps[..|steps| - 1]), steps[|steps| - 1]).0
  }

  function OutcomeAt(rules: Rules, steps: seq<Step>, j: nat): Outcome
    requires j < |steps|
  {
    Apply(rules, After(rules, steps[..j]), steps[j]).1
  }

  // ---------------------------------------------------------------- what the registries remember

  /** Step `i` loaded this consent from a file with this hash and size. */
  ghost predicate LoadedAt(rules: Rules, steps: seq<Step>, i: nat, t: Trusted) {
    && i < |steps| && steps[i].Load? && Loads(rules, steps[i].file)
    && t == Trusted(steps[i].file.sha256, steps[i].file.size, steps[i].file.parsed.value)
  }

  /** Step `k` issued this evidence under a consent loaded by an earlier step `i`. */
  ghost predicate IssuedAt(rules: Rules, steps: seq<Step>, i: nat, k: nat, t: Trusted, e: Evidence) {
    && i < k < |steps| && steps[k].Issue? && LoadedAt(rules, steps, i, t)
    && Resolve(rules, steps[k].request, Some(t), steps[k].provenance, steps[k].issueTime) == Some(e)
    && e.body.profile != StrictZdr && !e.body.requireZdr
  }

  function TrustedOf(b: ObservationBinding): Trusted {
    Trusted(b.file, b.fileSize, b.content)
  }

  ghost predicate FromLoad(rules: Rules, steps: seq<Step>, b: ObservationBinding) {
    exists i: nat :: LoadedAt(rules, steps, i, TrustedOf(b))
  }

  ghost predicate FromIssue(rules: Rules, steps: seq<Step>, b: AuthorizationBinding) {
    exists i: nat, k: nat, t :: IssuedAt(rules, steps, i, k, t, b.content)
  }

  /** Registered objects are old, and everything registered goes back to a step of the run. */
  ghost predicate Remembers(rules: Rules, steps: seq<Step>, s: State) {
    && (forall r :: r in s.liveObservations ==> r < s.next && FromLoad(rules, steps, s.liveObservations[r]))
    && (forall a :: a in s.liveAuthorizations ==> a < s.next && FromIssue(rules, steps, s.liveAuthorizations[a]))
  }

  lemma Longer(rules: Rules, steps: seq<Step>, step: Step)
    ensures forall b :: FromLoad(rules, steps, b) ==> FromLoad(rules, steps + [step], b)
    ensures forall b :: FromIssue(rules, steps, b) ==> FromIssue(rules, steps + [step], b)
  {
    hide Loads, Resolve;
    var more := steps + [step];
    assert forall i :: 0 <= i < |steps| ==> more[i] == steps[i];
    forall b | FromLoad(rules, steps, b) ensures FromLoad(rules, more, b) {
      var i: nat :| LoadedAt(rules, steps, i, TrustedOf(b));
      assert LoadedAt(rules, more, i, TrustedOf(b));
    }
    forall b | FromIssue(rules, steps, b) ensures FromIssue(rules, more, b) {
      var i: nat, k: nat, t :| IssuedAt(rules, steps, i, k, t, b.content);
      assert LoadedAt(rules, more, i, t);
      assert IssuedAt(rules, more, i, k, t, b.content);
    }
  }

  lemma LoadRemembers(rules: Rules, steps: seq<Step>, s: State, file: ConsentFile)
    requires Remembers(rules, steps, s)
    ensures Remembers(rules, steps + [Load(file)], ApplyLoad(rules, s, file).0)
  {
    hide ConsentValid, FromIssue;
    Longer(rules, steps, Load(file));
    var more := steps + [Load(file)];
    if Loads(rules, file) {
      var b := ObservationBinding(file.sha256, file.size, s.next, file.parsed.value);
      assert more[|steps|] == Load(file);
      assert LoadedAt(rules, more, |steps|, TrustedOf(b));
      assert FromLoad(rules, more, b);
    }
  }

  /** A trusted observation is one that was loaded. */
  lemma TrustedWasLoaded(rules: Rules, steps: seq<Step>, s: State, given: Option<Ref>)
    requires Remembers(rules, steps, s) && TrustedObservation(rules, s, given).Some?
    ensures exists i: nat :: LoadedAt(rules, steps, i, TrustedObservation(rules, s, given).value)
    ensures TrustedValid(rules, TrustedObservation(rules, s, given).value)
  {
    hide Loads, ConsentValid, FromIssue;
    var b := s.liveObservations[given.value];
    assert FromLoad(rules, steps, b);
    assert TrustedObservation(rules, s, given).value == TrustedOf(b);
  }

  lemma IssueRemembers(rules: Rules, steps: seq<Step>, s: State, given: Option<Ref>, r: Request, p: Option<Provenance>,
                       now: int)
    requires Remembers(rules, steps, s)
    ensures Remembers(rules, steps + [Issue(given, r, p, now)], ApplyIssue(rules, s, given, r, p, now).0)
  {
    hide Loads, Resolve, FromLoad, TrustedObservation, FromIssue, ConsentValid;
    var step := Issue(given, r, p, now);
    var more := steps + [step];
    Longer(rules, steps, step);
    var issued := ApplyIssue(rules, s, given, r, p, now);
    if issued.1.Issued? {
      var t := TrustedObservation(rules, s, given).value;
      var e := ResolveObserved(rules, s, given, r, p, now).value;
      TrustedWasLoaded(rules, steps, s, given);
      var i: nat :| LoadedAt(rules, steps, i, t);
      assert more[i] == steps[i] && more[|steps|] == step;
      assert given.Some? by { NoneIsNotTrusted(rules, s, given); }
      assert IssuedAt(rules, more, i, |steps|, t, e);
      IsFromIssue(rules, more, i, |steps|, t, AuthorizationBinding(s.next, e.sha256, e));
    }
  }

  lemma NoneIsNotTrusted(rules: Rules, s: State, given: Option<Ref>)
    ensures given.None? ==> TrustedObservation(rules, s, given).None?
  {
  }

  lemma IsFromIssue(rules: Rules, steps: seq<Step>, i: nat, k: nat, t: Trusted, b: AuthorizationBinding)
    requires IssuedAt(rules, steps, i, k, t, b.content)
    ensures FromIssue(rules, steps, b)
  {
  }

  lemma StepRemembers(rules: Rules, steps: seq<Step>, s: State, step: Step)
    requires Remembers(rules, steps, s)
    ensures Remembers(rules, steps + [step], Apply(rules, s, step).0)
  {
    hide ApplyLoad, ApplyIssue, ApplyValidate, FromLoad, FromIssue;
    match step
    case Load(file) => LoadRemembers(rules, steps, s, file);
    case Issue(given, r, p, now) => IssueRemembers(rules, steps, s, given, r, p, now);
    case Validate(_, _, _) => Longer(rules, steps, step);
    case ForgetObservation(_) => Longer(rules, steps, step);
    case ForgetAuthorization(_) => Longer(rules, steps, step);
    case Interfere(_) => Longer(rules, steps, step);
  }

  /** Every run: whatever the registries hold goes back to a step of the run. */
  lemma {:induction false} EveryRunRemembers(rules: Rules, steps: seq<Step>)
    ensures Remembers(rules, steps, After(rules, steps))
    decreases |steps|
  {
    if steps != [] {
      var n := |steps| - 1;
      EveryRunRemembers(rules, steps[..n]);
      StepRemembers(rules, steps[..n], After(rules, steps[..n]), steps[n]);
      assert steps == steps[..n] + [steps[n]];
    }
  }

  // ---------------------------------------------------------------- what a validation guarantees

  /** The claim is covered by the consent: same source, models and providers, a cost cap at or above the
      budget, and the time within the consent's bounds. */
  ghost predicate Covered(rules: Rules, c: ConsentBody, claim: Claim, now: int) {
    && c.source == claim.source && c.classification == claim.classification
    && c.models == claim.models && c.providers == claim.providers
    && c.issuedAt <= now < c.expiresAt
    && Positive(claim.budget) && Positive(rules.read(c.maximumCost)) && AtMost(claim.budget, rules.read(c.maximumCost))
    && NonZdr in c.classes && c.acknowledgesNoZdr
  }

  /** What the resolver copies out of a consent. */
  lemma ResolvedUnderConsent(rules: Rules, r: Request, t: Trusted, p: Option<Provenance>, now: int, e: Evidence)
    requires Resolve(rules, r, Some(t), p, now) == Some(e) && !e.body.requireZdr && e.body.profile != StrictZdr
    ensures EvidenceValid(rules, e)
    ensures var c := t.consent.body; var b := e.body;
            && b.source == c.source && b.classification == c.classification
            && b.models == c.models && b.providers == c.providers
            && b.consent == FieldsOf(t) && NonZdr in c.classes
            && Positive(r.budget) && b.requestedBudget == Render(r.budget)
            && Positive(rules.read(c.maximumCost)) && AtMost(r.budget, rules.read(c.maximumCost))
  {
    hide EvidenceValid, Render, CanonicalNames, AtMost, RequiredProhibited, ResolveProvenance;
  }

  lemma ClaimCovered(rules: Rules, r: Request, t: Trusted, p: Option<Provenance>, at: int, e: Evidence, claim: Claim, now: int)
    requires Sound(rules) && ConsentValid(rules, t.consent)
    requires Resolve(rules, r, Some(t), p, at) == Some(e) && !e.body.requireZdr && e.body.profile != StrictZdr
    requires ClaimMatches(rules, e, claim, now)
    ensures Covered(rules, t.consent.body, claim, now)
  {
    hide EvidenceValid, Render, CanonicalNames, AtMost, RequiredProhibited, Resolve, SameValue, Canonical, Plain, SortedSet,
      ClassesOf, BoundedCost, Endpoints;
    ResolvedUnderConsent(rules, r, t, p, at, e);
    var c := t.consent.body;
    RenderThenParse(rules.read, r.budget);
    var q := rules.read(e.body.requestedBudget);
    assert SameValue(q, r.budget);
    AtMostValues(q, r.budget, rules.read(c.maximumCost));
    AtMostValues(q, claim.budget, rules.read(c.maximumCost));
  }

  /** A validation returns what the registry remembers. */
  lemma ValidatedContent(rules: Rules, s: State, a: Ref, claim: Claim, now: int)
    requires ApplyValidate(rules, s, a, claim, now).Validated?
    ensures a in s.liveAuthorizations
    ensures s.liveAuthorizations[a].content == ApplyValidate(rules, s, a, claim, now).evidence
    ensures ClaimMatches(rules, s.liveAuthorizations[a].content, claim, now)
  {
    hide EvidenceValid, ClaimMatches;
  }

  lemma OutcomeOfValidate(rules: Rules, steps: seq<Step>, j: nat)
    requires j < |steps| && steps[j].Validate?
    ensures OutcomeAt(rules, steps, j) ==
            ApplyValidate(rules, After(rules, steps[..j]), steps[j].authorization, steps[j].claim, steps[j].now)
  {
    hide ApplyValidate, ApplyLoad, ApplyIssue, After;
  }

  /** Every run: a validation that succeeds returns, unaltered, the evidence that an earlier step issued,
      and the claim is covered by a consent that a still earlier step loaded. */
  lemma ValidationIsEarned(rules: Rules, steps: seq<Step>, j: nat)
    requires Sound(rules) && j < |steps| && steps[j].Validate? && OutcomeAt(rules, steps, j).Validated?
    ensures exists i: nat, k: nat, t ::
              && k < j && IssuedAt(rules, steps, i, k, t, OutcomeAt(rules, steps, j).evidence)
              && Covered(rules, t.consent.body, steps[j].claim, steps[j].now)
  {
    hide Resolve, ClaimMatches, Covered, ConsentValid, Sound, ApplyValidate, After, OutcomeAt;
    var before := steps[..j];
    var s := After(rules, before);
    var e := OutcomeAt(rules, steps, j).evidence;
    OutcomeOfValidate(rules, steps, j);
    ValidatedContent(rules, s, steps[j].authorization, steps[j].claim, steps[j].now);
    EveryRunRemembers(rules, before);
    assert FromIssue(rules, before, s.liveAuthorizations[steps[j].authorization]);
    var i: nat, k: nat, t :| IssuedAt(rules, before, i, k, t, e);
    assert before[i] == steps[i] && before[k] == steps[k];
    assert IssuedAt(rules, steps, i, k, t, e);
    LoadedValid(rules, steps, i, t);
    ClaimCovered(rules, steps[k].request, t, steps[k].provenance, steps[k].issueTime, e, steps[j].claim, steps[j].now);
  }

  lemma LoadedValid(rules: Rules, steps: seq<Step>, i: nat, t: Trusted)
    requires LoadedAt(rules, steps, i, t)
    ensures ConsentValid(rules, t.consent)
  {
    hide ConsentValid;
  }

  // ---------------------------------------------------------------- nothing comes back

  /** A registered authorization keeps its binding until it is forgotten, and no identity is used twice. */
  lemma StepKeepsBindings(rules: Rules, s: State, step: Step, a: Ref)
    requires a < s.next
    ensures a < Apply(rules, s, step).0.next
    ensures a in Apply(rules, s, step).0.liveAuthorizations ==>
              a in s.liveAuthorizations && Apply(rules, s, step).0.liveAuthorizations[a] == s.liveAuthorizations[a]
  {
    hide Loads, ResolveObserved, TrustedObservation, ApplyValidate;
  }

  lemma {:induction false} RunKeepsBindings(rules: Rules, steps: seq<Step>, i: nat, j: nat, a: Ref)
    requires i <= j <= |steps| && a < After(rules, steps[..i]).next
    ensures a < After(rules, steps[..j]).next
    ensures a in After(rules, steps[..j]).liveAuthorizations ==>
              && a in After(rules, steps[..i]).liveAuthorizations
              && After(rules, steps[..j]).liveAuthorizations[a] == After(rules, steps[..i]).liveAuthorizations[a]
    decreases j
  {
    hide Apply;
    if i < j {
      RunKeepsBindings(rules, steps, i, j - 1, a);
      assert steps[..j][..j - 1] == steps[..j - 1] && steps[..j][j - 1] == steps[j - 1];
      StepKeepsBindings(rules, After(rules, steps[..j - 1]), steps[j - 1], a);
    }
  }

  /** The expiry that a registered authorization carries has passed. */
  ghost predicate ExpiredBy(s: State, a: Ref, now: int) {
    && a in s.liveAuthorizations
    && s.liveAuthorizations[a].content.body.consent.expiresAt.Some?
    && s.liveAuthorizations[a].content.body.consent.expiresAt.value <= now
  }

  /** Every run: once an authorization has expired, no later validation of it succeeds, whatever happens to
      the objects in between. */
  lemma ExpiredStaysExpired(rules: Rules, steps: seq<Step>, i: nat, j: nat, a: Ref, now: int)
    requires i <= j < |steps| && ExpiredBy(After(rules, steps[..i]), a, now)
    requires steps[j].Validate? && steps[j].authorization == a && now <= steps[j].now
    ensures OutcomeAt(rules, steps, j) == Refused
  {
    hide After, OutcomeAt, ApplyValidate;
    EveryRunRemembers(rules, steps[..i]);
    RunKeepsBindings(rules, steps, i, j, a);
    OutcomeOfValidate(rules, steps, j);
    ExpiredRefused(rules, After(rules, steps[..j]), a, steps[j].claim, steps[j].now);
  }

  lemma ExpiredRefused(rules: Rules, s: State, a: Ref, claim: Claim, now: int)
    requires a in s.liveAuthorizations ==> ExpiredBy(s, a, now)
    ensures ApplyValidate(rules, s, a, claim, now) == Refused
  {
    hide EvidenceValid, SameValue, CanonicalNames, BudgetAllowed;
  }

  /** Every run: an authorization that was forgotten is never accepted again. */
  lemma ForgottenStaysForgotten(rules: Rules, steps: seq<Step>, i: nat, j: nat, a: Ref)
    requires i <= j < |steps|
    requires a < After(rules, steps[..i]).next && a !in After(rules, steps[..i]).liveAuthorizations
    requires steps[j].Validate? && steps[j].authorization == a
    ensures OutcomeAt(rules, steps, j) == Refused
  {
    hide After, OutcomeAt, ApplyValidate;
    RunKeepsBindings(rules, steps, i, j, a);
    OutcomeOfValidate(rules, steps, j);
    ExpiredRefused(rules, After(rules, steps[..j]), a, steps[j].claim, steps[j].now);
  }

  // ---------------------------------------------------------------- exactly when each step succeeds

  /** Step `i` loaded observation `o`, and nothing dropped it before step `j`. */
  ghost predicate HoldsObservation(rules: Rules, steps: seq<Step>, i: nat, j: nat, o: Ref) {
    && i < j <= |steps| && steps[i].Load? && OutcomeAt(rules, steps, i) == Loaded(o)
    && forall m :: i < m < j ==> steps[m] != ForgetObservation(o)
  }

  /** Step `k` issued authorization `a`, and nothing dropped it before step `j`. */
  ghost predicate HoldsAuthorization(rules: Rules, steps: seq<Step>, k: nat, j: nat, a: Ref) {
    && k < j <= |steps| && steps[k].Issue? && OutcomeAt(rules, steps, k) == Issued(a)
    && forall m :: k < m < j ==> steps[m] != ForgetAuthorization(a)
  }

  lemma AfterNext(rules: Rules, steps: seq<Step>, j: nat)
    requires j < |steps|
    ensures After(rules, steps[..j + 1]) == Apply(rules, After(rules, steps[..j]), steps[j]).0
    ensures OutcomeAt(rules, steps, j) == Apply(rules, After(rules, steps[..j]), steps[j]).1
  {
    hide Apply;
    assert steps[..j + 1][..j] == steps[..j] && steps[..j + 1][j] == steps[j];
  }

  function BindingOf(file: ConsentFile, o: Ref): ObservationBinding
    requires file.parsed.Some?
  {
    ObservationBinding(file.sha256, file.size, o, file.parsed.value)
  }

  lemma LoadStep(rules: Rules, s: State, step: Step, o: Ref)
    ensures var t := Apply(rules, s, step).0;
            && t.next >= s.next
            && (step.Load? && Apply(rules, s, step).1 == Loaded(o) ==>
                  o == s.next < t.next && Loads(rules, step.file)
                  && o in t.liveObservations && t.liveObservations[o] == BindingOf(step.file, o))
            && (!(step.Load? && Apply(rules, s, step).1 == Loaded(o)) ==>
                  && (o in t.liveObservations <==> o in s.liveObservations && step != ForgetObservation(o))
                  && (o in t.liveObservations ==> t.liveObservations[o] == s.liveObservations[o]))
  {
    hide ConsentValid, ResolveObserved, TrustedObservation, ApplyValidate;
  }

  /** An observation is live exactly from the step that loaded it until it is dropped. */
  lemma {:induction false} LiveObservation(rules: Rules, steps: seq<Step>, j: nat, o: Ref)
    requires j <= |steps|
    ensures o in After(rules, steps[..j]).liveObservations <==> exists i: nat :: HoldsObservation(rules, steps, i, j, o)
    ensures forall i: nat :: HoldsObservation(rules, steps, i, j, o) ==>
              && o < After(rules, steps[..j]).next && Loads(rules, steps[i].file)
              && o in After(rules, steps[..j]).liveObservations
              && After(rules, steps[..j]).liveObservations[o] == BindingOf(steps[i].file, o)
    ensures forall i: nat :: i < j && steps[i].Load? && OutcomeAt(rules, steps, i) == Loaded(o) ==>
              o < After(rules, steps[..j]).next
    decreases j
  {
    hide Apply, Loads, OutcomeAt, After;
    if j == 0 {
      assert steps[..0] == [];
      StartIsEmpty(rules);
    } else {
      var n := j - 1;
      LiveObservation(rules, steps, n, o);
      AfterNext(rules, steps, n);
      var s := After(rules, steps[..n]);
      LoadStep(rules, s, steps[n], o);
      if steps[n].Load? && OutcomeAt(rules, steps, n) == Loaded(o) {
        assert HoldsObservation(rules, steps, n, j, o);
        forall i: nat | HoldsObservation(rules, steps, i, j, o) ensures i == n {
        }
      } else {
        forall i: nat | HoldsObservation(rules, steps, i, j, o)
          ensures HoldsObservation(rules, steps, i, n, o) && steps[n] != ForgetObservation(o)
        {
        }
        if exists i: nat :: HoldsObservation(rules, steps, i, n, o) && steps[n] != ForgetObservation(o) {
          var i: nat :| HoldsObservation(rules, steps, i, n, o) && steps[n] != ForgetObservation(o);
          assert HoldsObservation(rules, steps, i, j, o);
        }
      }
    }
  }

  lemma StartIsEmpty(rules: Rules)
    ensures After(rules, []).liveObservations == map[] && After(rules, []).liveAuthorizations == map[]
  {
  }

  /** Every run: loading succeeds exactly for a safely read file of 1 to 262,144 bytes that is a valid consent. */
  lemma LoadExact(rules: Rules, steps: seq<Step>, i: nat)
    requires i < |steps| && steps[i].Load?
    ensures OutcomeAt(rules, steps, i) ==
            var file := steps[i].file;
            if file.safe && 1 <= file.size <= 262_144 && file.parsed.Some? && ConsentValid(rules, file.parsed.value)
            then Loaded(After(rules, steps[..i]).next) else Refused
  {
    hide ConsentValid, After;
  }

  /** The objects of an observation are as it was loaded. */
  ghost predicate ObservationIntact(s: State, o: Ref, file: ConsentFile) {
    && o in s.objects.observations && s.objects.observations[o] == ObservationObject(file.sha256, file.size, o)
    && file.parsed.Some? && o in s.objects.consents && s.objects.consents[o] == file.parsed.value
  }

  lemma TrustedExact(rules: Rules, s: State, o: Ref, file: ConsentFile)
    requires o in s.liveObservations && Loads(rules, file) && s.liveObservations[o] == BindingOf(file, o)
    ensures TrustedObservation(rules, s, Some(o)) ==
            if ObservationIntact(s, o, file) then Some(Trusted(file.sha256, file.size, file.parsed.value)) else None
  {
    hide ConsentValid;
  }

  /** The consent permits the request over a route without ZDR, and evidence of it can be written down. */
  ghost predicate Authorizable(c: ConsentBody, r: Request, given: Option<Provenance>, now: int) {
    && Permits(c, r, now) && c.acknowledgesNoZdr && !r.requireZdr
    && |Render(r.budget)| <= 32 && Provenanced(given, r)
  }

  lemma AuthorizableResolves(rules: Rules, t: Trusted, r: Request, given: Option<Provenance>, now: int)
    requires Sound(rules) && TrustedValid(rules, t)
    ensures r.profile != StrictZdr && !r.requireZdr && Resolve(rules, r, Some(t), given, now).Some? <==>
              Authorizable(t.consent.body, r, given, now)
  {
    hide Resolve, ConsentValid, Sound, Value, Plain, Render, Disclosed, Discloses, ListOf, ExactModel, SafeProvider;
    ResolveExact(rules, r, Some(t), given, now);
    ConsentMeans(rules, t.consent);
  }

  lemma IssueExactAt(rules: Rules, s: State, o: Ref, r: Request, given: Option<Provenance>, now: int)
    requires Sound(rules)
    requires TrustedObservation(rules, s, Some(o)).Some? ==> TrustedValid(rules, TrustedObservation(rules, s, Some(o)).value)
    ensures var t := TrustedObservation(rules, s, Some(o));
            && (ApplyIssue(rules, s, Some(o), r, given, now).1.Issued? <==>
                  t.Some? && Authorizable(t.value.consent.body, r, given, now))
            && (ApplyIssue(rules, s, Some(o), r, given, now).1.Issued? ==>
                  && ApplyIssue(rules, s, Some(o), r, given, now).1 == Issued(s.next)
                  && Resolve(rules, r, t, given, now).Some?)
  {
    hide Resolve, ConsentValid, Sound, Render, TrustedObservation, Authorizable, TrustedValid, EvidenceValid;
    var t := TrustedObservation(rules, s, Some(o));
    if t.Some? {
      AuthorizableResolves(rules, t.value, r, given, now);
      if Resolve(rules, r, t, given, now).Some? { ResolvedSays(rules, r, t, given, now); }
    }
  }

  /** Every run: an authorization is issued exactly when the observation presented was loaded by an earlier step
      and not dropped since, its objects are as they were loaded, and its consent permits the request. */
  lemma IssueExact(rules: Rules, steps: seq<Step>, k: nat)
    requires Sound(rules) && k < |steps| && steps[k].Issue?
    ensures OutcomeAt(rules, steps, k).Issued? <==>
              exists i: nat, o ::
                && steps[k].observation == Some(o) && HoldsObservation(rules, steps, i, k, o)
                && ObservationIntact(After(rules, steps[..k]), o, steps[i].file)
                && Authorizable(steps[i].file.parsed.value.body, steps[k].request, steps[k].provenance, steps[k].issueTime)
  {
    hide After, ConsentValid, Authorizable, ApplyIssue, TrustedObservation, Sound, BindingOf, Loads, OutcomeAt,
      TrustedValid, ObservationIntact;
    var s := After(rules, steps[..k]);
    OutcomeOfIssue(rules, steps, k);
    if steps[k].observation.Some? {
      var o := steps[k].observation.value;
      LiveObservation(rules, steps, k, o);
      if o in s.liveObservations {
        var i: nat :| HoldsObservation(rules, steps, i, k, o);
        var file := steps[i].file;
        TrustedExact(rules, s, o, file);
        LoadedIsValid(rules, s, o, file);
        IssueExactAt(rules, s, o, steps[k].request, steps[k].provenance, steps[k].issueTime);
        forall i': nat | HoldsObservation(rules, steps, i', k, o) ensures steps[i'].file == file {
          SameLoad(rules, steps, i, i', k, o);
        }
        IntactParsed(s, o, file);
      } else {
        NotLive(rules, s, o);
        IssueExactAt(rules, s, o, steps[k].request, steps[k].provenance, steps[k].issueTime);
      }
    } else {
      NoObservation(rules, s, steps[k].request, steps[k].provenance, steps[k].issueTime);
    }
  }

  lemma IntactParsed(s: State, o: Ref, file: ConsentFile)
    ensures ObservationIntact(s, o, file) ==> file.parsed.Some?
  {
  }

  lemma NotLive(rules: Rules, s: State, o: Ref)
    requires o !in s.liveObservations
    ensures TrustedObservation(rules, s, Some(o)).None?
  {
  }

  lemma NoObservation(rules: Rules, s: State, r: Request, p: Option<Provenance>, now: int)
    ensures !ApplyIssue(rules, s, None, r, p, now).1.Issued?
  {
    hide Resolve;
  }

  lemma LoadedIsValid(rules: Rules, s: State, o: Ref, file: ConsentFile)
    requires Loads(rules, file)
    requires TrustedObservation(rules, s, Some(o)) ==
             if ObservationIntact(s, o, file) then Some(Trusted(file.sha256, file.size, file.parsed.value)) else None
    ensures TrustedObservation(rules, s, Some(o)).Some? ==> TrustedValid(rules, TrustedObservation(rules, s, Some(o)).value)
  {
    hide ConsentValid, TrustedObservation;
  }

  lemma OutcomeOfIssue(rules: Rules, steps: seq<Step>, k: nat)
    requires k < |steps| && steps[k].Issue?
    ensures OutcomeAt(rules, steps, k) ==
            ApplyIssue(rules, After(rules, steps[..k]), steps[k].observation, steps[k].request, steps[k].provenance,
                       steps[k].issueTime).1
  {
    hide ApplyValidate, ApplyLoad, ApplyIssue, After;
  }

  /** No identity is handed out twice. */
  lemma SameLoad(rules: Rules, steps: seq<Step>, i: nat, i': nat, j: nat, o: Ref)
    requires HoldsObservation(rules, steps, i, j, o) && HoldsObservation(rules, steps, i', j, o)
    ensures i == i'
  {
    hide After, Apply, OutcomeAt;
    if i != i' {
      var hi := if i < i' then i' else i;
      LiveObservation(rules, steps, hi, o);
      AfterNext(rules, steps, hi);
      LoadStep(rules, After(rules, steps[..hi]), steps[hi], o);
    }
  }

  lemma IssueStep(rules: Rules, s: State, step: Step, a: Ref)
    ensures var t := Apply(rules, s, step).0;
            && t.next >= s.next
            && (step.Issue? && Apply(rules, s, step).1 == Issued(a) ==>
                  && a == s.next < t.next && a in t.liveAuthorizations && t.liveAuthorizations[a].evidence == a
                  && ResolveObserved(rules, s, step.observation, step.request, step.provenance, step.issueTime)
                     == Some(t.liveAuthorizations[a].content))
            && (!(step.Issue? && Apply(rules, s, step).1 == Issued(a)) ==>
                  && (a in t.liveAuthorizations <==> a in s.liveAuthorizations && step != ForgetAuthorization(a))
                  && (a in t.liveAuthorizations ==> t.liveAuthorizations[a] == s.liveAuthorizations[a]))
  {
    hide Loads, ResolveObserved, TrustedObservation, ApplyValidate;
  }

  /** What the authorization issued by step `k` remembers. */
  ghost predicate IssuedWith(rules: Rules, steps: seq<Step>, k: nat, b: AuthorizationBinding, a: Ref)
    requires k < |steps| && steps[k].Issue?
  {
    var step := steps[k];
    && b.evidence == a
    && ResolveObserved(rules, After(rules, steps[..k]), step.observation, step.request, step.provenance, step.issueTime)
       == Some(b.content)
  }

  /** An authorization is live exactly from the step that issued it until it is dropped. */
  lemma {:induction false} LiveAuthorization(rules: Rules, steps: seq<Step>, j: nat, a: Ref)
    requires j <= |steps|
    ensures a in After(rules, steps[..j]).liveAuthorizations <==> exists k: nat :: HoldsAuthorization(rules, steps, k, j, a)
    ensures forall k: nat :: HoldsAuthorization(rules, steps, k, j, a) ==>
              && a in After(rules, steps[..j]).liveAuthorizations
              && IssuedWith(rules, steps, k, After(rules, steps[..j]).liveAuthorizations[a], a)
    ensures forall k: nat :: k < j && steps[k].Issue? && OutcomeAt(rules, steps, k) == Issued(a) ==>
              a < After(rules, steps[..j]).next
    decreases j
  {
    hide Apply, OutcomeAt, After, ResolveObserved;
    if j == 0 {
      assert steps[..0] == [];
      StartIsEmpty(rules);
    } else {
      var n := j - 1;
      LiveAuthorization(rules, steps, n, a);
      AfterNext(rules, steps, n);
      var s := After(rules, steps[..n]);
      IssueStep(rules, s, steps[n], a);
      if steps[n].Issue? && OutcomeAt(rules, steps, n) == Issued(a) {
        assert HoldsAuthorization(rules, steps, n, j, a);
        forall k: nat | HoldsAuthorization(rules, steps, k, j, a) ensures k == n {
        }
      } else {
        forall k: nat | HoldsAuthorization(rules, steps, k, j, a)
          ensures HoldsAuthorization(rules, steps, k, n, a) && steps[n] != ForgetAuthorization(a)
        {
        }
        if exists k: nat :: HoldsAuthorization(rules, steps, k, n, a) && steps[n] != ForgetAuthorization(a) {
          var k: nat :| HoldsAuthorization(rules, steps, k, n, a) && steps[n] != ForgetAuthorization(a);
          assert HoldsAuthorization(rules, steps, k, j, a);
        }
      }
    }
  }

  /** The objects of an authorization are as it was issued. */
  ghost predicate AuthorizationIntact(s: State, a: Ref, e: Evidence) {
    && a in s.objects.authorizations && s.objects.authorizations[a] == a
    && a in s.objects.evidences && s.objects.evidences[a] == e
  }

  /** The claim repeats the request, names this evidence, and if it names a provenance, the one of this evidence. */
  ghost predicate Repeats(claim: Claim, r: Request, e: Evidence) {
    && claim.evidence == e.sha256
    && claim.source == r.source && claim.classification == r.classification
    && claim.models == r.models && claim.providers == r.providers
    && (claim.provenance == None || claim.provenance == Some(e.body.provenance))
    && Positive(claim.budget) && Positive(r.budget) && Value(claim.budget) == Value(r.budget)
  }

  lemma ClaimExact(rules: Rules, e: Evidence, r: Request, t: Trusted, given: Option<Provenance>, at: int, claim: Claim, now: int)
    requires Sound(rules) && TrustedValid(rules, t) && Resolve(rules, r, Some(t), given, at) == Some(e)
    requires r.profile != StrictZdr && !r.requireZdr
    ensures ClaimMatches(rules, e, claim, now) <==>
              Repeats(claim, r, e) && t.consent.body.issuedAt <= now < t.consent.body.expiresAt
  {
    hide Resolve, Sound, TrustedValid, EvidenceValid, SameValue, Value, Plain, AtMost, CanonicalNames, ListOf, RouteFits, Provenanced,
      KeepsProvenance, ExactModel, SafeProvider, CostText, Render;
    ResolveExact(rules, r, Some(t), given, at);
    ResolvedSays(rules, r, Some(t), given, at);
    CanonicalIsList(ExactModel, r.models, 64);
    CanonicalIsList(SafeProvider, r.providers, 128);
    var text := e.body.requestedBudget;
    BoundedIsCostText(rules, text);
    CostIsPositive(text);
    if Positive(claim.budget) {
      SameValueIsEquality(rules.read(text), claim.budget);
      AtMostIsOrder(claim.budget, MaximumCost());
      TwoHundredFifty();
    }
  }

  lemma ValidateExactAt(rules: Rules, s: State, a: Ref, e: Evidence, claim: Claim, now: int)
    requires a in s.liveAuthorizations && s.liveAuthorizations[a].evidence == a && s.liveAuthorizations[a].content == e
    requires s.liveAuthorizations[a].sha256 == e.sha256 && EvidenceValid(rules, e)
    ensures ApplyValidate(rules, s, a, claim, now) ==
            if AuthorizationIntact(s, a, e) && ClaimMatches(rules, e, claim, now) then Validated(e) else Refused
  {
    hide EvidenceValid, ClaimMatches;
  }

  /** Every live binding carries the hash of its evidence. */
  lemma {:induction false} HashesKept(rules: Rules, steps: seq<Step>, a: Ref)
    ensures a in After(rules, steps).liveAuthorizations ==>
              After(rules, steps).liveAuthorizations[a].sha256 == After(rules, steps).liveAuthorizations[a].content.sha256
    decreases |steps|
  {
    hide Loads, ResolveObserved, TrustedObservation, ApplyValidate;
    if steps != [] { HashesKept(rules, steps[..|steps| - 1], a); }
  }

  /** Every run: a validation succeeds exactly when an earlier step issued the authorization and nothing dropped
      it since, its objects are as they were issued, the claim repeats that step's request and names its evidence,
      and the time is within the consent's; it then returns that evidence. */
  lemma ValidationExact(rules: Rules, steps: seq<Step>, j: nat, k: nat)
    requires Sound(rules) && k < j < |steps| && steps[j].Validate? && steps[k].Issue?
    requires OutcomeAt(rules, steps, k) == Issued(steps[j].authorization)
    ensures exists i: nat, o, e ::
              && HoldsObservation(rules, steps, i, k, o) && steps[i].file.parsed.Some?
              && var c := steps[i].file.parsed.value.body;
                 var t := Trusted(steps[i].file.sha256, steps[i].file.size, steps[i].file.parsed.value);
                 && Resolve(rules, steps[k].request, Some(t), steps[k].provenance, steps[k].issueTime) == Some(e)
                 && OutcomeAt(rules, steps, j) ==
                    if && HoldsAuthorization(rules, steps, k, j, steps[j].authorization)
                       && AuthorizationIntact(After(rules, steps[..j]), steps[j].authorization, e)
                       && Repeats(steps[j].claim, steps[k].request, e)
                       && c.issuedAt <= steps[j].now < c.expiresAt
                    then Validated(e) else Refused
  {
    hide After, OutcomeAt, ApplyIssue, ApplyValidate, Resolve, Sound, TrustedObservation, ConsentValid, Authorizable,
      ClaimMatches, Repeats, EvidenceValid, ObservationIntact, AuthorizationIntact, Loads;
    var a, r, p, at := steps[j].authorization, steps[k].request, steps[k].provenance, steps[k].issueTime;
    var i: nat, o, e := IssuedUnder(rules, steps, k);
    var t := Trusted(steps[i].file.sha256, steps[i].file.size, steps[i].file.parsed.value);
    OutcomeOfValidate(rules, steps, j);
    LiveAuthorization(rules, steps, j, a);
    var s := After(rules, steps[..j]);
    if a in s.liveAuthorizations {
      var k': nat :| HoldsAuthorization(rules, steps, k', j, a);
      SameIssue(rules, steps, k, k', j, a);
      HashesKept(rules, steps[..j], a);
      ResolvedSays(rules, r, Some(t), p, at);
      ClaimExact(rules, e, r, t, p, at, steps[j].claim, steps[j].now);
      ValidateExactAt(rules, s, a, e, steps[j].claim, steps[j].now);
    } else {
      ExpiredRefused(rules, s, a, steps[j].claim, steps[j].now);
    }
  }

  /** The consent and the evidence behind an issued authorization. */
  lemma IssuedUnder(rules: Rules, steps: seq<Step>, k: nat) returns (i: nat, o: Ref, e: Evidence)
    requires Sound(rules) && k < |steps| && steps[k].Issue? && OutcomeAt(rules, steps, k).Issued?
    ensures HoldsObservation(rules, steps, i, k, o) && steps[i].file.parsed.Some?
    ensures var t := Trusted(steps[i].file.sha256, steps[i].file.size, steps[i].file.parsed.value);
            && TrustedValid(rules, t)
            && Resolve(rules, steps[k].request, Some(t), steps[k].provenance, steps[k].issueTime) == Some(e)
    ensures steps[k].request.profile != StrictZdr && !steps[k].request.requireZdr
    ensures ResolveObserved(rules, After(rules, steps[..k]), steps[k].observation, steps[k].request, steps[k].provenance,
                            steps[k].issueTime) == Some(e)
  {
    hide After, OutcomeAt, Resolve, Sound, ConsentValid, TrustedObservation, Authorizable;
    IssueExact(rules, steps, k);
    i, o :| steps[k].observation == Some(o) && HoldsObservation(rules, steps, i, k, o)
            && ObservationIntact(After(rules, steps[..k]), o, steps[i].file)
            && Authorizable(steps[i].file.parsed.value.body, steps[k].request, steps[k].provenance, steps[k].issueTime);
    LiveObservation(rules, steps, k, o);
    var t := Trusted(steps[i].file.sha256, steps[i].file.size, steps[i].file.parsed.value);
    TrustedExact(rules, After(rules, steps[..k]), o, steps[i].file);
    AuthorizableResolves(rules, t, steps[k].request, steps[k].provenance, steps[k].issueTime);
    e := Resolve(rules, steps[k].request, Some(t), steps[k].provenance, steps[k].issueTime).value;
  }

  lemma SameIssue(rules: Rules, steps: seq<Step>, k: nat, k': nat, j: nat, a: Ref)
    requires k < j <= |steps| && steps[k].Issue? && OutcomeAt(rules, steps, k) == Issued(a)
    requires HoldsAuthorization(rules, steps, k', j, a)
    ensures k == k'
  {
    hide After, Apply, OutcomeAt, ResolveObserved;
    if k != k' {
      var hi := if k < k' then k' else k;
      LiveAuthorization(rules, steps, hi, a);
      AfterNext(rules, steps, hi);
      IssueStep(rules, After(rules, steps[..hi]), steps[hi], a);
    }
  }

  /** Every run: an authorization that no earlier step issued is refused. */
  lemma UnissuedRefused(rules: Rules, steps: seq<Step>, j: nat)
    requires j < |steps| && steps[j].Validate?
    requires forall k: nat :: k < j && steps[k].Issue? ==> OutcomeAt(rules, steps, k) != Issued(steps[j].authorization)
    ensures OutcomeAt(rules, steps, j) == Refused
  {
    hide After, OutcomeAt, ApplyValidate, ResolveObserved;
    LiveAuthorization(rules, steps, j, steps[j].authorization);
    OutcomeOfValidate(rules, steps, j);
    ExpiredRefused(rules, After(rules, steps[..j]), steps[j].authorization, steps[j].claim, steps[j].now);
  }

  // ---------------------------------------------------------------- the registries in place

  /** The module's registries, updated in place; each operation takes the step of the same name. */
  class Registry {
    var objects: Objects
    var liveObservations: map<Ref, ObservationBinding>
    var liveAuthorizations: map<Ref, AuthorizationBinding>
    var next: Ref

    function Now(): State
      reads this
    {
      State(objects, liveObservations, liveAuthorizations, next)
    }

    constructor ()
      ensures Now() == Start()
    {
      objects := Objects(map[], map[], map[], map[]);
      liveObservations, liveAuthorizations, next := map[], map[], 0;
    }

    /** `load_privacy_retention_consent`. */
    method LoadPrivacyRetentionConsent(rules: Rules, file: ConsentFile) returns (r: Outcome)
      modifies this
      ensures (Now(), r) == Apply(rules, old(Now()), Load(file))
    {
      hide ConsentValid;
      if !file.safe || file.size < 1 || file.size > MAX_CONSENT_BYTES {
        return Refused;
      }
      if file.parsed.None? || !ConsentValid(rules, file.parsed.value) {
        return Refused;
      }
      var observation := next;
      next := next + 1;
      objects := objects.(
        consents := objects.consents[observation := file.parsed.value],
        observations := objects.observations[observation := ObservationObject(file.sha256, file.size, observation)]);
      liveObservations := liveObservations[
        observation := ObservationBinding(file.sha256, file.size, observation, file.parsed.value)];
      return Loaded(observation);
    }

    /** `resolve_trusted_privacy_authorization`. */
    method ResolveTrustedPrivacyAuthorization(rules: Rules, given: Option<Ref>, request: Request,
                                              provenance: Option<Provenance>, now: int)
      returns (r: Outcome)
      modifies this
      ensures (Now(), r) == Apply(rules, old(Now()), Issue(given, request, provenance, now))
    {
      hide Resolve, TrustedObservation;
      var t := TrustedObservation(rules, Now(), given);
      var e: Option<Evidence>;
      if given.None? {
        e := Resolve(rules, request, None, provenance, now);
      } else if request.profile == StrictZdr || t.None? {
        return Refused;
      } else {
        e := Resolve(rules, request, t, provenance, now);
      }
      if e.None? || t.None? || e.value.body.profile == StrictZdr || e.value.body.requireZdr {
        return Refused;
      }
      var authorization := next;
      next := next + 1;
      objects := objects.(
        evidences := objects.evidences[authorization := e.value],
        authorizations := objects.authorizations[authorization := authorization]);
      liveAuthorizations := liveAuthorizations[
        authorization := AuthorizationBinding(authorization, e.value.sha256, e.value)];
      return Issued(authorization);
    }

    /** `validate_trusted_privacy_authorization`. */
    method ValidateTrustedPrivacyAuthorization(rules: Rules, authorization: Ref, claim: Claim, now: int)
      returns (r: Outcome)
      ensures (Now(), r) == Apply(rules, Now(), Validate(authorization, claim, now))
    {
      hide EvidenceValid, ClaimMatches;
      if authorization !in liveAuthorizations || authorization !in objects.authorizations {
        return Refused;
      }
      var binding, held := liveAuthorizations[authorization], objects.authorizations[authorization];
      if held != binding.evidence || held !in objects.evidences {
        return Refused;
      }
      var evidence := objects.evidences[held];
      if !EvidenceValid(rules, evidence) || binding.sha256 != evidence.sha256 || binding.content != evidence {
        return Refused;
      }
      if !ClaimMatches(rules, evidence, claim, now) {
        return Refused;
      }
      return Validated(evidence);
    }
  }
}
