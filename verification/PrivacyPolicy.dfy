/** Privacy consent and the effective policy: the consent validator, the resolver with its own checks,
    and the separately written validator of the evidence the resolver builds. */
module PrivacyPolicy {
  import opened Text
  import opened Money
  import opened Identifiers

  const MAX_CONSENT_BYTES := 262_144
  const MAX_MODELS := 64
  const MAX_PROVIDERS := 128
  const MAX_MONEY_TEXT := 32

  datatype Profile = StrictZdr | Frontier | SyntheticBenchmark

  datatype Classification = PrivateSource | SyntheticCommitted | PublicBenchmark

  /** In the order of their names. */
  datatype PolicyClass = NonZdr | Zdr

  datatype ProofKind = PrivateDefault | DistributionCommitted | PackagePinned

  /** SHA-256 of canonical JSON and of files, taken to be injective. */
  datatype Hash =
    | Opaque(bytes: Bytes)
    | ConsentHash(consent: ConsentBody)
    | EvidenceHash(evidence: EvidenceBody)
    | ProvenanceHash(provenance: ProvenanceBody)
    | OperatorHash(identity: Option<string>, signature: Option<string>)

  datatype Disclosure = Disclosure(endpoint: string, policyClass: PolicyClass, retention: string, policy: string)

  datatype ConsentBody = ConsentBody(
    profile: Profile,
    classification: Classification,
    source: Hash,
    models: seq<string>,
    providers: seq<string>,
    classes: seq<PolicyClass>,
    disclosures: seq<Disclosure>,
    issuedAt: int,
    expiresAt: int,
    operatorIdentity: Option<string>,
    signature: Option<string>,
    maximumCost: string,
    prohibited: seq<string>,
    acknowledgesNoZdr: bool)

  datatype Consent = Consent(body: ConsentBody, sha256: Hash)

  datatype ProvenanceBody = ProvenanceBody(
    classification: Classification,
    source: Hash,
    proofKind: ProofKind,
    commit: Option<string>,
    scope: Option<string>,
    fileCount: nat,
    inventory: Option<Hash>,
    declarationPath: Option<string>,
    declaration: Option<Hash>,
    declarationEntry: Option<Hash>,
    observedAt: int)

  datatype Provenance = Provenance(body: ProvenanceBody, sha256: Hash)

  /** What the evidence retains of a consent; absent as a whole or present as a whole when built by
      the resolver, field by field otherwise. */
  datatype ConsentFields = ConsentFields(
    file: Option<Hash>,
    fileSize: Option<nat>,
    sha256: Option<Hash>,
    issuedAt: Option<int>,
    expiresAt: Option<int>,
    operatorReference: Option<Hash>,
    maximumCost: Option<string>)

  datatype EvidenceBody = EvidenceBody(
    profile: Profile,
    classification: Classification,
    source: Hash,
    provenance: Hash,
    proofKind: ProofKind,
    commit: Option<string>,
    scope: Option<string>,
    declaration: Option<Hash>,
    declarationEntry: Option<Hash>,
    requireZdr: bool,
    models: seq<string>,
    providers: seq<string>,
    classes: seq<PolicyClass>,
    disclosures: seq<Disclosure>,
    consent: ConsentFields,
    requestedBudget: string,
    limitations: seq<string>)

  datatype Evidence = Evidence(body: EvidenceBody, sha256: Hash)

  /** The four limitations the resolver records. */
  datatype Limitation = StrictExcludesEndpoints | SyntheticWithoutConsent | SomeEndpointNotZdr | BenchmarkSourceOnly

  /** The printable-text test, the limitation texts and the decimal constructor. */
  datatype Rules = Rules(
    printable: string -> bool,
    text: Limitation -> string,
    read: string -> Decimal)

  ghost predicate Sound(rules: Rules) {
    && ReadsPlainNumerals(rules.read)
    && forall l :: rules.printable(rules.text(l))
  }

  function RequiredProhibited(): seq<string> {
    ["credentials", "excluded_content", "operator_secrets"]
  }

  // ---------------------------------------------------------------- amounts

  /** Order of the numbers, whatever their exponents. */
  predicate AtMost(a: Decimal, b: Decimal)
    requires Positive(a) && Positive(b)
  {
    var e := if a.exponent < b.exponent then a.exponent else b.exponent;
    a.coefficient * Pow10(a.exponent - e) <= b.coefficient * Pow10(b.exponent - e)
  }

  /** The aggregate provider budget, 250 USD. */
  function MaximumCost(): Decimal {
    Finite(false, 250, 0)
  }

  lemma CancelOrder(x: nat, y: nat, p: nat)
    requires p > 0
    ensures x * p <= y * p <==> x <= y
  {
    if x < y { assert (y - x) * p > 0; }
    if y < x { assert (x - y) * p > 0; }
  }

  lemma AtMostAt(a: Decimal, b: Decimal, e: int)
    requires Positive(a) && Positive(b) && e <= a.exponent && e <= b.exponent
    ensures AtMost(a, b) <==> a.coefficient * Pow10(a.exponent - e) <= b.coefficient * Pow10(b.exponent - e)
  {
    hide Pow10;
    var m := if a.exponent < b.exponent then a.exponent else b.exponent;
    ScaledBy(a.coefficient, a.exponent - m, m - e);
    ScaledBy(b.coefficient, b.exponent - m, m - e);
    Pow10Positive(m - e);
    CancelOrder(a.coefficient * Pow10(a.exponent - m), b.coefficient * Pow10(b.exponent - m), Pow10(m - e));
  }

  /** The order only depends on the values. */
  lemma AtMostValues(a: Decimal, b: Decimal, c: Decimal)
    requires Positive(a) && Positive(b) && Positive(c) && SameValue(a, b)
    ensures AtMost(a, c) <==> AtMost(b, c)
  {
    hide Pow10, SameValue, AtMost;
    var e := 0 - AbsSum(a.exponent, b.exponent, c.exponent);
    SameValueAt(a, b, e);
    AtMostAt(a, c, e);
    AtMostAt(b, c, e);
  }

  /** The order is the order of the values. */
  lemma AtMostIsOrder(a: Decimal, b: Decimal)
    requires Positive(a) && Positive(b)
    ensures AtMost(a, b) <==> Value(a) <= Value(b)
  {
    hide Pow10, AtMost, Value;
    var e := 0 - AbsSum(a.exponent, b.exponent, 0);
    AtMostAt(a, b, e);
    ValueAt(a, e);
    ValueAt(b, e);
    Pow10Positive(-e);
    CompareValues(a.coefficient * Pow10(a.exponent - e), b.coefficient * Pow10(b.exponent - e),
                  Value(a), Value(b), Pow10(-e));
  }

  // ---------------------------------------------------------------- shared validators

  predicate CanonicalNames(ok: string -> bool, names: seq<string>) {
    names != [] && (forall i :: 0 <= i < |names| ==> ok(names[i])) && names == SortedSet(names)
  }

  /** The sorted set of the classes of some disclosures. */
  function ClassesOf(ds: seq<Disclosure>): seq<PolicyClass> {
    (if exists i :: 0 <= i < |ds| && ds[i].policyClass == NonZdr then [NonZdr] else [])
    + (if exists i :: 0 <= i < |ds| && ds[i].policyClass == Zdr then [Zdr] else [])
  }

  predicate CanonicalClasses(cs: seq<PolicyClass>) {
    cs == [NonZdr] || cs == [Zdr] || cs == [NonZdr, Zdr]
  }

  function Endpoints(ds: seq<Disclosure>): seq<string> {
    seq(|ds|, i requires 0 <= i < |ds| => ds[i].endpoint)
  }

  /** `_validate_zdr_policy_classes`. */
  predicate RoutingAllowed(requireZdr: bool, classes: seq<PolicyClass>) {
    if requireZdr then classes == [Zdr] else NonZdr in classes
  }

  /** A canonical amount within the aggregate budget. */
  predicate BoundedCost(rules: Rules, text: string) {
    && 1 <= |text| <= MAX_MONEY_TEXT
    && ParseCost(rules.read, text).Some?
    && AtMost(ParseCost(rules.read, text).value, MaximumCost())
  }

  predicate BenchmarkSource(c: Classification) {
    c == SyntheticCommitted || c == PublicBenchmark
  }

  /** `PrivacyRetentionConsent` with all its validators. */
  predicate ConsentValid(rules: Rules, c: Consent) {
    var b := c.body;
    && |b.models| <= MAX_MODELS && CanonicalNames(ExactModel, b.models)
    && |b.providers| <= MAX_PROVIDERS && CanonicalNames(SafeProvider, b.providers)
    && CanonicalClasses(b.classes)
    && 1 <= |b.disclosures| <= MAX_PROVIDERS && Endpoints(b.disclosures) == SortedSet(Endpoints(b.disclosures))
    && BoundedCost(rules, b.maximumCost)
    && b.prohibited == RequiredProhibited()
    && b.profile != StrictZdr
    && (b.profile == Frontier ==> b.classification == PrivateSource)
    && (b.profile == SyntheticBenchmark ==> BenchmarkSource(b.classification))
    && b.issuedAt < b.expiresAt
    && (b.operatorIdentity.Some? || b.signature.Some?)
    && Endpoints(b.disclosures) == b.providers
    && ClassesOf(b.disclosures) == b.classes
    && (b.profile == Frontier ==> NonZdr in b.classes)
    && b.acknowledgesNoZdr == (NonZdr in b.classes)
    && c.sha256 == ConsentHash(b)
  }

  predicate Synthetic(kind: ProofKind) {
    kind == DistributionCommitted || kind == PackagePinned
  }

  /** `PrivacySourceProvenanceEvidence` with its coherence validator. */
  predicate ProvenanceValid(p: Provenance) {
    var b := p.body;
    && (if Synthetic(b.proofKind) then
          && b.classification == SyntheticCommitted
          && b.scope.Some? && b.inventory.Some? && b.declarationPath.Some? && b.declaration.Some?
          && b.declarationEntry.Some? && b.fileCount >= 1
          && (b.proofKind == DistributionCommitted ==> b.commit.Some?)
          && (b.proofKind == PackagePinned ==> b.commit.None?)
        else
          && b.classification == PrivateSource && b.commit.None? && b.scope.None? && b.inventory.None?
          && b.declarationPath.None? && b.declaration.None? && b.declarationEntry.None? && b.fileCount == 0)
    && p.sha256 == ProvenanceHash(b)
  }

  // ---------------------------------------------------------------- the evidence validator

  predicate NoConsent(f: ConsentFields) {
    && f.file.None? && f.fileSize.None? && f.sha256.None? && f.issuedAt.None? && f.expiresAt.None?
    && f.operatorReference.None? && f.maximumCost.None?
  }

  predicate FullConsent(f: ConsentFields) {
    && f.file.Some? && f.fileSize.Some? && f.sha256.Some? && f.issuedAt.Some? && f.expiresAt.Some?
    && f.operatorReference.Some? && f.maximumCost.Some?
  }

  predicate ProofCoherent(b: EvidenceBody) {
    match b.classification
    case SyntheticCommitted =>
      && Synthetic(b.proofKind)
      && b.scope.Some? && b.declaration.Some? && b.declarationEntry.Some?
      && (b.proofKind == DistributionCommitted ==> b.commit.Some?)
      && (b.proofKind == PackagePinned ==> b.commit.None?)
    case PrivateSource =>
      && b.proofKind == PrivateDefault && b.commit.None?
      && b.scope.None? && b.declaration.None? && b.declarationEntry.None?
    case PublicBenchmark => false
  }

  predicate ConsentCoherent(rules: Rules, b: EvidenceBody) {
    if b.profile == StrictZdr then
      b.requireZdr && NoConsent(b.consent) && b.classes == [Zdr] && b.disclosures == []
    else if NoConsent(b.consent) then
      b.profile == SyntheticBenchmark && b.requireZdr && b.classes == [Zdr] && b.disclosures == []
    else
      && FullConsent(b.consent)
      && Endpoints(b.disclosures) == b.providers
      && ClassesOf(b.disclosures) == b.classes
      && Positive(rules.read(b.requestedBudget)) && Positive(rules.read(b.consent.maximumCost.value))
      && AtMost(rules.read(b.requestedBudget), rules.read(b.consent.maximumCost.value))
  }

  /** `EffectivePrivacyPolicyEvidence` with all its validators. */
  predicate EvidenceValid(rules: Rules, e: Evidence) {
    var b := e.body;
    && |b.models| <= MAX_MODELS && CanonicalNames(ExactModel, b.models)
    && |b.providers| <= MAX_PROVIDERS && CanonicalNames(SafeProvider, b.providers)
    && CanonicalClasses(b.classes)
    && |b.disclosures| <= MAX_PROVIDERS && Endpoints(b.disclosures) == SortedSet(Endpoints(b.disclosures))
    && (b.consent.fileSize.Some? ==> 1 <= b.consent.fileSize.value <= MAX_CONSENT_BYTES)
    && (b.consent.maximumCost.Some? ==> BoundedCost(rules, b.consent.maximumCost.value))
    && BoundedCost(rules, b.requestedBudget)
    && 1 <= |b.limitations| <= 32 && b.limitations == SortedSet(b.limitations)
    && (forall i :: 0 <= i < |b.limitations| ==> rules.printable(b.limitations[i]))
    && ProofCoherent(b)
    && ConsentCoherent(rules, b)
    && (b.profile == Frontier ==> b.classification == PrivateSource && !b.requireZdr && NonZdr in b.classes)
    && (b.profile == SyntheticBenchmark ==>
          BenchmarkSource(b.classification) && RoutingAllowed(b.requireZdr, b.classes))
    && e.sha256 == EvidenceHash(b)
  }

  // ---------------------------------------------------------------- the resolver

  /** A consent observation that passed `_require_trusted_observation`. */
  datatype Trusted = Trusted(file: Hash, fileSize: nat, consent: Consent)

  datatype Request = Request(
    profile: Profile,
    requireZdr: bool,
    source: Hash,
    classification: Classification,
    models: seq<string>,
    providers: seq<string>,
    budget: Decimal)

  /** `_validate_requested_budget`. */
  predicate BudgetAllowed(budget: Decimal) {
    Positive(budget) && AtMost(budget, MaximumCost())
  }

  /** `_resolve_source_provenance`; a given observation must be valid and fit the request. */
  function ResolveProvenance(given: Option<Provenance>, r: Request, now: int): Option<Provenance> {
    match given
    case Some(p) =>
      if ProvenanceValid(p) && p.body.source == r.source && p.body.classification == r.classification
      then given else None
    case None =>
      if r.classification != PrivateSource then None
      else
        var b := ProvenanceBody(r.classification, r.source, PrivateDefault, None, None, 0, None, None, None, None, now);
        Some(Provenance(b, ProvenanceHash(b)))
  }

  /** The checks on a consent against the request it is to authorize. */
  predicate ConsentAuthorizes(rules: Rules, t: Trusted, r: Request, now: int) {
    var c := t.consent.body;
    && c.profile == r.profile
    && c.classification == r.classification
    && c.source == r.source
    && c.models == r.models
    && c.providers == r.providers
    && c.issuedAt <= now < c.expiresAt
    && Positive(r.budget) && Positive(rules.read(c.maximumCost)) && AtMost(r.budget, rules.read(c.maximumCost))
    && c.prohibited == RequiredProhibited()
    && RoutingAllowed(r.requireZdr, c.classes)
  }

  /** The branch of the resolver that needs no consent. */
  predicate ConsentFree(r: Request, consent: Option<Trusted>) {
    r.profile == StrictZdr || (r.profile == SyntheticBenchmark && r.requireZdr && consent.None?)
  }

  function NoFields(): ConsentFields {
    ConsentFields(None, None, None, None, None, None, None)
  }

  function FieldsOf(t: Trusted): ConsentFields {
    var c := t.consent.body;
    ConsentFields(Some(t.file), Some(t.fileSize), Some(t.consent.sha256), Some(c.issuedAt), Some(c.expiresAt),
                  Some(OperatorHash(c.operatorIdentity, c.signature)), Some(c.maximumCost))
  }

  function BodyOf(rules: Rules, r: Request, p: Provenance, consent: Option<Trusted>): EvidenceBody
    requires Positive(r.budget)
  {
    var free := ConsentFree(r, consent) || consent.None?;
    EvidenceBody(
      r.profile, r.classification, r.source, p.sha256, p.body.proofKind, p.body.commit, p.body.scope,
      p.body.declaration, p.body.declarationEntry, r.requireZdr, r.models, r.providers,
      if free then [Zdr] else consent.value.consent.body.classes,
      if free then [] else consent.value.consent.body.disclosures,
      if free then NoFields() else FieldsOf(consent.value),
      Render(r.budget),
      [rules.text(if r.profile == StrictZdr then StrictExcludesEndpoints
                  else if free then SyntheticWithoutConsent
                  else if !r.requireZdr then SomeEndpointNotZdr
                  else BenchmarkSourceOnly)])
  }

  /** What `resolve_effective_privacy_policy` builds when all its own checks pass. */
  function Admit(rules: Rules, r: Request, consent: Option<Trusted>, given: Option<Provenance>, now: int)
    : Option<EvidenceBody>
  {
    if !CanonicalNames(ExactModel, r.models) || !CanonicalNames(SafeProvider, r.providers)
       || !BudgetAllowed(r.budget) then None
    else if r.profile == StrictZdr && (!r.requireZdr || consent.Some?) then None
    else if !ConsentFree(r, consent) && (consent.None? || !ConsentAuthorizes(rules, consent.value, r, now)) then None
    else if r.profile == Frontier && (r.classification != PrivateSource || r.requireZdr) then None
    else if r.profile == SyntheticBenchmark && !BenchmarkSource(r.classification) then None
    else
      var p := ResolveProvenance(given, r, now);
      if p.None? then None else Some(BodyOf(rules, r, p.value, consent))
  }

  function Seal(b: EvidenceBody): Evidence {
    Evidence(b, EvidenceHash(b))
  }

  /** `resolve_effective_privacy_policy`: the built evidence is validated before it is returned. */
  function Resolve(rules: Rules, r: Request, consent: Option<Trusted>, given: Option<Provenance>, now: int)
    : Option<Evidence>
  {
    var b := Admit(rules, r, consent, given, now);
    if b.Some? && EvidenceValid(rules, Seal(b.value)) then Some(Seal(b.value)) else None
  }

  /** A trusted observation carries a valid consent and a bounded size. */
  predicate TrustedValid(rules: Rules, t: Trusted) {
    ConsentValid(rules, t.consent) && 1 <= t.fileSize <= MAX_CONSENT_BYTES
  }

  // ---------------------------------------------------------------- the resolver against the validator

  /** No evidence for public benchmark source is ever returned, or even built. */
  lemma PublicNeverResolved(rules: Rules, r: Request, consent: Option<Trusted>, given: Option<Provenance>, now: int)
    requires r.classification == PublicBenchmark
    ensures Admit(rules, r, consent, given, now) == None
  {
    hide Render, SortedSet, AtMost, CanonicalNames, ConsentAuthorizes, BodyOf;
  }

  /** The rendered budget is a bounded cost exactly when its text is short enough. */
  lemma BudgetText(rules: Rules, budget: Decimal)
    requires Sound(rules) && BudgetAllowed(budget)
    ensures BoundedCost(rules, Render(budget)) <==> |Render(budget)| <= MAX_MONEY_TEXT
    ensures Positive(rules.read(Render(budget))) && SameValue(rules.read(Render(budget)), budget)
  {
    hide Render, SameValue, AtMost, Canonical, Plain;
    RenderThenParse(rules.read, budget);
    RenderKeepsValue(budget);
    var p := ParseCost(rules.read, Render(budget));
    assert p.value == rules.read(Render(budget));
    AtMostValues(p.value, budget, MaximumCost());
    CanonicalNotEmpty(Render(budget));
  }

  lemma CanonicalNotEmpty(s: string)
    requires Canonical(s)
    ensures s != ""
  {
  }

  lemma OneLimitation(s: string)
    ensures [s] == SortedSet([s])
  {
    IsSortedSet([s]);
  }

  lemma NoDisclosures()
    ensures Endpoints([]) == SortedSet(Endpoints([]))
  {
  }

  /** The three limits that the validator has and the resolver does not check. */
  predicate WithinLimits(r: Request)
    requires Positive(r.budget)
  {
    |r.models| <= MAX_MODELS && |r.providers| <= MAX_PROVIDERS && |Render(r.budget)| <= MAX_MONEY_TEXT
  }

  lemma LimitationsFit(rules: Rules, b: EvidenceBody, r: Request, p: Provenance, consent: Option<Trusted>)
    requires Sound(rules) && Positive(r.budget) && b == BodyOf(rules, r, p, consent)
    ensures 1 <= |b.limitations| <= 32 && b.limitations == SortedSet(b.limitations)
    ensures forall i :: 0 <= i < |b.limitations| ==> rules.printable(b.limitations[i])
  {
    hide Render, SortedSet;
    OneLimitation(b.limitations[0]);
  }

  lemma ProofFits(rules: Rules, r: Request, given: Option<Provenance>, now: int, consent: Option<Trusted>)
    requires Positive(r.budget) && ResolveProvenance(given, r, now).Some?
    ensures ProofCoherent(BodyOf(rules, r, ResolveProvenance(given, r, now).value, consent))
  {
    hide Render, SortedSet;
  }

  lemma ConsentFits(rules: Rules, r: Request, p: Provenance, t: Trusted, now: int)
    requires Sound(rules) && BudgetAllowed(r.budget) && TrustedValid(rules, t) && ConsentAuthorizes(rules, t, r, now)
    requires r.profile != StrictZdr
    ensures var b := BodyOf(rules, r, p, Some(t));
            && ConsentCoherent(rules, b) && CanonicalClasses(b.classes)
            && |b.disclosures| <= MAX_PROVIDERS && Endpoints(b.disclosures) == SortedSet(Endpoints(b.disclosures))
            && (b.consent.fileSize.Some? ==> 1 <= b.consent.fileSize.value <= MAX_CONSENT_BYTES)
            && (b.consent.maximumCost.Some? ==> BoundedCost(rules, b.consent.maximumCost.value))
            && |r.models| <= MAX_MODELS && |r.providers| <= MAX_PROVIDERS
            && RoutingAllowed(r.requireZdr, b.classes)
  {
    hide Render, SortedSet, SameValue,
      AtMost, CanonicalNames, ClassesOf, RequiredProhibited, Endpoints, ParseCost;
    BudgetText(rules, r.budget);
    AtMostValues(rules.read(Render(r.budget)), r.budget, rules.read(t.consent.body.maximumCost));
  }

  lemma FreeFits(rules: Rules, r: Request, p: Provenance, consent: Option<Trusted>)
    requires Positive(r.budget) && ConsentFree(r, consent) && (r.profile == StrictZdr ==> r.requireZdr)
    ensures var b := BodyOf(rules, r, p, consent);
            && ConsentCoherent(rules, b) && CanonicalClasses(b.classes)
            && |b.disclosures| <= MAX_PROVIDERS && Endpoints(b.disclosures) == SortedSet(Endpoints(b.disclosures))
            && b.consent.fileSize.None? && b.consent.maximumCost.None?
            && RoutingAllowed(r.requireZdr, b.classes)
  {
    hide Render, SortedSet;
    NoDisclosures();
  }

  /** Whatever the resolver's own checks admit, the evidence validator accepts exactly when the model
      list, the provider list and the budget text are within the limits only the validator knows. */
  lemma ResolverMeetsValidator(rules: Rules, r: Request, consent: Option<Trusted>, given: Option<Provenance>, now: int)
    requires Sound(rules) && (consent.Some? ==> TrustedValid(rules, consent.value))
    requires Admit(rules, r, consent, given, now).Some?
    ensures Positive(r.budget)
    ensures EvidenceValid(rules, Seal(Admit(rules, r, consent, given, now).value)) <==> WithinLimits(r)
    ensures Resolve(rules, r, consent, given, now).Some? <==> WithinLimits(r)
  {
    hide Render, SortedSet, SameValue,
      AtMost, CanonicalNames, ClassesOf, RequiredProhibited, Endpoints, BoundedCost, ConsentCoherent, ProofCoherent,
      CanonicalClasses, Sound, TrustedValid, ConsentAuthorizes, ResolveProvenance, BudgetAllowed;
    assert Positive(r.budget) by { BudgetIsPositive(r.budget); }
    var p := ResolveProvenance(given, r, now).value;
    var b := BodyOf(rules, r, p, consent);
    BudgetText(rules, r.budget);
    LimitationsFit(rules, b, r, p, consent);
    ProofFits(rules, r, given, now, consent);
    if ConsentFree(r, consent) {
      FreeFits(rules, r, p, consent);
    } else {
      ConsentFits(rules, r, p, consent.value, now);
    }
  }

  lemma BudgetIsPositive(budget: Decimal)
    ensures BudgetAllowed(budget) ==> Positive(budget)
  {
  }

  /** For requests under consent, only the budget text can fall outside the limits. */
  lemma ConsentBoundsLists(rules: Rules, r: Request, t: Trusted, given: Option<Provenance>, now: int)
    requires TrustedValid(rules, t) && !ConsentFree(r, Some(t)) && Admit(rules, r, Some(t), given, now).Some?
    ensures |r.models| <= MAX_MODELS && |r.providers| <= MAX_PROVIDERS
  {
    hide Render, SortedSet, AtMost, CanonicalNames, ClassesOf, RequiredProhibited, Endpoints, BoundedCost;
  }

  // ---------------------------------------------------------------- what the validators accept, in plain terms

  /** Between one and `max` names in strictly ascending order, each passing the rule. */
  ghost predicate ListOf(ok: string -> bool, names: seq<string>, max: nat) {
    1 <= |names| <= max && Ascending(names) && forall n :: n in names ==> ok(n)
  }

  lemma CanonicalIsList(ok: string -> bool, names: seq<string>, max: nat)
    ensures |names| <= max && CanonicalNames(ok, names) <==> ListOf(ok, names, max)
  {
    hide SortedSet, Ascending;
    IsSortedSet(names);
    if CanonicalNames(ok, names) {
      forall n | n in names ensures ok(n) { var i :| 0 <= i < |names| && names[i] == n; }
    }
    if ListOf(ok, names, max) {
      forall i | 0 <= i < |names| ensures ok(names[i]) { assert names[i] in names; }
    }
  }

  /** A canonical numeral of at most 32 characters whose value is at most 250. */
  ghost predicate CostText(text: string) {
    Canonical(text) && |text| <= 32 && Positive(Plain(text).value) && Value(Plain(text).value) <= 250.0
  }

  lemma BoundedIsCostText(rules: Rules, text: string)
    requires Sound(rules)
    ensures BoundedCost(rules, text) <==> CostText(text)
    ensures CostText(text) ==> rules.read(text) == Plain(text).value
  {
    hide Render, Canonical, Plain, AtMost, Value;
    ParserAcceptsRenderedTexts(rules.read, text);
    CanonicalMeans(text);
    if Canonical(text) {
      AtMostIsOrder(rules.read(text), MaximumCost());
      TwoHundredFifty();
    }
  }

  lemma CanonicalMeans(text: string)
    ensures Canonical(text) ==> text != "" && Plain(text).Some? && Positive(Plain(text).value)
  {
  }

  lemma TwoHundredFifty()
    ensures Value(MaximumCost()) == 250.0
  {
    assert Pow10(0) == 1;
  }

  ghost predicate Discloses(ds: seq<Disclosure>, c: PolicyClass) {
    exists i :: 0 <= i < |ds| && ds[i].policyClass == c
  }

  /** One disclosure for each provider, in order, and the classes are those disclosed. */
  ghost predicate Disclosed(providers: seq<string>, ds: seq<Disclosure>, classes: seq<PolicyClass>) {
    && |ds| == |providers| && (forall i :: 0 <= i < |ds| ==> ds[i].endpoint == providers[i])
    && (classes == [NonZdr] || classes == [Zdr] || classes == [NonZdr, Zdr])
    && (NonZdr in classes <==> Discloses(ds, NonZdr)) && (Zdr in classes <==> Discloses(ds, Zdr))
  }

  lemma DisclosuresMeet(providers: seq<string>, ds: seq<Disclosure>, classes: seq<PolicyClass>)
    requires CanonicalClasses(classes) || ClassesOf(ds) == classes
    ensures Endpoints(ds) == providers && ClassesOf(ds) == classes && providers != [] ==>
              CanonicalClasses(classes) && Disclosed(providers, ds, classes)
    ensures Disclosed(providers, ds, classes) ==> Endpoints(ds) == providers && ClassesOf(ds) == classes
  {
    if Endpoints(ds) == providers && ClassesOf(ds) == classes && providers != [] {
      assert |ds| == |Endpoints(ds)|;
      forall i | 0 <= i < |ds| ensures ds[i].endpoint == providers[i] { assert Endpoints(ds)[i] == providers[i]; }
      assert ds[0].policyClass == NonZdr || ds[0].policyClass == Zdr;
    }
  }

  /** A consent is valid exactly when it binds bounded sorted lists, discloses every provider, authorizes private
      source for frontier and benchmark source for benchmarks, is in force for some time, names an operator,
      acknowledges routes without ZDR exactly when it has one, and carries its own hash. */
  lemma ConsentMeans(rules: Rules, c: Consent)
    requires Sound(rules)
    ensures ConsentValid(rules, c) <==>
            var b := c.body;
            && ListOf(ExactModel, b.models, 64) && ListOf(SafeProvider, b.providers, 128)
            && Disclosed(b.providers, b.disclosures, b.classes)
            && (b.acknowledgesNoZdr <==> Discloses(b.disclosures, NonZdr))
            && (|| (b.profile == Frontier && b.classification == PrivateSource && b.acknowledgesNoZdr)
                || (b.profile == SyntheticBenchmark && b.classification != PrivateSource))
            && b.issuedAt < b.expiresAt && (b.operatorIdentity.Some? || b.signature.Some?)
            && CostText(b.maximumCost)
            && b.prohibited == ["credentials", "excluded_content", "operator_secrets"]
            && c.sha256 == ConsentHash(b)
  {
    hide SortedSet, ListOf, CanonicalNames, BoundedCost, CostText, Sound, Endpoints, ClassesOf, Discloses, RequiredProhibited,
      ExactModel, SafeProvider;
    var b := c.body;
    CanonicalIsList(ExactModel, b.models, 64);
    CanonicalIsList(SafeProvider, b.providers, 128);
    ListSorted(b.providers, 128);
    BoundedIsCostText(rules, b.maximumCost);
    assert RequiredProhibited() == ["credentials", "excluded_content", "operator_secrets"] by { ProhibitedAre(); }
    if CanonicalClasses(b.classes) { DisclosuresMeet(b.providers, b.disclosures, b.classes); }
    EndpointsCount(b.disclosures);
  }

  lemma ProhibitedAre()
    ensures RequiredProhibited() == ["credentials", "excluded_content", "operator_secrets"]
  {
  }

  lemma EndpointsCount(ds: seq<Disclosure>)
    ensures |Endpoints(ds)| == |ds|
  {
  }

  lemma ListSorted(names: seq<string>, max: nat)
    ensures ListOf(SafeProvider, names, max) ==> names == SortedSet(names) && 1 <= |names| <= max
  {
    hide SortedSet, Ascending;
    IsSortedSet(names);
  }

  /** What a policy may say about its source: private by default, or synthetic with its distribution or package
      proof; public benchmark source has no proof. */
  ghost predicate SourceProven(classification: Classification, kind: ProofKind, commit: Option<string>,
                               scope: Option<string>, declaration: Option<Hash>, entry: Option<Hash>) {
    || (classification == PrivateSource && kind == PrivateDefault
        && commit.None? && scope.None? && declaration.None? && entry.None?)
    || (classification == SyntheticCommitted && scope.Some? && declaration.Some? && entry.Some?
        && (|| (kind == DistributionCommitted && commit.Some?)
            || (kind == PackagePinned && commit.None?)))
  }

  /** Source provenance is valid exactly when its proof is of one of the three kinds, synthetic ones with an
      inventory of at least one file and the path of their declaration, and it carries its own hash. */
  lemma ProvenanceMeans(p: Provenance)
    ensures ProvenanceValid(p) <==>
            var b := p.body;
            && SourceProven(b.classification, b.proofKind, b.commit, b.scope, b.declaration, b.declarationEntry)
            && (if b.classification == PrivateSource
                then b.inventory.None? && b.declarationPath.None? && b.fileCount == 0
                else b.inventory.Some? && b.declarationPath.Some? && b.fileCount > 0)
            && p.sha256 == ProvenanceHash(b)
  {
  }

  /** A policy without consent: ZDR routes only, for a strict profile or for benchmark source. */
  ghost predicate WithoutConsent(b: EvidenceBody) {
    && b.consent == ConsentFields(None, None, None, None, None, None, None)
    && b.requireZdr && b.classes == [Zdr] && b.disclosures == []
    && (b.profile == StrictZdr || (b.profile == SyntheticBenchmark && b.classification != PrivateSource))
  }

  /** A policy under consent: all of its fields are there, each provider is disclosed, the budget is within the
      cap, and the route is ZDR exactly when the policy requires it. */
  ghost predicate UnderConsent(b: EvidenceBody) {
    var f := b.consent;
    && f.file.Some? && f.fileSize.Some? && f.sha256.Some? && f.issuedAt.Some? && f.expiresAt.Some?
    && f.operatorReference.Some? && f.maximumCost.Some?
    && 1 <= f.fileSize.value <= 262_144 && CostText(f.maximumCost.value)
    && Disclosed(b.providers, b.disclosures, b.classes)
    && CostText(b.requestedBudget)
    && Value(Plain(b.requestedBudget).value) <= Value(Plain(f.maximumCost.value).value)
    && (b.requireZdr <==> !Discloses(b.disclosures, NonZdr))
    && (|| (b.profile == Frontier && b.classification == PrivateSource && !b.requireZdr)
        || (b.profile == SyntheticBenchmark && b.classification != PrivateSource))
  }

  lemma ConsentCoherentMeans(rules: Rules, b: EvidenceBody)
    requires Sound(rules) && BoundedCost(rules, b.requestedBudget) && b.providers != []
    requires b.consent.maximumCost.Some? ==> BoundedCost(rules, b.consent.maximumCost.value)
    requires b.consent.fileSize.Some? ==> 1 <= b.consent.fileSize.value <= MAX_CONSENT_BYTES
    ensures && CanonicalClasses(b.classes) && ConsentCoherent(rules, b)
            && (b.profile == Frontier ==> b.classification == PrivateSource && !b.requireZdr && NonZdr in b.classes)
            && (b.profile == SyntheticBenchmark ==>
                  BenchmarkSource(b.classification) && RoutingAllowed(b.requireZdr, b.classes))
            <==> WithoutConsent(b) || UnderConsent(b)
  {
    hide AtMost, Value, CostText, BoundedCost, Sound, Plain, Endpoints, ClassesOf, Discloses;
    BoundedIsCostText(rules, b.requestedBudget);
    CostIsPositive(b.requestedBudget);
    if b.consent.maximumCost.Some? {
      BoundedIsCostText(rules, b.consent.maximumCost.value);
      CostIsPositive(b.consent.maximumCost.value);
      AtMostIsOrder(rules.read(b.requestedBudget), rules.read(b.consent.maximumCost.value));
    }
    if CanonicalClasses(b.classes) { DisclosuresMeet(b.providers, b.disclosures, b.classes); }
    NothingDisclosed();
  }

  lemma CostIsPositive(text: string)
    ensures CostText(text) ==> Plain(text).Some? && Positive(Plain(text).value)
  {
    hide Plain, Value;
  }

  lemma NothingDisclosed()
    ensures Endpoints([]) == []
  {
  }

  /** Evidence of an effective policy is valid exactly when it binds bounded sorted lists, a bounded budget and
      printable limitations, its source is proven, it is a policy without consent or one under consent, and it
      carries its own hash. */
  lemma EvidenceMeans(rules: Rules, e: Evidence)
    requires Sound(rules)
    ensures EvidenceValid(rules, e) <==>
            var b := e.body;
            && ListOf(ExactModel, b.models, 64) && ListOf(SafeProvider, b.providers, 128)
            && CostText(b.requestedBudget) && ListOf(rules.printable, b.limitations, 32)
            && SourceProven(b.classification, b.proofKind, b.commit, b.scope, b.declaration, b.declarationEntry)
            && (WithoutConsent(b) || UnderConsent(b))
            && e.sha256 == EvidenceHash(b)
  {
    hide SortedSet, CanonicalNames, BoundedCost, CostText, Sound, Endpoints, ClassesOf, Discloses, Ascending,
      ExactModel, SafeProvider, ConsentCoherent, ProofCoherent, CanonicalClasses, RoutingAllowed, BenchmarkSource, Value, Plain;
    var b := e.body;
    CanonicalIsList(ExactModel, b.models, 64);
    CanonicalIsList(SafeProvider, b.providers, 128);
    ListSorted(b.providers, 128);
    IsSortedSet(b.limitations);
    PrintableLimitations(rules, b.limitations);
    BoundedIsCostText(rules, b.requestedBudget);
    if b.consent.maximumCost.Some? { BoundedIsCostText(rules, b.consent.maximumCost.value); }
    ProofMeans(b);
    SortedDisclosures(b);
    if BoundedCost(rules, b.requestedBudget) && b.providers != []
       && (b.consent.maximumCost.Some? ==> BoundedCost(rules, b.consent.maximumCost.value))
       && (b.consent.fileSize.Some? ==> 1 <= b.consent.fileSize.value <= MAX_CONSENT_BYTES) {
      ConsentCoherentMeans(rules, b);
    }
  }

  lemma PrintableLimitations(rules: Rules, ls: seq<string>)
    ensures (forall i :: 0 <= i < |ls| ==> rules.printable(ls[i])) <==> forall n :: n in ls ==> rules.printable(n)
  {
    if forall n :: n in ls ==> rules.printable(n) {
      forall i | 0 <= i < |ls| ensures rules.printable(ls[i]) { assert ls[i] in ls; }
    }
  }

  lemma ProofMeans(b: EvidenceBody)
    ensures ProofCoherent(b) <==>
            SourceProven(b.classification, b.proofKind, b.commit, b.scope, b.declaration, b.declarationEntry)
  {
  }

  /** Disclosures that follow the providers are sorted as they are. */
  lemma SortedDisclosures(b: EvidenceBody)
    ensures (WithoutConsent(b) || UnderConsent(b)) && ListOf(SafeProvider, b.providers, 128) ==>
              |b.disclosures| <= 128 && Endpoints(b.disclosures) == SortedSet(Endpoints(b.disclosures))
  {
    hide SortedSet, CostText, Value, Plain, SafeProvider, Ascending;
    ListSorted(b.providers, 128);
    NoDisclosures();
    if Disclosed(b.providers, b.disclosures, b.classes) {
      assert Endpoints(b.disclosures) == b.providers;
    }
  }

  // ---------------------------------------------------------------- what the resolver decides

  /** The consent is for exactly this request, in force at this time, and its cap covers the budget. */
  ghost predicate Permits(c: ConsentBody, r: Request, now: int) {
    && c.profile == r.profile && c.classification == r.classification && c.source == r.source
    && c.models == r.models && c.providers == r.providers
    && c.issuedAt <= now < c.expiresAt
    && Positive(r.budget) && CostText(c.maximumCost) && Value(r.budget) <= Value(Plain(c.maximumCost).value)
  }

  /** The provenance of a request: what it is given, if valid and of the same source, or private by default. */
  ghost predicate Provenanced(given: Option<Provenance>, r: Request) {
    match given
    case Some(p) => ProvenanceValid(p) && p.body.source == r.source && p.body.classification == r.classification
    case None => r.classification == PrivateSource
  }

  /** The profile against consent and route: strict takes ZDR routes and no consent; frontier takes private
      source, routes without ZDR and a consent that permits the request; benchmarks take ZDR routes without
      consent, or a permitting consent whose routes are ZDR exactly when required. */
  ghost predicate RouteFits(r: Request, consent: Option<Trusted>, now: int) {
    match r.profile
    case StrictZdr => r.requireZdr && consent.None?
    case Frontier =>
      && r.classification == PrivateSource && !r.requireZdr
      && consent.Some? && Permits(consent.value.consent.body, r, now)
    case SyntheticBenchmark =>
      && r.classification != PrivateSource
      && if consent.None? then r.requireZdr
         else && Permits(consent.value.consent.body, r, now)
              && (r.requireZdr <==> !consent.value.consent.body.acknowledgesNoZdr)
  }

  lemma AuthorizesMeans(rules: Rules, t: Trusted, r: Request, now: int)
    requires Sound(rules) && TrustedValid(rules, t) && Positive(r.budget)
    ensures ConsentAuthorizes(rules, t, r, now) <==>
              && Permits(t.consent.body, r, now)
              && (r.requireZdr <==> !t.consent.body.acknowledgesNoZdr)
  {
    hide SortedSet, CanonicalNames, Sound, CostText, ListOf, Ascending, ExactModel, SafeProvider, AtMost, Value, Plain,
      BoundedCost, RequiredProhibited, Discloses, ClassesOf, Endpoints;
    var c := t.consent.body;
    ConsentMeans(rules, t.consent);
    BoundedIsCostText(rules, c.maximumCost);
    CostIsPositive(c.maximumCost);
    AtMostIsOrder(r.budget, rules.read(c.maximumCost));
    ProhibitedAre();
  }

  /** The resolver returns evidence exactly for requests with bounded sorted lists, a budget of at most 250 whose
      text has at most 32 characters, a provenance, and a profile that fits consent and route. */
  lemma ResolveExact(rules: Rules, r: Request, consent: Option<Trusted>, given: Option<Provenance>, now: int)
    requires Sound(rules) && (consent.Some? ==> TrustedValid(rules, consent.value))
    ensures Resolve(rules, r, consent, given, now).Some? <==>
              && ListOf(ExactModel, r.models, 64) && ListOf(SafeProvider, r.providers, 128)
              && Positive(r.budget) && Value(r.budget) <= 250.0 && |Render(r.budget)| <= 32
              && Provenanced(given, r) && RouteFits(r, consent, now)
  {
    hide SortedSet, CanonicalNames, Sound, ListOf, ExactModel, SafeProvider, AtMost, Value, Render, EvidenceValid,
      ConsentAuthorizes, Permits, TrustedValid, ProvenanceValid, BodyOf;
    CanonicalIsList(ExactModel, r.models, 64);
    CanonicalIsList(SafeProvider, r.providers, 128);
    if Positive(r.budget) {
      AtMostIsOrder(r.budget, MaximumCost());
      TwoHundredFifty();
      if consent.Some? { AuthorizesMeans(rules, consent.value, r, now); }
      if r.profile == Frontier && consent.Some? { FrontierAcknowledges(rules, consent.value, r, now); }
    }
    if Admit(rules, r, consent, given, now).Some? { ResolverMeetsValidator(rules, r, consent, given, now); }
  }

  lemma FrontierAcknowledges(rules: Rules, t: Trusted, r: Request, now: int)
    requires Sound(rules) && TrustedValid(rules, t) && r.profile == Frontier
    ensures Permits(t.consent.body, r, now) ==> t.consent.body.acknowledgesNoZdr
  {
    hide SortedSet, CanonicalNames, Sound, CostText, ListOf, Ascending, ExactModel, SafeProvider, Value, Plain,
      BoundedCost, Discloses, ClassesOf, Endpoints, ConsentValid;
    ConsentMeans(rules, t.consent);
  }

  /** The fields a policy keeps of a consent, if it rests on one. */
  ghost predicate KeepsConsent(b: EvidenceBody, consent: Option<Trusted>) {
    match consent
    case None => WithoutConsent(b)
    case Some(t) =>
      var c, f := t.consent.body, b.consent;
      && b.classes == c.classes && b.disclosures == c.disclosures
      && f.file == Some(t.file) && f.fileSize == Some(t.fileSize) && f.sha256 == Some(t.consent.sha256)
      && f.issuedAt == Some(c.issuedAt) && f.expiresAt == Some(c.expiresAt) && f.maximumCost == Some(c.maximumCost)
      && f.operatorReference == Some(OperatorHash(c.operatorIdentity, c.signature))
  }

  /** The fields a policy keeps of the source's provenance. */
  ghost predicate KeepsProvenance(b: EvidenceBody, given: Option<Provenance>, r: Request, now: int) {
    match given
    case Some(p) =>
      && b.provenance == p.sha256 && b.proofKind == p.body.proofKind && b.commit == p.body.commit
      && b.scope == p.body.scope && b.declaration == p.body.declaration && b.declarationEntry == p.body.declarationEntry
    case None =>
      && b.provenance == ProvenanceHash(ProvenanceBody(PrivateSource, r.source, PrivateDefault, None, None, 0, None,
                                                       None, None, None, now))
      && b.proofKind == PrivateDefault && b.commit.None? && b.scope.None? && b.declaration.None? && b.declarationEntry.None?
  }

  /** What resolved evidence says, on every branch: what was requested, what was proven, what was consented to,
      and the one limitation of the branch. */
  lemma ResolvedSays(rules: Rules, r: Request, consent: Option<Trusted>, given: Option<Provenance>, now: int)
    requires Sound(rules) && (consent.Some? ==> TrustedValid(rules, consent.value))
    requires Resolve(rules, r, consent, given, now).Some?
    ensures var e := Resolve(rules, r, consent, given, now).value;
            var b := e.body;
            && EvidenceValid(rules, e) && e.sha256 == EvidenceHash(b)
            && b.profile == r.profile && b.classification == r.classification && b.source == r.source
            && b.requireZdr == r.requireZdr && b.models == r.models && b.providers == r.providers
            && CostText(b.requestedBudget) && Positive(r.budget)
            && Value(Plain(b.requestedBudget).value) == Value(r.budget)
            && KeepsConsent(b, consent) && KeepsProvenance(b, given, r, now)
            && b.limitations == [rules.text(match r.profile
                                            case StrictZdr => StrictExcludesEndpoints
                                            case Frontier => SomeEndpointNotZdr
                                            case SyntheticBenchmark =>
                                              if consent.None? then SyntheticWithoutConsent
                                              else if r.requireZdr then BenchmarkSourceOnly else SomeEndpointNotZdr)]
  {
    hide SortedSet, CanonicalNames, Sound, ListOf, ExactModel, SafeProvider, AtMost, Value, Render, EvidenceValid,
      ConsentAuthorizes, TrustedValid, ProvenanceValid, CostText, Permits, Plain, SameValue, BudgetAllowed;
    ResolveExact(rules, r, consent, given, now);
    BudgetAllowedMeans(r.budget);
    BudgetText(rules, r.budget);
    BoundedIsCostText(rules, Render(r.budget));
    BoundedByText(rules, r.budget);
    SameValueIsEquality(rules.read(Render(r.budget)), r.budget);
  }

  lemma BudgetAllowedMeans(budget: Decimal)
    requires Positive(budget) && Value(budget) <= 250.0
    ensures BudgetAllowed(budget)
  {
    hide AtMost, Value;
    AtMostIsOrder(budget, MaximumCost());
    TwoHundredFifty();
  }

  lemma BoundedByText(rules: Rules, budget: Decimal)
    requires Sound(rules) && BudgetAllowed(budget) && |Render(budget)| <= 32
    ensures CostText(Render(budget))
  {
    hide Render, CostText, Sound, AtMost;
    BudgetText(rules, budget);
    BoundedIsCostText(rules, Render(budget));
  }

  // ---------------------------------------------------------------- a request beyond the limits

  /** 10 to the power `-k`. */
  function Tiny(k: nat): Decimal {
    Finite(false, 1, 0 - k)
  }

  lemma TinyText(k: nat)
    requires k > 0
    ensures |Render(Tiny(k))| == k + 2
  {
    hide Render;
    RenderFraction(Tiny(k));
    assert Digits(1) == "1";
  }

  lemma TinyAllowed(k: nat)
    ensures BudgetAllowed(Tiny(k))
  {
    hide Pow10;
    Pow10Positive(k);
    assert Pow10(0) == 1 by { Pow10Zero(); }
    var p := Pow10(k);
    assert 1 <= 250 * p;
  }

  lemma Pow10Zero()
    ensures Pow10(0) == 1
  {
  }

  lemma OneName(ok: string -> bool, n: string)
    requires ok(n)
    ensures CanonicalNames(ok, [n])
  {
    IsSortedSet([n]);
  }

  /** A strict request that the resolver's own checks admit and its validator refuses: every budget of 10 to
      the power -31 or less. */
  lemma TinyBudgetRefused(rules: Rules, model: string, provider: string, source: Hash, now: int, k: nat)
    requires Sound(rules) && ExactModel(model) && SafeProvider(provider) && k >= 31
    ensures var r := Request(StrictZdr, true, source, PrivateSource, [model], [provider], Tiny(k));
            && Admit(rules, r, None, None, now).Some?
            && Resolve(rules, r, None, None, now).None?
  {
    hide Render, SortedSet, AtMost, CanonicalNames, EvidenceValid, BudgetAllowed;
    var r := Request(StrictZdr, true, source, PrivateSource, [model], [provider], Tiny(k));
    OneName(ExactModel, model);
    OneName(SafeProvider, provider);
    TinyAllowed(k);
    TinyText(k);
    ResolverMeetsValidator(rules, r, None, None, now);
  }

  /** Every strict request for too many models, or too many providers, is admitted and then refused. */
  lemma LongListsRefused(rules: Rules, models: seq<string>, providers: seq<string>, source: Hash, now: int)
    requires Sound(rules) && CanonicalNames(ExactModel, models) && CanonicalNames(SafeProvider, providers)
    requires |models| > MAX_MODELS || |providers| > MAX_PROVIDERS
    ensures var r := Request(StrictZdr, true, source, PrivateSource, models, providers, Tiny(0));
            && Admit(rules, r, None, None, now).Some?
            && Resolve(rules, r, None, None, now).None?
  {
    hide Render, SortedSet, AtMost, CanonicalNames, EvidenceValid, BudgetAllowed;
    TinyAllowed(0);
    var r := Request(StrictZdr, true, source, PrivateSource, models, providers, Tiny(0));
    ResolverMeetsValidator(rules, r, None, None, now);
  }

  lemma LettersCanonical(n: nat)
    requires n > 0
    ensures n <= 256 ==> CanonicalNames(ExactModel, LetterNames("a/", n))
    ensures n <= 200 ==> CanonicalNames(SafeProvider, LetterNames("", n))
  {
    hide SortedSet, Ascending, ExactModel, SafeProvider;
    LettersAscend("a/", n);
    LettersAscend("", n);
    IsSortedSet(LetterNames("a/", n));
    IsSortedSet(LetterNames("", n));
    forall i | 0 <= i < n && n <= 256 ensures ExactModel(LetterNames("a/", n)[i]) { LettersAccepted(i + 1); }
    forall i | 0 <= i < n && n <= 200 ensures SafeProvider(LetterNames("", n)[i]) {
      LettersAccepted(i + 1);
      assert "" + Letters(i + 1) == Letters(i + 1);
    }
  }

  /** Such requests: 65 models `a/a`, `a/aa` and so on at one provider, and one model at 129 providers. */
  lemma LongListsExist(rules: Rules, source: Hash, now: int)
    requires Sound(rules)
    ensures var r := Request(StrictZdr, true, source, PrivateSource, LetterNames("a/", 65), LetterNames("", 1), Tiny(0));
            Admit(rules, r, None, None, now).Some? && Resolve(rules, r, None, None, now).None?
    ensures var r := Request(StrictZdr, true, source, PrivateSource, LetterNames("a/", 1), LetterNames("", 129), Tiny(0));
            Admit(rules, r, None, None, now).Some? && Resolve(rules, r, None, None, now).None?
  {
    hide Admit, Resolve, CanonicalNames;
    LettersCanonical(65);
    LettersCanonical(129);
    LettersCanonical(1);
    LongListsRefused(rules, LetterNames("a/", 65), LetterNames("", 1), source, now);
    LongListsRefused(rules, LetterNames("a/", 1), LetterNames("", 129), source, now);
  }
}
