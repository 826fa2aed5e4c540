/** A run of load, issue and validate that succeeds: what the theorems on runs speak about can happen. */
module PrivacyExample {
  import opened Text
  import opened Money
  import opened Identifiers
  import opened PrivacyPolicy
  import opened PrivacyAuthority

  function One(): Decimal { Finite(false, 1, 0) }

  /** Consent of one operator to one non-ZDR endpoint, from time 0 to time 10, for up to one dollar. */
  function TheBody(source: Hash): ConsentBody {
    ConsentBody(Frontier, PrivateSource, source, ["a/m"], ["p"], [NonZdr],
                [Disclosure("p", NonZdr, "retention", "policy")], 0, 10, Some("operator"), None, "1",
                RequiredProhibited(), true)
  }

  function TheConsent(source: Hash): Consent {
    Consent(TheBody(source), ConsentHash(TheBody(source)))
  }

  function TheTrusted(source: Hash): Trusted {
    Trusted(source, 1, TheConsent(source))
  }

  function TheFile(source: Hash): ConsentFile {
    ConsentFile(true, source, 1, Some(TheConsent(source)))
  }

  function TheRequest(source: Hash): Request {
    Request(Frontier, false, source, PrivateSource, ["a/m"], ["p"], One())
  }

  lemma TheNames()
    ensures ExactModel("a/m") && SafeProvider("p")
  {
    IndexOfSplit("a", '/', "m");
    assert "a" + ['/'] + "m" == "a/m" && "a/m"[..1] == "a" && "a/m"[2..] == "m";
    assert forall i, j | 0 <= i < j <= 1 :: "m"[i..j] == "m";
    assert |"auto"| > 1 && |"free"| > 1 && |"latest"| > 1 && |"online"| > 1 && |"random"| > 1 && |"router"| > 1;
  }

  lemma OneText()
    ensures Render(One()) == "1" && Canonical("1") && Plain("1") == Some(One())
    ensures SameValue(One(), One()) && AtMost(One(), One()) && AtMost(One(), MaximumCost())
  {
    RenderWhole(One());
    assert Digits(1) + Zeros(0) == "1";
    assert NatOf("1") == 1 by { assert "1"[..0] == ""; }
  }

  lemma OneCost(rules: Rules)
    requires Sound(rules)
    ensures BoundedCost(rules, "1") && rules.read("1") == One() && BudgetAllowed(One())
  {
    hide Render, Canonical, Plain, SameValue, AtMost;
    OneText();
  }

  lemma TheConsentValid(rules: Rules, source: Hash)
    requires Sound(rules)
    ensures ConsentValid(rules, TheConsent(source))
  {
    hide BoundedCost, SortedSet, Sound, RequiredProhibited, BudgetAllowed, AtMost;
    var b := TheBody(source);
    OneCost(rules);
    TheNames();
    OneName(ExactModel, "a/m");
    OneName(SafeProvider, "p");
    assert Endpoints(b.disclosures) == ["p"];
    IsSortedSet(["p"]);
    assert b.disclosures[0].policyClass == NonZdr;
    assert ClassesOf(b.disclosures) == [NonZdr];
  }

  lemma TheRequestResolves(rules: Rules, source: Hash)
    requires Sound(rules)
    ensures Resolve(rules, TheRequest(source), Some(TheTrusted(source)), None, 5).Some?
  {
    hide BoundedCost, SortedSet, Sound, RequiredProhibited, ConsentValid, EvidenceValid, Render, AtMost, ClassesOf,
      CanonicalNames;
    var r, t := TheRequest(source), TheTrusted(source);
    TheConsentValid(rules, source);
    OneCost(rules);
    OneText();
    TheNames();
    OneName(ExactModel, "a/m");
    OneName(SafeProvider, "p");
    assert ConsentAuthorizes(rules, t, r, 5);
    ResolverMeetsValidator(rules, r, Some(t), None, 5);
  }

  function TheEvidence(rules: Rules, source: Hash): Evidence
    requires Resolve(rules, TheRequest(source), Some(TheTrusted(source)), None, 5).Some?
  {
    Resolve(rules, TheRequest(source), Some(TheTrusted(source)), None, 5).value
  }

  /** Loading at some time, issuing at time 5 and validating at time 6. */
  function TheSteps(source: Hash, evidence: Hash): seq<Step> {
    [Load(TheFile(source)), Issue(Some(0), TheRequest(source), None, 5),
     Validate(1, Claim(evidence, source, PrivateSource, None, ["a/m"], ["p"], One()), 6)]
  }

  lemma LoadedState(rules: Rules, source: Hash)
    requires Sound(rules)
    ensures var s := ApplyLoad(rules, Start(), TheFile(source)).0;
            && s.next == 1 && s.liveAuthorizations == map[]
            && TrustedObservation(rules, s, Some(0)) == Some(TheTrusted(source))
  {
    hide ConsentValid;
    TheConsentValid(rules, source);
  }

  lemma IssuedFacts(rules: Rules, source: Hash)
    requires Sound(rules) && Resolve(rules, TheRequest(source), Some(TheTrusted(source)), None, 5).Some?
    ensures var e := TheEvidence(rules, source);
            && EvidenceValid(rules, e) && !e.body.requireZdr && e.body.profile == Frontier
            && ClaimMatches(rules, e, Claim(e.sha256, source, PrivateSource, None, ["a/m"], ["p"], One()), 6)
  {
    hide BoundedCost, SortedSet, Sound, RequiredProhibited, ConsentValid, EvidenceValid, Render, AtMost, ClassesOf,
      CanonicalNames, BudgetAllowed, SameValue;
    OneCost(rules);
    OneText();
    TheNames();
    OneName(ExactModel, "a/m");
    OneName(SafeProvider, "p");
    ResolvedUnderConsent(rules, TheRequest(source), TheTrusted(source), None, 5, TheEvidence(rules, source));
  }

  /** The run ends in a successful validation. */
  lemma ValidationCanSucceed(rules: Rules, source: Hash)
    requires Sound(rules)
    ensures Resolve(rules, TheRequest(source), Some(TheTrusted(source)), None, 5).Some?
    ensures var e := TheEvidence(rules, source);
            OutcomeAt(rules, TheSteps(source, e.sha256), 2) == Validated(e)
  {
    hide Sound, Resolve, EvidenceValid, ConsentValid, ClaimMatches, TrustedObservation, TheTrusted, ApplyLoad, TheFile,
      TheEvidence;
    TheRequestResolves(rules, source);
    var e := TheEvidence(rules, source);
    assert Resolve(rules, TheRequest(source), Some(TheTrusted(source)), None, 5) == Some(e) by { IssuedIs(rules, source); }
    IssuedFacts(rules, source);
    LoadedState(rules, source);
    var steps := TheSteps(source, e.sha256);
    assert steps[..2][..1] == steps[..1] && steps[..1][..0] == [];
    var s0 := After(rules, []);
    var s1 := After(rules, steps[..1]);
    assert s1 == ApplyLoad(rules, Start(), TheFile(source)).0;
    var s2 := After(rules, steps[..2]);
    assert steps[..2][1] == steps[1];
    assert s2 == ApplyIssue(rules, s1, Some(0), TheRequest(source), None, 5).0;
  }

  lemma IssuedIs(rules: Rules, source: Hash)
    requires Resolve(rules, TheRequest(source), Some(TheTrusted(source)), None, 5).Some?
    ensures Resolve(rules, TheRequest(source), Some(TheTrusted(source)), None, 5) == Some(TheEvidence(rules, source))
  {
    hide Resolve;
  }
}
