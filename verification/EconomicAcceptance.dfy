/** Reconciliation of the economic acceptance portfolio: the builder's explicit checks, the outcome and
    report validators written apart from it, and the verdict as a matter of summed totals. */
module EconomicAcceptance {
  import opened Text

  const MAX_CONTRACTS := 20

  datatype Case = Case(ticket: string, fixture: string, unsafe: seq<string>, safe: seq<string>)

  /** Contract outcomes of two unsafe campaigns and a safe one. */
  datatype Observation = Observation(
    ticket: string,
    firstExecuted: seq<string>,
    firstCounterexamples: seq<string>,
    secondExecuted: seq<string>,
    secondCounterexamples: seq<string>,
    safeExecuted: seq<string>,
    safePassed: seq<string>)

  datatype Outcome = Outcome(
    ticket: string,
    fixture: string,
    applicable: nat,
    executed: nat,
    planted: seq<string>,
    executedUnsafe: seq<string>,
    reproduced: seq<string>,
    nearMisses: seq<string>,
    executedSafe: seq<string>,
    unconfirmed: seq<string>,
    allExecuted: bool,
    replayConfirmed: bool,
    safeUnconfirmed: bool,
    passed: bool)

  datatype Report = Report(
    passed: bool,
    totalCases: nat,
    applicable: nat,
    executed: nat,
    planted: nat,
    reproduced: nat,
    nearMisses: nat,
    unconfirmed: nat,
    outcomes: seq<Outcome>)

  // ---------------------------------------------------------------- the validators

  predicate SortedNames(s: seq<string>) {
    s == SortedSet(s)
  }

  predicate Within(a: seq<string>, b: seq<string>) {
    forall x :: x in a ==> x in b
  }

  /** `EconomicAcceptanceCase`, as far as it concerns the contracts. */
  predicate CaseValid(c: Case) {
    && 1 <= |c.unsafe| <= MAX_CONTRACTS && 1 <= |c.safe| <= MAX_CONTRACTS
    && SortedNames(c.unsafe) && SortedNames(c.safe)
    && forall x :: x in c.unsafe ==> x !in c.safe
  }

  predicate ObservationValid(o: Observation) {
    && |o.firstExecuted| <= MAX_CONTRACTS && SortedNames(o.firstExecuted)
    && |o.firstCounterexamples| <= MAX_CONTRACTS && SortedNames(o.firstCounterexamples)
    && |o.secondExecuted| <= MAX_CONTRACTS && SortedNames(o.secondExecuted)
    && |o.secondCounterexamples| <= MAX_CONTRACTS && SortedNames(o.secondCounterexamples)
    && |o.safeExecuted| <= MAX_CONTRACTS && SortedNames(o.safeExecuted)
    && |o.safePassed| <= MAX_CONTRACTS && SortedNames(o.safePassed)
  }

  /** `outcome_counts_and_status_are_consistent`, with the field bounds. */
  predicate OutcomeValid(o: Outcome) {
    && 2 <= o.applicable <= 2 * MAX_CONTRACTS && o.executed <= 2 * MAX_CONTRACTS
    && 1 <= |o.planted| <= MAX_CONTRACTS && |o.executedUnsafe| <= MAX_CONTRACTS && |o.reproduced| <= MAX_CONTRACTS
    && 1 <= |o.nearMisses| <= MAX_CONTRACTS && |o.executedSafe| <= MAX_CONTRACTS && |o.unconfirmed| <= MAX_CONTRACTS
    && SortedNames(o.planted) && SortedNames(o.executedUnsafe) && SortedNames(o.reproduced)
    && SortedNames(o.nearMisses) && SortedNames(o.executedSafe) && SortedNames(o.unconfirmed)
    && o.applicable == |o.planted| + |o.nearMisses|
    && Within(o.executedUnsafe, o.planted) && Within(o.reproduced, o.executedUnsafe)
    && Within(o.executedSafe, o.nearMisses) && Within(o.unconfirmed, o.executedSafe)
    && o.executed == |o.executedUnsafe| + |o.executedSafe|
    && o.allExecuted == (o.executedUnsafe == o.planted && o.executedSafe == o.nearMisses)
    && o.replayConfirmed == (o.reproduced == o.planted)
    && o.safeUnconfirmed == (o.unconfirmed == o.nearMisses)
    && o.passed == (o.allExecuted && o.replayConfirmed && o.safeUnconfirmed)
  }

  function Tickets(outcomes: seq<Outcome>): seq<string> {
    seq(|outcomes|, i requires 0 <= i < |outcomes| => outcomes[i].ticket)
  }

  function Sum(f: Outcome -> nat, outcomes: seq<Outcome>): nat {
    if outcomes == [] then 0 else Sum(f, outcomes[..|outcomes| - 1]) + f(outcomes[|outcomes| - 1])
  }

  predicate AllPassed(outcomes: seq<Outcome>) {
    forall i :: 0 <= i < |outcomes| ==> outcomes[i].passed
  }

  /** `totals_and_status_are_consistent` for the required tickets, with the field bounds. */
  predicate ReportValid(required: seq<string>, r: Report) {
    var n := |required|;
    && r.totalCases == n && |r.outcomes| == n
    && 2 * n <= r.applicable <= 40 * n && r.executed <= 40 * n
    && n <= r.planted <= 20 * n && r.reproduced <= 20 * n
    && n <= r.nearMisses <= 20 * n && r.unconfirmed <= 20 * n
    && (forall i :: 0 <= i < n ==> OutcomeValid(r.outcomes[i]))
    && Tickets(r.outcomes) == required
    && r.applicable == Sum((o: Outcome) => o.applicable, r.outcomes)
    && r.executed == Sum((o: Outcome) => o.executed, r.outcomes)
    && r.planted == Sum((o: Outcome) => |o.planted|, r.outcomes)
    && r.reproduced == Sum((o: Outcome) => |o.reproduced|, r.outcomes)
    && r.nearMisses == Sum((o: Outcome) => |o.nearMisses|, r.outcomes)
    && r.unconfirmed == Sum((o: Outcome) => |o.unconfirmed|, r.outcomes)
    && r.passed == AllPassed(r.outcomes)
  }

  // ---------------------------------------------------------------- the verdict is in the totals

  lemma SubsetLength(a: seq<string>, b: seq<string>)
    requires SortedNames(a) && SortedNames(b) && Within(a, b)
    ensures |a| <= |b| && (|a| == |b| <==> a == b)
  {
    hide SortedSet;
    IsSortedSet(a);
    IsSortedSet(b);
    AscendingSize(a);
    AscendingSize(b);
    assert Elements(a) <= Elements(b);
    var rest := Elements(b) - Elements(a);
    assert Elements(b) == Elements(a) + rest;
    if |a| == |b| {
      assert rest == {};
      AscendingUnique(a, b);
    }
  }

  lemma WithinTransitive(a: seq<string>, b: seq<string>, c: seq<string>)
    requires Within(a, b) && Within(b, c)
    ensures Within(a, c)
  {
  }

  /** One case: counts never exceed what is applicable, and it passed exactly when all three counts are full. */
  lemma CaseTotals(o: Outcome)
    requires OutcomeValid(o)
    ensures o.executed <= o.applicable && |o.reproduced| <= |o.planted| && |o.unconfirmed| <= |o.nearMisses|
    ensures o.passed <==>
              o.executed == o.applicable && |o.reproduced| == |o.planted| && |o.unconfirmed| == |o.nearMisses|
  {
    hide SortedNames, Within;
    SubsetLength(o.executedUnsafe, o.planted);
    SubsetLength(o.executedSafe, o.nearMisses);
    WithinTransitive(o.reproduced, o.executedUnsafe, o.planted);
    SubsetLength(o.reproduced, o.planted);
    WithinTransitive(o.unconfirmed, o.executedSafe, o.nearMisses);
    SubsetLength(o.unconfirmed, o.nearMisses);
  }

  /** Sums of values that never exceed their partners are equal exactly when all the values are. */
  lemma {:induction false} SumsEqual(f: Outcome -> nat, g: Outcome -> nat, outcomes: seq<Outcome>)
    requires forall i :: 0 <= i < |outcomes| ==> f(outcomes[i]) <= g(outcomes[i])
    ensures Sum(f, outcomes) <= Sum(g, outcomes)
    ensures Sum(f, outcomes) == Sum(g, outcomes) <==>
              forall i :: 0 <= i < |outcomes| ==> f(outcomes[i]) == g(outcomes[i])
    decreases |outcomes|
  {
    if outcomes != [] {
      var n := |outcomes| - 1;
      SumsEqual(f, g, outcomes[..n]);
      assert forall i :: 0 <= i < n ==> outcomes[..n][i] == outcomes[i];
      if Sum(f, outcomes) == Sum(g, outcomes) {
        forall i | 0 <= i < |outcomes| ensures f(outcomes[i]) == g(outcomes[i]) {
          if i < n { assert outcomes[..n][i] == outcomes[i]; }
        }
      }
    }
  }

  lemma {:induction false} SumBounds(f: Outcome -> nat, outcomes: seq<Outcome>, low: nat, high: nat)
    requires forall i :: 0 <= i < |outcomes| ==> low <= f(outcomes[i]) <= high
    ensures low * |outcomes| <= Sum(f, outcomes) <= high * |outcomes|
    decreases |outcomes|
  {
    if outcomes != [] {
      var n := |outcomes| - 1;
      SumBounds(f, outcomes[..n], low, high);
      OneMore(low, n);
      OneMore(high, n);
    }
  }

  lemma OneMore(k: nat, n: nat)
    ensures k * (n + 1) == k * n + k
  {
  }

  /** For any number of cases, all of them passed exactly when the three summed totals are full. */
  lemma TotalsDecide(required: seq<string>, r: Report)
    requires ReportValid(required, r)
    ensures r.passed <==>
              r.executed == r.applicable && r.reproduced == r.planted && r.unconfirmed == r.nearMisses
  {
    hide OutcomeValid, Sum, Tickets;
    forall i | 0 <= i < |r.outcomes|
      ensures var o := r.outcomes[i];
              && o.executed <= o.applicable && |o.reproduced| <= |o.planted| && |o.unconfirmed| <= |o.nearMisses|
              && (o.passed <==> o.executed == o.applicable && |o.reproduced| == |o.planted|
                                && |o.unconfirmed| == |o.nearMisses|)
    {
      CaseTotals(r.outcomes[i]);
    }
    SumsEqual((o: Outcome) => o.executed, (o: Outcome) => o.applicable, r.outcomes);
    SumsEqual((o: Outcome) => |o.reproduced|, (o: Outcome) => |o.planted|, r.outcomes);
    SumsEqual((o: Outcome) => |o.unconfirmed|, (o: Outcome) => |o.nearMisses|, r.outcomes);
  }

  // ---------------------------------------------------------------- the builder

  /** The builder's explicit checks on one case. */
  predicate Reconciles(c: Case, o: Observation) {
    && Within(o.firstExecuted, c.unsafe) && Within(o.firstCounterexamples, c.unsafe)
    && Within(o.secondExecuted, c.unsafe) && Within(o.secondCounterexamples, c.unsafe)
    && Within(o.safeExecuted, c.safe) && Within(o.safePassed, c.safe)
    && Within(o.firstCounterexamples, o.firstExecuted)
    && Within(o.secondCounterexamples, o.secondExecuted)
    && Within(o.safePassed, o.safeExecuted)
  }

  /** The elements of both sequences. */
  function Common(a: seq<string>, b: seq<string>): seq<string> {
    if a == [] then [] else (if a[0] in b then [a[0]] else []) + Common(a[1..], b)
  }

  lemma {:induction false} CommonMembers(a: seq<string>, b: seq<string>, x: string)
    ensures x in Common(a, b) <==> x in a && x in b
    decreases |a|
  {
    if a != [] { CommonMembers(a[1..], b, x); }
  }

  /** `sorted(set(a) & set(b))`. */
  function Both(a: seq<string>, b: seq<string>): seq<string> {
    SortedSet(Common(a, b))
  }

  lemma BothIs(a: seq<string>, b: seq<string>)
    ensures SortedNames(Both(a, b))
    ensures forall x :: x in Both(a, b) <==> x in a && x in b
  {
    hide SortedSet;
    SortedSetCorrect(Common(a, b));
    IsSortedSet(Both(a, b));
    forall x ensures x in Both(a, b) <==> x in a && x in b {
      CommonMembers(a, b, x);
      assert x in Both(a, b) <==> x in Elements(Both(a, b));
      assert x in Common(a, b) <==> x in Elements(Common(a, b));
    }
  }

  function OutcomeOf(c: Case, o: Observation): Outcome {
    var executedUnsafe := Both(o.firstExecuted, o.secondExecuted);
    var executedSafe := Sort(o.safeExecuted);
    var reproduced := Both(o.firstCounterexamples, o.secondCounterexamples);
    var unconfirmed := Sort(o.safePassed);
    Outcome(
      c.ticket, c.fixture, |c.unsafe| + |c.safe|, |executedUnsafe| + |executedSafe|,
      c.unsafe, executedUnsafe, reproduced, c.safe, executedSafe, unconfirmed,
      executedUnsafe == c.unsafe && executedSafe == c.safe,
      reproduced == c.unsafe,
      unconfirmed == c.safe,
      executedUnsafe == c.unsafe && executedSafe == c.safe && reproduced == c.unsafe && unconfirmed == c.safe)
  }

  lemma SortSorted(s: seq<string>)
    requires SortedNames(s)
    ensures Sort(s) == s
  {
    hide SortedSet, Sort;
    IsSortedSet(s);
    forall i, j | 0 <= i < j < |s| ensures s[i] != s[j] { LessAsymmetric(s[i], s[j]); }
    SortDistinct(s);
  }

  /** The explicit checks are enough: the outcome validator never refuses what they let through. */
  lemma ReconciledOutcomeValid(c: Case, o: Observation)
    requires CaseValid(c) && ObservationValid(o) && Reconciles(c, o)
    ensures OutcomeValid(OutcomeOf(c, o))
  {
    hide SortedNames, Both, Sort;
    BothIs(o.firstExecuted, o.secondExecuted);
    BothIs(o.firstCounterexamples, o.secondCounterexamples);
    SortSorted(o.safeExecuted);
    SortSorted(o.safePassed);
    var r := OutcomeOf(c, o);
    SubsetLength(r.executedUnsafe, c.unsafe);
    WithinTransitive(r.reproduced, r.executedUnsafe, c.unsafe);
    SubsetLength(r.reproduced, c.unsafe);
    SubsetLength(r.executedSafe, c.safe);
    SubsetLength(r.unconfirmed, c.safe);
  }

  /** What an outcome means, contract by contract: executed and reproduced unsafe contracts are those of both
      campaigns, and the case passed exactly when every planted contract gave a counterexample in both
      campaigns and every safe one ran and stayed unconfirmed. */
  lemma OutcomeMeans(c: Case, o: Observation)
    requires CaseValid(c) && ObservationValid(o) && Reconciles(c, o)
    ensures var r := OutcomeOf(c, o);
            && (forall x :: x in r.executedUnsafe <==> x in o.firstExecuted && x in o.secondExecuted)
            && (forall x :: x in r.reproduced <==> x in o.firstCounterexamples && x in o.secondCounterexamples)
            && (forall x :: x in r.executedSafe <==> x in o.safeExecuted)
            && (forall x :: x in r.unconfirmed <==> x in o.safePassed)
            && (r.passed <==>
                  && (forall x :: x in c.unsafe ==> x in o.firstCounterexamples && x in o.secondCounterexamples)
                  && (forall x :: x in c.safe ==> x in o.safePassed))
  {
    hide SortedNames, Both, Sort;
    BothIs(o.firstExecuted, o.secondExecuted);
    BothIs(o.firstCounterexamples, o.secondCounterexamples);
    SortSorted(o.safeExecuted);
    SortSorted(o.safePassed);
    var r := OutcomeOf(c, o);
    if (forall x :: x in c.unsafe ==> x in o.firstCounterexamples && x in o.secondCounterexamples)
       && forall x :: x in c.safe ==> x in o.safePassed
    {
      SameNames(r.executedUnsafe, c.unsafe);
      SameNames(r.reproduced, c.unsafe);
      SameNames(r.executedSafe, c.safe);
      SameNames(r.unconfirmed, c.safe);
    }
  }

  lemma SameNames(a: seq<string>, b: seq<string>)
    requires SortedNames(a) && SortedNames(b) && Within(a, b) && Within(b, a)
    ensures a == b
  {
    hide SortedSet;
    IsSortedSet(a);
    IsSortedSet(b);
    forall x ensures x in Elements(a) <==> x in Elements(b) {
      assert x in a <==> x in Elements(a);
      assert x in b <==> x in Elements(b);
    }
    AscendingUnique(a, b);
  }

  predicate Unique(observations: seq<Observation>) {
    forall i, j :: 0 <= i < j < |observations| ==> observations[i].ticket != observations[j].ticket
  }

  predicate Covers(observations: seq<Observation>, required: seq<string>) {
    && (forall i :: 0 <= i < |observations| ==> observations[i].ticket in required)
    && (forall t :: t in required ==> exists i :: 0 <= i < |observations| && observations[i].ticket == t)
  }

  /** The observation of a ticket: the last one, as in a dictionary filled in order. */
  function ByTicket(observations: seq<Observation>, ticket: string): (o: Option<Observation>)
    ensures o.Some? ==> o.value in observations && o.value.ticket == ticket
    ensures o.None? ==> forall i :: 0 <= i < |observations| ==> observations[i].ticket != ticket
  {
    if observations == [] then None
    else
      var last := observations[|observations| - 1];
      if last.ticket == ticket then Some(last) else ByTicket(observations[..|observations| - 1], ticket)
  }

  /** What the builder demands beyond valid inputs. */
  ghost predicate Buildable(required: seq<string>, cases: seq<Case>, observations: seq<Observation>) {
    && Unique(observations) && Covers(observations, required)
    && forall i :: 0 <= i < |cases| ==>
         var o := ByTicket(observations, cases[i].ticket);
         o.Some? && Reconciles(cases[i], o.value)
  }

  function CaseTickets(cases: seq<Case>): seq<string> {
    seq(|cases|, i requires 0 <= i < |cases| => cases[i].ticket)
  }

  lemma CoveredTicket(observations: seq<Observation>, required: seq<string>, ticket: string)
    requires Covers(observations, required) && ticket in required
    ensures ByTicket(observations, ticket).Some?
  {
  }

  /** `build_economic_acceptance_report`: on a valid manifest and valid observations it returns exactly
      when its explicit checks pass; the report then passes the validator, holds one outcome a case,
      and its verdict is the three summed totals being full. */
  method BuildReport(required: seq<string>, cases: seq<Case>, observations: seq<Observation>) returns (r: Result<Report>)
    requires CaseTickets(cases) == required && forall i :: 0 <= i < |cases| ==> CaseValid(cases[i])
    requires forall i :: 0 <= i < |observations| ==> ObservationValid(observations[i])
    ensures r.Ok? <==> Buildable(required, cases, observations)
    ensures r.Ok? ==> ReportValid(required, r.value)
    ensures r.Ok? ==> forall i :: 0 <= i < |cases| ==>
              r.value.outcomes[i] == OutcomeOf(cases[i], ByTicket(observations, cases[i].ticket).value)
    ensures r.Ok? ==>
              (r.value.passed <==> && r.value.executed == r.value.applicable
                                   && r.value.reproduced == r.value.planted
                                   && r.value.unconfirmed == r.value.nearMisses)
  {
    hide OutcomeOf, OutcomeValid, Reconciles, ObservationValid, CaseValid, Sum, ByTicket;
    if !Unique(observations) || !Covers(observations, required) {
      return Err;
    }
    var outcomes: seq<Outcome> := [];
    var i := 0;
    while i < |cases|
      invariant i <= |cases| && |outcomes| == i
      invariant forall j :: 0 <= j < i ==>
        var o := ByTicket(observations, cases[j].ticket);
        o.Some? && Reconciles(cases[j], o.value) && outcomes[j] == OutcomeOf(cases[j], o.value) && OutcomeValid(outcomes[j])
    {
      assert CaseTickets(cases)[i] == cases[i].ticket;
      CoveredTicket(observations, required, cases[i].ticket);
      var observation := ByTicket(observations, cases[i].ticket).value;
      if !Reconciles(cases[i], observation) {
        return Err;
      }
      ReconciledOutcomeValid(cases[i], observation);
      outcomes := outcomes + [OutcomeOf(cases[i], observation)];
      i := i + 1;
    }
    var report := Report(
      AllPassed(outcomes), |outcomes|,
      Sum((o: Outcome) => o.applicable, outcomes), Sum((o: Outcome) => o.executed, outcomes),
      Sum((o: Outcome) => |o.planted|, outcomes), Sum((o: Outcome) => |o.reproduced|, outcomes),
      Sum((o: Outcome) => |o.nearMisses|, outcomes), Sum((o: Outcome) => |o.unconfirmed|, outcomes),
      outcomes);
    forall j | 0 <= j < |outcomes| ensures outcomes[j].ticket == cases[j].ticket { TicketKept(cases[j], outcomes[j], observations); }
    assert Tickets(outcomes) == CaseTickets(cases);
    TotalsBounded(outcomes);
    assert ReportValid(required, report);
    TotalsDecide(required, report);
    return Ok(report);
  }

  lemma TicketKept(c: Case, r: Outcome, observations: seq<Observation>)
    requires ByTicket(observations, c.ticket).Some? && r == OutcomeOf(c, ByTicket(observations, c.ticket).value)
    ensures r.ticket == c.ticket
  {
  }

  /** The totals of valid outcomes are within the report's bounds. */
  lemma TotalsBounded(outcomes: seq<Outcome>)
    requires forall i :: 0 <= i < |outcomes| ==> OutcomeValid(outcomes[i])
    ensures 2 * |outcomes| <= Sum((o: Outcome) => o.applicable, outcomes) <= 40 * |outcomes|
    ensures Sum((o: Outcome) => o.executed, outcomes) <= 40 * |outcomes|
    ensures |outcomes| <= Sum((o: Outcome) => |o.planted|, outcomes) <= 20 * |outcomes|
    ensures Sum((o: Outcome) => |o.reproduced|, outcomes) <= 20 * |outcomes|
    ensures |outcomes| <= Sum((o: Outcome) => |o.nearMisses|, outcomes) <= 20 * |outcomes|
    ensures Sum((o: Outcome) => |o.unconfirmed|, outcomes) <= 20 * |outcomes|
  {
    hide SortedNames, Within, Sum;
    SumBounds((o: Outcome) => o.applicable, outcomes, 2, 40);
    SumBounds((o: Outcome) => o.executed, outcomes, 0, 40);
    SumBounds((o: Outcome) => |o.planted|, outcomes, 1, 20);
    SumBounds((o: Outcome) => |o.reproduced|, outcomes, 0, 20);
    SumBounds((o: Outcome) => |o.nearMisses|, outcomes, 1, 20);
    SumBounds((o: Outcome) => |o.unconfirmed|, outcomes, 0, 20);
  }

  // ---------------------------------------------------------------- contract by contract

  /** The explicit checks, one contract at a time: every contract observed is one of the case, and one with a
      counterexample or a pass was executed in the same campaign. */
  lemma ReconcilesMeans(c: Case, o: Observation)
    ensures Reconciles(c, o) <==>
              && (forall x :: x in o.firstCounterexamples ==> x in o.firstExecuted)
              && (forall x :: x in o.secondCounterexamples ==> x in o.secondExecuted)
              && (forall x :: x in o.firstExecuted || x in o.secondExecuted ==> x in c.unsafe)
              && (forall x :: x in o.safePassed ==> x in o.safeExecuted) && (forall x :: x in o.safeExecuted ==> x in c.safe)
  {
  }

  /** The rest of an outcome: whose it is, its lists and counts, and its three flags. */
  lemma OutcomeSays(c: Case, o: Observation)
    requires CaseValid(c) && ObservationValid(o) && Reconciles(c, o)
    ensures var r := OutcomeOf(c, o);
            && r.ticket == c.ticket && r.fixture == c.fixture && r.planted == c.unsafe && r.nearMisses == c.safe
            && Ascending(r.executedUnsafe) && Ascending(r.reproduced) && Ascending(r.executedSafe) && Ascending(r.unconfirmed)
            && r.applicable == |Elements(c.unsafe) + Elements(c.safe)|
            && r.executed == |(Elements(o.firstExecuted) * Elements(o.secondExecuted)) + Elements(o.safeExecuted)|
            && (r.allExecuted <==>
                  && (forall x :: x in c.unsafe ==> x in o.firstExecuted && x in o.secondExecuted)
                  && (forall x :: x in c.safe ==> x in o.safeExecuted))
            && (r.replayConfirmed <==>
                  forall x :: x in c.unsafe ==> x in o.firstCounterexamples && x in o.secondCounterexamples)
            && (r.safeUnconfirmed <==> forall x :: x in c.safe ==> x in o.safePassed)
  {
    hide SortedNames, Both, Sort, Ascending;
    BothIs(o.firstExecuted, o.secondExecuted);
    BothIs(o.firstCounterexamples, o.secondCounterexamples);
    SortSorted(o.safeExecuted);
    SortSorted(o.safePassed);
    var r := OutcomeOf(c, o);
    NamesAre(r.executedUnsafe);
    NamesAre(r.reproduced);
    NamesAre(r.executedSafe);
    NamesAre(r.unconfirmed);
    NamesAre(c.unsafe);
    NamesAre(c.safe);
    DisjointCount(c.unsafe, c.safe);
    DisjointCount(r.executedUnsafe, r.executedSafe);
    assert Elements(r.executedUnsafe) == Elements(o.firstExecuted) * Elements(o.secondExecuted);
    SameNamesIff(r.executedUnsafe, c.unsafe);
    SameNamesIff(r.reproduced, c.unsafe);
    SameNamesIff(r.executedSafe, c.safe);
    SameNamesIff(r.unconfirmed, c.safe);
  }

  lemma NamesAre(s: seq<string>)
    requires SortedNames(s)
    ensures Ascending(s) && |Elements(s)| == |s|
  {
    hide SortedSet, Ascending;
    IsSortedSet(s);
    AscendingSize(s);
  }

  lemma DisjointCount(a: seq<string>, b: seq<string>)
    requires |Elements(a)| == |a| && |Elements(b)| == |b| && forall x :: x in a ==> x !in b
    ensures |Elements(a) + Elements(b)| == |a| + |b|
  {
    assert Elements(a) * Elements(b) == {};
    assert |Elements(a) + Elements(b)| == |Elements(a)| + |Elements(b)|;
  }

  lemma SameNamesIff(a: seq<string>, b: seq<string>)
    requires SortedNames(a) && SortedNames(b) && Within(a, b)
    ensures a == b <==> Within(b, a)
  {
    hide SortedNames;
    if Within(b, a) { SameNames(a, b); }
  }

  /** A case has between one and twenty sorted contracts of each kind, none of both. */
  lemma CaseMeans(c: Case)
    ensures CaseValid(c) <==>
              && 1 <= |c.unsafe| <= 20 && Ascending(c.unsafe) && 1 <= |c.safe| <= 20 && Ascending(c.safe)
              && Elements(c.unsafe) * Elements(c.safe) == {}
  {
    hide SortedSet, Ascending;
    assert forall x :: x in Elements(c.unsafe) * Elements(c.safe) <==> x in c.unsafe && x in c.safe;
    IsSortedSet(c.unsafe);
    IsSortedSet(c.safe);
  }

  /** What an accepted report says of its totals: one outcome for each required ticket, in order, and each total
      the sum over the outcomes. */
  lemma ReportSays(required: seq<string>, r: Report)
    requires ReportValid(required, r)
    ensures r.totalCases == |required| == |r.outcomes|
    ensures forall i :: 0 <= i < |required| ==> r.outcomes[i].ticket == required[i]
    ensures r.executed <= r.applicable && r.reproduced <= r.planted && r.unconfirmed <= r.nearMisses
    ensures r.applicable == r.planted + r.nearMisses
    ensures r.passed <==> forall o :: o in r.outcomes ==> o.passed
  {
    hide OutcomeValid, Sum;
    forall i | 0 <= i < |required| ensures r.outcomes[i].ticket == required[i] { assert Tickets(r.outcomes)[i] == required[i]; }
    TotalsAdd(r.outcomes);
    forall i | 0 <= i < |r.outcomes|
      ensures var o := r.outcomes[i];
              o.executed <= o.applicable && |o.reproduced| <= |o.planted| && |o.unconfirmed| <= |o.nearMisses|
    {
      CaseTotals(r.outcomes[i]);
    }
    SumsEqual((o: Outcome) => o.executed, (o: Outcome) => o.applicable, r.outcomes);
    SumsEqual((o: Outcome) => |o.reproduced|, (o: Outcome) => |o.planted|, r.outcomes);
    SumsEqual((o: Outcome) => |o.unconfirmed|, (o: Outcome) => |o.nearMisses|, r.outcomes);
    assert forall i :: 0 <= i < |r.outcomes| ==> r.outcomes[i] in r.outcomes;
  }

  lemma {:induction false} TotalsAdd(outcomes: seq<Outcome>)
    requires forall i :: 0 <= i < |outcomes| ==> OutcomeValid(outcomes[i])
    ensures Sum((o: Outcome) => o.applicable, outcomes) ==
            Sum((o: Outcome) => |o.planted|, outcomes) + Sum((o: Outcome) => |o.nearMisses|, outcomes)
    decreases |outcomes|
  {
    hide SortedNames, Within;
    if outcomes != [] { TotalsAdd(outcomes[..|outcomes| - 1]); }
  }

  /** Observed contracts come in six sorted lists of at most twenty. */
  lemma ObservationMeans(o: Observation)
    ensures ObservationValid(o) <==>
              && |o.firstExecuted| <= 20 && |o.firstCounterexamples| <= 20 && |o.secondExecuted| <= 20
              && |o.secondCounterexamples| <= 20 && |o.safeExecuted| <= 20 && |o.safePassed| <= 20
              && Ascending(o.firstExecuted) && Ascending(o.firstCounterexamples) && Ascending(o.secondExecuted)
              && Ascending(o.secondCounterexamples) && Ascending(o.safeExecuted) && Ascending(o.safePassed)
  {
    hide SortedSet, Ascending;
    IsSortedSet(o.firstExecuted);
    IsSortedSet(o.firstCounterexamples);
    IsSortedSet(o.secondExecuted);
    IsSortedSet(o.secondCounterexamples);
    IsSortedSet(o.safeExecuted);
    IsSortedSet(o.safePassed);
  }

  /** A report is built exactly when each required ticket is observed once, no other is, and each case's observation
      passes the explicit checks. */
  lemma BuildableMeans(required: seq<string>, cases: seq<Case>, observations: seq<Observation>)
    requires CaseTickets(cases) == required
    ensures Buildable(required, cases, observations) <==>
              && (forall i, j :: 0 <= i < j < |observations| ==> observations[i].ticket != observations[j].ticket)
              && (forall o :: o in observations ==> o.ticket in required)
              && (forall c :: c in cases ==> exists o :: o in observations && o.ticket == c.ticket && Reconciles(c, o))
  {
    hide Reconciles, ByTicket;
    var tickets := CaseTickets(cases);
    forall t ensures t in required <==> exists c :: c in cases && c.ticket == t {
      if t in required {
        var i :| 0 <= i < |tickets| && tickets[i] == t;
        assert cases[i] in cases;
      }
      if c :| c in cases && c.ticket == t {
        var i :| 0 <= i < |cases| && cases[i] == c;
        assert tickets[i] == t;
      }
    }
    assert forall i :: 0 <= i < |observations| ==> observations[i] in observations;
    if Unique(observations) {
      forall c: Case, o | o in observations && o.ticket == c.ticket ensures ByTicket(observations, c.ticket) == Some(o) {
        OneObservation(observations, o);
      }
    }
    if Buildable(required, cases, observations) {
      forall c | c in cases ensures exists o :: o in observations && o.ticket == c.ticket && Reconciles(c, o) {
        var i :| 0 <= i < |cases| && cases[i] == c;
        var o := ByTicket(observations, c.ticket).value;
        assert o in observations && o.ticket == c.ticket && Reconciles(c, o);
      }
    }
  }

  lemma OneObservation(observations: seq<Observation>, o: Observation)
    requires Unique(observations) && o in observations
    ensures ByTicket(observations, o.ticket) == Some(o)
  {
    var found := ByTicket(observations, o.ticket);
    var i :| 0 <= i < |observations| && observations[i] == o;
    var j :| 0 <= j < |observations| && observations[j] == found.value;
  }
}
