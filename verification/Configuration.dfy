/** Configuration hardening: nested overrides, and the maximum-assurance transform that copies a
    configuration without validating it again. */
module Configuration {
  import opened Text

  // ---------------------------------------------------------------- nested overrides

  /** A configuration value: a scalar or a dictionary of values. */
  datatype Value = Scalar(text: string) | Dict(entries: map<string, Value>)

  type Data = map<string, Value>

  function Get(d: Data, path: seq<string>): Option<Value>
    requires path != []
    decreases |path|
  {
    if path[0] !in d then None
    else if |path| == 1 then Some(d[path[0]])
    else if d[path[0]].Dict? then Get(d[path[0]].entries, path[1..])
    else None
  }

  /** `_set_nested`; None when the way leads through something that is not a dictionary. */
  function SetNested(d: Data, path: seq<string>, v: Value): Option<Data>
    requires path != []
    decreases |path|
  {
    if |path| == 1 then Some(d[path[0] := v])
    else
      var below := if path[0] in d then d[path[0]] else Dict(map[]);
      if !below.Dict? then None
      else
        var changed := SetNested(below.entries, path[1..], v);
        if changed.None? then None else Some(d[path[0] := Dict(changed.value)])
  }

  predicate IsPrefix(p: seq<string>, q: seq<string>) {
    |p| <= |q| && q[..|p|] == p
  }

  lemma PrefixTail(p: seq<string>, q: seq<string>)
    requires p != [] && q != [] && p[0] == q[0]
    ensures IsPrefix(p, q) <==> IsPrefix(p[1..], q[1..])
    ensures |p| == 1 ==> IsPrefix(p, q)
  {
    if |p| <= |q| {
      assert q[..|p|] == [q[0]] + q[1..][..|p| - 1];
      assert p == [p[0]] + p[1..];
    }
  }

  lemma {:induction false} SetThenGet(d: Data, path: seq<string>, v: Value)
    requires path != [] && SetNested(d, path, v).Some?
    ensures Get(SetNested(d, path, v).value, path) == Some(v)
    decreases |path|
  {
    if |path| > 1 {
      var below := if path[0] in d then d[path[0]] else Dict(map[]);
      SetThenGet(below.entries, path[1..], v);
    }
  }

  /** A path that is neither above nor below the one that was set reads as before. */
  lemma {:induction false} SetKeepsOthers(d: Data, path: seq<string>, v: Value, q: seq<string>)
    requires path != [] && q != [] && SetNested(d, path, v).Some?
    requires !IsPrefix(path, q) && !IsPrefix(q, path)
    ensures Get(SetNested(d, path, v).value, q) == Get(d, q)
    decreases |path|
  {
    if path[0] == q[0] {
      PrefixTail(path, q);
      PrefixTail(q, path);
      var below := if path[0] in d then d[path[0]] else Dict(map[]);
      SetKeepsOthers(below.entries, path[1..], v, q[1..]);
      if path[0] !in d { EmptyGet(q[1..]); }
    }
  }

  /** Whether another path can be set does not change either. */
  lemma {:induction false} SetKeepsSettable(d: Data, path: seq<string>, v: Value, q: seq<string>, w: Value)
    requires path != [] && q != [] && SetNested(d, path, v).Some?
    requires !IsPrefix(path, q) && !IsPrefix(q, path)
    ensures SetNested(SetNested(d, path, v).value, q, w).Some? <==> SetNested(d, q, w).Some?
    decreases |path|
  {
    if path[0] == q[0] {
      PrefixTail(path, q);
      PrefixTail(q, path);
      var below := if path[0] in d then d[path[0]] else Dict(map[]);
      SetKeepsSettable(below.entries, path[1..], v, q[1..], w);
    }
  }

  lemma EmptyGet(q: seq<string>)
    requires q != []
    ensures Get(map[], q) == None
  {
  }

  /** A path can be set exactly when whatever stands on the way to it is a dictionary. */
  lemma {:induction false} SettableIff(d: Data, path: seq<string>, v: Value)
    requires path != []
    ensures SetNested(d, path, v).Some? <==>
              forall n :: 0 < n < |path| && Get(d, path[..n]).Some? ==> Get(d, path[..n]).value.Dict?
    decreases |path|
  {
    if |path| > 1 {
      var first := path[..1];
      assert first[0] == path[0] && |first| == 1;
      if path[0] !in d {
        forall n | 0 < n < |path| ensures Get(d, path[..n]).None? {}
        NothingInTheWay(path[1..], v);
      } else if d[path[0]].Dict? {
        SettableIff(d[path[0]].entries, path[1..], v);
        forall n | 1 < n < |path|
          ensures Get(d, path[..n]) == Get(d[path[0]].entries, path[1..][..n - 1])
        {
          assert path[..n][1..] == path[1..][..n - 1];
        }
        if forall n :: 0 < n < |path| && Get(d, path[..n]).Some? ==> Get(d, path[..n]).value.Dict? {
          forall n | 0 < n < |path[1..]| && Get(d[path[0]].entries, path[1..][..n]).Some?
            ensures Get(d[path[0]].entries, path[1..][..n]).value.Dict?
          {
            assert path[..n + 1][1..] == path[1..][..n];
            assert Get(d, path[..n + 1]) == Get(d[path[0]].entries, path[1..][..n]);
          }
        }
      } else {
        assert Get(d, path[..1]) == Some(d[path[0]]);
      }
    }
  }

  lemma {:induction false} NothingInTheWay(path: seq<string>, v: Value)
    requires path != []
    ensures SetNested(map[], path, v).Some?
    decreases |path|
  {
    if |path| > 1 { NothingInTheWay(path[1..], v); }
  }

  datatype Override = Override(path: seq<string>, value: Value)

  /** No override path is above or below another one, or the same. */
  ghost predicate Independent(entries: seq<Override>) {
    && (forall i :: 0 <= i < |entries| ==> entries[i].path != [])
    && forall i, j :: 0 <= i < |entries| && 0 <= j < |entries| && i != j ==> !IsPrefix(entries[i].path, entries[j].path)
  }

  /** The path is neither above nor below any override path. */
  ghost predicate ApartFrom(entries: seq<Override>, q: seq<string>) {
    forall i :: 0 <= i < |entries| ==> !IsPrefix(entries[i].path, q) && !IsPrefix(q, entries[i].path)
  }

  /** The override loop: it succeeds exactly when each override could be set on its own; afterwards every
      overridden path has its value, and a path apart from all of them reads as before. */
  method ApplyOverrides(data: Data, entries: seq<Override>) returns (r: Result<Data>)
    requires Independent(entries)
    ensures r.Ok? <==> forall i :: 0 <= i < |entries| ==> SetNested(data, entries[i].path, entries[i].value).Some?
    ensures r.Ok? ==> forall i :: 0 <= i < |entries| ==> Get(r.value, entries[i].path) == Some(entries[i].value)
    ensures r.Ok? ==> forall q :: q != [] && ApartFrom(entries, q) ==> Get(r.value, q) == Get(data, q)
  {
    hide Get, SetNested, IsPrefix;
    var current := data;
    var k := 0;
    while k < |entries|
      invariant k <= |entries|
      invariant forall i :: 0 <= i < k ==> Get(current, entries[i].path) == Some(entries[i].value)
      invariant forall q :: q != [] && ApartFrom(entries, q) ==> Get(current, q) == Get(data, q)
      invariant forall i :: 0 <= i < k ==> SetNested(data, entries[i].path, entries[i].value).Some?
      invariant forall i :: k <= i < |entries| ==>
        (SetNested(current, entries[i].path, entries[i].value).Some? <==>
         SetNested(data, entries[i].path, entries[i].value).Some?)
    {
      var next := SetNested(current, entries[k].path, entries[k].value);
      if next.None? {
        return Err;
      }
      SetThenGet(current, entries[k].path, entries[k].value);
      forall q | q != [] && !IsPrefix(entries[k].path, q) && !IsPrefix(q, entries[k].path)
        ensures Get(next.value, q) == Get(current, q)
      {
        SetKeepsOthers(current, entries[k].path, entries[k].value, q);
      }
      forall i | k < i < |entries|
        ensures SetNested(next.value, entries[i].path, entries[i].value).Some? <==>
                SetNested(current, entries[i].path, entries[i].value).Some?
      {
        SetKeepsSettable(current, entries[k].path, entries[k].value, entries[i].path, entries[i].value);
      }
      current := next.value;
      k := k + 1;
    }
    return Ok(current);
  }

  // ---------------------------------------------------------------- the fields the transform touches

  const MINIMUM_OUTPUT_TOKENS := 32_768
  const MAXIMUM_SOURCE_TOKENS := 200_000

  datatype Profile = Standard | MaximumAssurance

  datatype Tool = Certora | Echidna | FoundryInvariant | Halmos | Kontrol | Medusa | Mythril | SolcSmtChecker

  datatype Scanner = Scanner(enabled: bool, required: bool)

  datatype Switches = Switches(
    contractsEnabled: bool, compile: bool, fullProtocol: bool, requireComplete: bool,
    reproductionEnabled: bool, reproductionRequired: bool, hardenedIsolation: bool, minimize: bool,
    requireCompilation: bool, requireSlither: bool, requireForkBaseline: bool, requireReproduction: bool,
    requireAllRoles: bool, reproductionForCritical: bool, formalForCritical: bool, benchmarkGate: bool,
    invariantsEnabled: bool, invariantsRequired: bool, executeGenerated: bool, formalEnabled: bool)

  /** The fourteen minimum fractions, in the order of their declaration. */
  type Fractions = seq<real>

  datatype Config = Config(
    profile: Profile,
    allowDowngrade: bool,
    repairAttempts: int,
    outputTokens: int,
    reservedOutput: Option<int>,
    reservedWorkflow: int,
    sourceTokens: int,
    repetitions: int,
    fractions: Fractions,
    modelFamilies: int,
    specialistAgents: int,
    distinctFamilies: int,
    qualitySlots: int,
    allowFallbacks: bool,
    tools: seq<Tool>,
    switches: Switches,
    slither: Scanner,
    foundryFork: Scanner)

  /** The field bounds, and the rule that an explicit output reserve equals the request limit. */
  predicate ConfigValid(c: Config) {
    && 0 <= c.repairAttempts <= 1
    && 256 <= c.outputTokens <= 65_536
    && (c.reservedOutput.Some? ==> 256 <= c.reservedOutput.value <= 65_536 && c.reservedOutput.value == c.outputTokens)
    && 0 <= c.reservedWorkflow <= 65_536
    && 1_024 <= c.sourceTokens <= 1_000_000
    && 1 <= c.repetitions <= 10
    && |c.fractions| == 14 && (forall i :: 0 <= i < 14 ==> 0.0 <= c.fractions[i] <= 1.0)
    && 3 <= c.modelFamilies <= 32
    && 1 <= c.specialistAgents <= 64
    && 3 <= c.distinctFamilies
    && 0 <= c.qualitySlots <= 64
  }

  /** Each field alone ranges over exactly these values. */
  lemma EachRange(c: Config, v: int, f: real, i: nat)
    requires ConfigValid(c) && i < 14
    ensures ConfigValid(c.(repairAttempts := v)) <==> v == 0 || v == 1
    ensures ConfigValid(c.(outputTokens := v, reservedOutput := None)) <==> 256 <= v <= 65_536
    ensures ConfigValid(c.(reservedOutput := Some(v))) <==> v == c.outputTokens
    ensures ConfigValid(c.(reservedWorkflow := v)) <==> 0 <= v <= 65_536
    ensures ConfigValid(c.(sourceTokens := v)) <==> 1_024 <= v <= 1_000_000
    ensures ConfigValid(c.(repetitions := v)) <==> 1 <= v <= 10
    ensures ConfigValid(c.(fractions := c.fractions[i := f])) <==> 0.0 <= f <= 1.0
    ensures ConfigValid(c.(modelFamilies := v)) <==> 3 <= v <= 32
    ensures ConfigValid(c.(specialistAgents := v)) <==> 1 <= v <= 64
    ensures ConfigValid(c.(distinctFamilies := v)) <==> 3 <= v
    ensures ConfigValid(c.(qualitySlots := v)) <==> 0 <= v <= 64
  {
    assert c.fractions[i := f][i] == f;
  }

  // ---------------------------------------------------------------- the transform

  function Max(a: int, b: int): int {
    if a < b then b else a
  }

  function MaxReal(a: real, b: real): real {
    if a < b then b else a
  }

  /** The floor that each fraction is raised to. */
  function Floors(): Fractions {
    [0.95, 0.90, 1.0, 0.90, 1.0, 1.0, 1.0, 0.90, 1.0, 0.80, 1.0, 1.0, 1.0, 1.0]
  }

  function Raise(fs: Fractions): Fractions
    requires |fs| == 14
  {
    seq(14, i requires 0 <= i < 14 => if Floors()[i] == 1.0 then 1.0 else MaxReal(Floors()[i], fs[i]))
  }

  function ToolRank(t: Tool): nat {
    match t
    case Certora => 0
    case Echidna => 1
    case FoundryInvariant => 2
    case Halmos => 3
    case Kontrol => 4
    case Medusa => 5
    case Mythril => 6
    case SolcSmtChecker => 7
  }

  function AllTools(): seq<Tool> {
    [Certora, Echidna, FoundryInvariant, Halmos, Kontrol, Medusa, Mythril, SolcSmtChecker]
  }

  /** The tools of a set, sorted by name. */
  function SortedTools(ts: seq<Tool>, from: nat): seq<Tool>
    requires from <= 8
    decreases 8 - from
  {
    if from == 8 then []
    else (if AllTools()[from] in ts then [AllTools()[from]] else []) + SortedTools(ts, from + 1)
  }

  function WithRequiredTools(ts: seq<Tool>): seq<Tool> {
    SortedTools(ts + [Echidna, Medusa, Halmos], 0)
  }

  /** Every switch that the profile turns on. */
  function AllOn(): Switches {
    Switches(true, true, true, true, true, true, true, true, true, true, true, true, true, true, true, true,
             true, true, true, true)
  }

  /** `AuditConfig.effective`. */
  function Effective(c: Config): Config
    requires |c.fractions| == 14
  {
    if c.profile != MaximumAssurance then c
    else
      var output := Max(MINIMUM_OUTPUT_TOKENS, c.outputTokens);
      c.(repairAttempts := 0,
         outputTokens := output,
         reservedOutput := Some(output),
         reservedWorkflow := Max(MINIMUM_OUTPUT_TOKENS, c.reservedWorkflow),
         sourceTokens := Max(MAXIMUM_SOURCE_TOKENS, c.sourceTokens),
         repetitions := Max(3, c.repetitions),
         fractions := Raise(c.fractions),
         modelFamilies := Max(5, c.modelFamilies),
         specialistAgents := Max(8, c.specialistAgents),
         distinctFamilies := if c.allowDowngrade then c.distinctFamilies else Max(5, c.distinctFamilies),
         qualitySlots := if c.allowDowngrade then c.qualitySlots else Max(8, c.qualitySlots),
         allowFallbacks := false,
         tools := WithRequiredTools(c.tools),
         switches := AllOn(),
         slither := Scanner(true, c.slither.required || !c.allowDowngrade),
         foundryFork := Scanner(true, true))
  }

  lemma {:induction false} ToolMembers(ts: seq<Tool>, from: nat, t: Tool)
    requires from <= 8
    ensures t in SortedTools(ts, from) <==> t in ts && ToolRank(t) >= from
    decreases 8 - from
  {
    assert AllTools()[ToolRank(t)] == t;
    if from < 8 {
      ToolMembers(ts, from + 1, t);
      assert ToolRank(AllTools()[from]) == from;
    }
  }

  lemma {:induction false} SameTools(a: seq<Tool>, b: seq<Tool>, from: nat)
    requires from <= 8 && forall t :: t in a <==> t in b
    ensures SortedTools(a, from) == SortedTools(b, from)
    decreases 8 - from
  {
    if from < 8 { SameTools(a, b, from + 1); }
  }

  /** Adding the required tools again changes nothing. */
  lemma ToolsStable(ts: seq<Tool>)
    ensures WithRequiredTools(WithRequiredTools(ts)) == WithRequiredTools(ts)
    ensures forall t :: t in ts ==> t in WithRequiredTools(ts)
    ensures Echidna in WithRequiredTools(ts) && Medusa in WithRequiredTools(ts) && Halmos in WithRequiredTools(ts)
  {
    hide SortedTools;
    var all := ts + [Echidna, Medusa, Halmos];
    forall t ensures t in WithRequiredTools(ts) <==> t in all { ToolMembers(all, 0, t); }
    SameTools(WithRequiredTools(ts) + [Echidna, Medusa, Halmos], all, 0);
  }

  lemma RaiseFacts(fs: Fractions, i: nat)
    requires |fs| == 14 && i < 14 && 0.0 <= fs[i] <= 1.0
    ensures fs[i] <= Raise(fs)[i] && Floors()[i] <= Raise(fs)[i] <= 1.0
    ensures Raise(fs)[i] == MaxReal(Floors()[i], fs[i])
  {
    FloorsBounded(i);
  }

  lemma FloorsBounded(i: nat)
    requires i < 14
    ensures 0.0 <= Floors()[i] <= 1.0
  {
  }

  /** The transform, which skips validation, gives a configuration that still meets every rule. */
  lemma EffectiveIsValid(c: Config)
    requires ConfigValid(c)
    ensures ConfigValid(Effective(c))
  {
    hide Raise, Floors, WithRequiredTools;
    assert |Raise(c.fractions)| == 14 by { RaiseLength(c.fractions); }
    forall i | 0 <= i < 14 ensures 0.0 <= Raise(c.fractions)[i] <= 1.0 { RaiseFacts(c.fractions, i); }
  }

  lemma RaiseLength(fs: Fractions)
    requires |fs| == 14
    ensures |Raise(fs)| == 14
  {
  }

  /** What one switch setting turns on, another does too. */
  predicate SwitchesWithin(a: Switches, b: Switches) {
    && (a.contractsEnabled ==> b.contractsEnabled) && (a.compile ==> b.compile)
    && (a.fullProtocol ==> b.fullProtocol) && (a.requireComplete ==> b.requireComplete)
    && (a.reproductionEnabled ==> b.reproductionEnabled) && (a.reproductionRequired ==> b.reproductionRequired)
    && (a.hardenedIsolation ==> b.hardenedIsolation) && (a.minimize ==> b.minimize)
    && (a.requireCompilation ==> b.requireCompilation) && (a.requireSlither ==> b.requireSlither)
    && (a.requireForkBaseline ==> b.requireForkBaseline) && (a.requireReproduction ==> b.requireReproduction)
    && (a.requireAllRoles ==> b.requireAllRoles) && (a.reproductionForCritical ==> b.reproductionForCritical)
    && (a.formalForCritical ==> b.formalForCritical) && (a.benchmarkGate ==> b.benchmarkGate)
    && (a.invariantsEnabled ==> b.invariantsEnabled) && (a.invariantsRequired ==> b.invariantsRequired)
    && (a.executeGenerated ==> b.executeGenerated) && (a.formalEnabled ==> b.formalEnabled)
  }

  /** `b` demands at least what `a` demands. */
  ghost predicate NoWeaker(a: Config, b: Config) {
    && SwitchesWithin(a.switches, b.switches)
    && b.repairAttempts <= a.repairAttempts && (b.allowFallbacks ==> a.allowFallbacks)
    && (a.reservedOutput.Some? ==> b.reservedOutput.Some? && a.reservedOutput.value <= b.reservedOutput.value)
    && (a.slither.enabled ==> b.slither.enabled) && (a.foundryFork.enabled ==> b.foundryFork.enabled)
    && a.outputTokens <= b.outputTokens && a.reservedWorkflow <= b.reservedWorkflow && a.sourceTokens <= b.sourceTokens
    && a.repetitions <= b.repetitions
    && |a.fractions| == |b.fractions| && (forall i :: 0 <= i < |a.fractions| ==> a.fractions[i] <= b.fractions[i])
    && a.modelFamilies <= b.modelFamilies && a.specialistAgents <= b.specialistAgents
    && a.distinctFamilies <= b.distinctFamilies && a.qualitySlots <= b.qualitySlots
    && (forall t :: t in a.tools ==> t in b.tools)
    && (a.slither.required ==> b.slither.required) && (a.foundryFork.required ==> b.foundryFork.required)
  }

  /** The transform never lowers a threshold. */
  lemma EffectiveIsNoWeaker(c: Config)
    requires ConfigValid(c)
    ensures NoWeaker(c, Effective(c))
  {
    hide Raise, Floors, WithRequiredTools;
    RaiseLength(c.fractions);
    forall i | 0 <= i < 14 ensures c.fractions[i] <= Raise(c.fractions)[i] { RaiseFacts(c.fractions, i); }
    ToolsStable(c.tools);
  }

  function ToolName(t: Tool): string {
    match t
    case Certora => "certora"
    case Echidna => "echidna"
    case FoundryInvariant => "foundry-invariant"
    case Halmos => "halmos"
    case Kontrol => "kontrol"
    case Medusa => "medusa"
    case Mythril => "mythril"
    case SolcSmtChecker => "solc-smtchecker"
  }

  /** In the order of their names, none twice. */
  ghost predicate ToolsSorted(ts: seq<Tool>) {
    forall i, j :: 0 <= i < j < |ts| ==> Less(ToolName(ts[i]), ToolName(ts[j]))
  }

  lemma RankIsOrder(a: Tool, b: Tool)
    ensures Less(ToolName(a), ToolName(b)) <==> ToolRank(a) < ToolRank(b)
  {
    FirstLetters(a, b);
    LessIrreflexive(ToolName(a));
    assert ToolName(Medusa)[1..][0] == 'e' && ToolName(Mythril)[1..][0] == 'y';
  }

  /** Two tools share a first letter only if they are one or the two whose second letters tell them apart. */
  lemma FirstLetters(a: Tool, b: Tool)
    ensures a == b || ToolName(a)[0] != ToolName(b)[0] || {a, b} == {Medusa, Mythril}
  {
  }

  /** What maximum assurance demands of a configuration `e` made from `c`. A permitted downgrade waives the two
      model floors and the requirement of the first scanner. */
  ghost predicate Demanded(c: Config, e: Config) {
    && e.outputTokens >= 32_768 && e.reservedOutput == Some(e.outputTokens)
    && e.reservedWorkflow >= 32_768 && e.sourceTokens >= 200_000 && e.repetitions >= 3
    && e.repairAttempts == 0 && !e.allowFallbacks
    && |e.fractions| == 14
    && e.fractions[0] >= 0.95 && e.fractions[1] >= 0.9 && e.fractions[2] >= 1.0 && e.fractions[3] >= 0.9
    && e.fractions[4] >= 1.0 && e.fractions[5] >= 1.0 && e.fractions[6] >= 1.0 && e.fractions[7] >= 0.9
    && e.fractions[8] >= 1.0 && e.fractions[9] >= 0.8 && e.fractions[10] >= 1.0 && e.fractions[11] >= 1.0
    && e.fractions[12] >= 1.0 && e.fractions[13] >= 1.0
    && e.modelFamilies >= 5 && e.specialistAgents >= 8
    && (!c.allowDowngrade ==> e.distinctFamilies >= 5 && e.qualitySlots >= 8 && e.slither.required)
    && e.slither.enabled && e.foundryFork.enabled && e.foundryFork.required
    && Echidna in e.tools && Medusa in e.tools && Halmos in e.tools
    && var w := e.switches;
       && w.contractsEnabled && w.compile && w.fullProtocol && w.requireComplete && w.reproductionEnabled
       && w.reproductionRequired && w.hardenedIsolation && w.minimize && w.requireCompilation && w.requireSlither
       && w.requireForkBaseline && w.requireReproduction && w.requireAllRoles && w.reproductionForCritical
       && w.formalForCritical && w.benchmarkGate && w.invariantsEnabled && w.invariantsRequired
       && w.executeGenerated && w.formalEnabled
  }

  lemma DemandedFractions(fs: Fractions)
    requires |fs| == 14
    ensures (forall i :: 0 <= i < 14 ==> fs[i] >= Floors()[i]) <==>
              && fs[0] >= 0.95 && fs[1] >= 0.9 && fs[2] >= 1.0 && fs[3] >= 0.9 && fs[4] >= 1.0 && fs[5] >= 1.0
              && fs[6] >= 1.0 && fs[7] >= 0.9 && fs[8] >= 1.0 && fs[9] >= 0.8 && fs[10] >= 1.0 && fs[11] >= 1.0
              && fs[12] >= 1.0 && fs[13] >= 1.0
  {
    var g := Floors();
    assert g[0] == 0.95 && g[1] == 0.9 && g[2] == 1.0 && g[3] == 0.9 && g[4] == 1.0 && g[5] == 1.0 && g[6] == 1.0;
    assert g[7] == 0.9 && g[8] == 1.0 && g[9] == 0.8 && g[10] == 1.0 && g[11] == 1.0 && g[12] == 1.0 && g[13] == 1.0;
  }

  /** Profile and downgrade permission are never changed, and no other profile's configuration is changed at all. */
  lemma EffectiveKeeps(c: Config)
    requires |c.fractions| == 14
    ensures Effective(c).profile == c.profile && Effective(c).allowDowngrade == c.allowDowngrade
    ensures c.profile != MaximumAssurance ==> Effective(c) == c
    ensures c.allowDowngrade ==>
              && Effective(c).distinctFamilies == c.distinctFamilies && Effective(c).qualitySlots == c.qualitySlots
              && Effective(c).slither.required == c.slither.required
  {
    hide Raise, WithRequiredTools;
  }

  /** Under maximum assurance every demand is met. */
  lemma EffectiveMeetsFloors(c: Config)
    requires ConfigValid(c) && c.profile == MaximumAssurance
    ensures Demanded(c, Effective(c)) && ToolsSorted(Effective(c).tools)
  {
    hide Raise, WithRequiredTools, Floors, ToolsSorted;
    RaiseLength(c.fractions);
    FloorsLength();
    forall i | 0 <= i < 14 ensures Raise(c.fractions)[i] >= Floors()[i] { RaiseFacts(c.fractions, i); }
    DemandedFractions(Raise(c.fractions));
    ToolsStable(c.tools);
    RequiredSorted(c.tools);
  }

  /** The transform is the least hardening, whether or not a downgrade is permitted: every configuration that
      meets the demands and is no weaker than the original is no weaker than its result. */
  lemma EffectiveIsLeast(c: Config, e: Config)
    requires ConfigValid(c) && c.profile == MaximumAssurance
    requires Demanded(c, e) && NoWeaker(c, e)
    ensures NoWeaker(Effective(c), e)
  {
    hide Raise, WithRequiredTools, Floors;
    FloorsLength();
    RaiseLength(c.fractions);
    ToolsStable(c.tools);
    LeastTools(c.tools, e.tools);
    DemandedFractions(e.fractions);
    LeastFractions(c.fractions, e.fractions);
  }

  /** Meeting the demands, being no weaker than the original and no stronger than its least hardening, with the
      tools sorted, leaves one configuration. */
  lemma EffectiveIsDetermined(c: Config, e: Config)
    requires ConfigValid(c) && c.profile == MaximumAssurance == e.profile && e.allowDowngrade == c.allowDowngrade
    requires Demanded(c, e) && NoWeaker(c, e) && NoWeaker(e, Effective(c)) && ToolsSorted(e.tools)
    ensures e == Effective(c)
  {
    hide Raise, WithRequiredTools, Floors, ToolsSorted, Demanded;
    EffectiveIsLeast(c, e);
    EffectiveMeetsFloors(c);
    RaiseLength(c.fractions);
    SameSorted(e.tools, Effective(c).tools);
    SameDemands(c, e, Effective(c));
    assert e.fractions == Effective(c).fractions;
  }

  lemma SameDemands(c: Config, e: Config, e': Config)
    requires Demanded(c, e) && Demanded(c, e')
    ensures e.switches == e'.switches && e.foundryFork == e'.foundryFork && e.slither.enabled == e'.slither.enabled
    ensures e.repairAttempts == e'.repairAttempts && e.allowFallbacks == e'.allowFallbacks && |e.fractions| == |e'.fractions|
    ensures e.reservedOutput == Some(e.outputTokens) && e'.reservedOutput == Some(e'.outputTokens)
  {
  }

  /** Exactly which configurations the transform leaves as they are. */
  lemma EffectiveUnchangedIff(c: Config)
    requires ConfigValid(c)
    ensures Effective(c) == c <==> c.profile != MaximumAssurance || (Demanded(c, c) && ToolsSorted(c.tools))
  {
    hide Raise, WithRequiredTools, Floors, ToolsSorted, Demanded, Effective, NoWeaker;
    EffectiveKeeps(c);
    if c.profile == MaximumAssurance {
      EffectiveMeetsFloors(c);
      EffectiveIsNoWeaker(c);
      NoWeakerItself(c);
      if Demanded(c, c) && ToolsSorted(c.tools) { EffectiveIsDetermined(c, c); }
    }
  }

  lemma NoWeakerItself(c: Config)
    ensures NoWeaker(c, c)
  {
  }

  lemma {:induction false} RanksAscend(ts: seq<Tool>, from: nat)
    requires from <= 8
    ensures forall i, j :: 0 <= i < j < |SortedTools(ts, from)| ==>
              ToolRank(SortedTools(ts, from)[i]) < ToolRank(SortedTools(ts, from)[j])
    decreases 8 - from
  {
    if from < 8 {
      RanksAscend(ts, from + 1);
      assert ToolRank(AllTools()[from]) == from;
      var rest := SortedTools(ts, from + 1);
      forall j | 0 <= j < |rest| ensures from < ToolRank(rest[j]) {
        assert rest[j] in rest;
        ToolMembers(ts, from + 1, rest[j]);
      }
    }
  }

  lemma RequiredSorted(ts: seq<Tool>)
    ensures ToolsSorted(WithRequiredTools(ts))
  {
    hide SortedTools;
    var all := WithRequiredTools(ts);
    RanksAscend(ts + [Echidna, Medusa, Halmos], 0);
    forall i, j | 0 <= i < j < |all| ensures Less(ToolName(all[i]), ToolName(all[j])) { RankIsOrder(all[i], all[j]); }
  }

  /** Sorted lists of the same tools are the same. */
  lemma {:induction false} SameSorted(a: seq<Tool>, b: seq<Tool>)
    requires ToolsSorted(a) && ToolsSorted(b) && forall t :: t in a <==> t in b
    ensures a == b
    decreases |a|
  {
    if a == [] {
      HasMember(b);
    } else {
      assert a[0] in a;
      assert a[0] in b && b[0] in a;
      FirstIsLeast(a, b[0]);
      FirstIsLeast(b, a[0]);
      assert a[0] == b[0] by { if a[0] != b[0] { LessAsymmetric(ToolName(a[0]), ToolName(b[0])); } }
      forall t ensures t in a[1..] <==> t in b[1..] {
        RestOfSorted(a, t);
        RestOfSorted(b, t);
      }
      SameSorted(a[1..], b[1..]);
      assert a == [a[0]] + a[1..] && b == [b[0]] + b[1..];
    }
  }

  lemma HasMember(b: seq<Tool>)
    ensures b == [] || exists t :: t in b
  {
    if b != [] { assert b[0] in b; }
  }

  lemma FirstIsLeast(a: seq<Tool>, t: Tool)
    requires a != [] && ToolsSorted(a) && t in a
    ensures t == a[0] || Less(ToolName(a[0]), ToolName(t))
  {
  }

  lemma LessAsymmetric(x: string, y: string)
    ensures !(Less(x, y) && Less(y, x))
  {
    if Less(x, y) && Less(y, x) {
      LessTransitive(x, y, x);
      LessIrreflexive(x);
    }
  }

  lemma RestOfSorted(a: seq<Tool>, t: Tool)
    requires a != [] && ToolsSorted(a)
    ensures t in a[1..] <==> t in a && t != a[0]
  {
    if t in a[1..] {
      var i :| 0 < i < |a| && a[i] == t;
      LessIrreflexive(ToolName(t));
    }
  }

  lemma LeastTools(ts: seq<Tool>, more: seq<Tool>)
    requires (forall t :: t in ts ==> t in more) && Echidna in more && Medusa in more && Halmos in more
    ensures forall t :: t in WithRequiredTools(ts) ==> t in more
  {
    hide SortedTools;
    forall t | t in WithRequiredTools(ts) ensures t in more { ToolMembers(ts + [Echidna, Medusa, Halmos], 0, t); }
  }

  lemma LeastFractions(fs: Fractions, more: Fractions)
    requires |fs| == 14 && |more| == 14 && forall i :: 0 <= i < 14 ==> 0.0 <= fs[i] <= 1.0 && fs[i] <= more[i]
    requires |Floors()| == 14 && forall i :: 0 <= i < 14 ==> Floors()[i] <= more[i]
    ensures |Raise(fs)| == 14 && forall i :: 0 <= i < 14 ==> Floors()[i] <= Raise(fs)[i] <= more[i]
  {
    hide Raise, Floors;
    RaiseLength(fs);
    forall i | 0 <= i < 14 ensures Floors()[i] <= Raise(fs)[i] <= more[i] { RaiseFacts(fs, i); }
  }

  lemma FloorsLength()
    ensures |Floors()| == 14
  {
  }

  /** The transform is idempotent. */
  lemma EffectiveTwice(c: Config)
    requires ConfigValid(c)
    ensures |Effective(c).fractions| == 14 && Effective(Effective(c)) == Effective(c)
  {
    hide Raise, Floors, WithRequiredTools;
    if c.profile == MaximumAssurance {
      RaiseLength(c.fractions);
      ToolsStable(c.tools);
      var once := Raise(c.fractions);
      RaiseLength(once);
      forall i | 0 <= i < 14 ensures Raise(once)[i] == once[i] {
        RaiseFacts(c.fractions, i);
        RaiseFacts(once, i);
      }
      assert Raise(once) == once;
    }
  }

  /** `apply_audit_config_overrides` with no entries: validation followed by the transform. */
  function Reapply(c: Config): Option<Config> {
    if ConfigValid(c) then Some(Effective(c)) else None
  }

  /** Applying an empty layer to an effective configuration gives it back. */
  lemma EmptyLayerKeeps(c: Config)
    requires ConfigValid(c)
    ensures |Effective(c).fractions| == 14 && Reapply(Effective(c)) == Some(Effective(c))
  {
    hide Effective, ConfigValid;
    EffectiveIsValid(c);
    EffectiveTwice(c);
  }
}
