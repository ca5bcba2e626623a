/** The layer rules of scripts/arch_check.py: which layer a module belongs to, and which imports are accepted. */
module Layers {
  import opened Common

  datatype Layer = Domain | Config | Utils | Infrastructure | Application | Orchestration | Interface | Entry

  type LayerTable = map<string, Layer>

  const MODULE_LAYER_MAP: LayerTable := map[
    "src.domain" := Domain,
    "src.domain.resource" := Domain,
    "src.domain.connection" := Domain,
    "src.domain.metadata" := Domain,
    "src.domain.auth" := Domain,
    "src.domain.history" := Domain,
    "src.domain.audit" := Domain,
    "src.domain.ports" := Domain,
    "src.config" := Config,
    "src.utils" := Utils,
    "src.infrastructure" := Infrastructure,
    "src.infrastructure.vcenter" := Infrastructure,
    "src.infrastructure.hyperv" := Infrastructure,
    "src.infrastructure.db" := Infrastructure,
    "src.infrastructure.cache" := Infrastructure,
    "src.infrastructure.security" := Infrastructure,
    "src.infrastructure.repository" := Infrastructure,
    "src.application" := Application,
    "src.orchestration" := Orchestration,
    "src.api" := Interface,
    "src.main" := Entry]

  const HYPERVISOR_ADAPTERS := ["src.infrastructure.vcenter", "src.infrastructure.hyperv"]

  function AllowedDeps(layer: Layer): set<Layer> {
    match layer
    case Domain => {}
    case Config => {}
    case Utils => {}
    case Infrastructure => {Domain, Config, Utils, Infrastructure}
    case Application => {Domain, Config, Utils, Infrastructure}
    case Orchestration => {Domain, Config, Utils, Application, Infrastructure}
    case Interface => {Domain, Config, Utils, Orchestration, Application, Infrastructure}
    case Entry => {Domain, Config, Utils, Orchestration, Interface, Infrastructure}
  }

  // ---- Prefixes --------------------------------------------------------------------------

  predicate Matches(prefix: string, name: string) {
    name == prefix || prefix + "." <= name
  }

  /** The dotted parts of a module name. */
  function Parts(name: string): (parts: seq<string>)
    ensures parts != []
  {
    if name == "" then [""]
    else if name[0] == '.' then [""] + Parts(name[1..])
    else
      var rest := Parts(name[1..]);
      [[name[0]] + rest[0]] + rest[1..]
  }

  /** A prefix matches by whole parts: src.api covers src.api.deps and not src.apis. */
  lemma {:induction false} MatchesByParts(prefix: string, name: string)
    ensures Matches(prefix, name) <==> Parts(prefix) <= Parts(name)
    decreases |prefix|
  {
    if prefix == "" {
      NoParts(name);
    } else if name != "" && name[0] == prefix[0] {
      MatchesByParts(prefix[1..], name[1..]);
      assert prefix == [prefix[0]] + prefix[1..] && name == [name[0]] + name[1..];
      assert prefix + "." <= name <==> prefix[1..] + "." <= name[1..] by {
        assert prefix + "." == [prefix[0]] + (prefix[1..] + ".");
      }
      SameHead(prefix, name);
    } else {
      assert (prefix + ".")[0] == prefix[0];
      DifferentHead(prefix, name);
    }
  }

  lemma NoParts(name: string)
    ensures Matches("", name) <==> Parts("") <= Parts(name)
  {
    assert "" + "." == ".";
    if name != "" && name[0] == '.' {
      assert Parts(name)[..1] == [""];
    }
  }

  lemma SameHead(p: string, n: string)
    requires p != "" && n != "" && p[0] == n[0]
    ensures Parts(p) <= Parts(n) <==> Parts(p[1..]) <= Parts(n[1..])
  {
    if p[0] == '.' {
      SameFirst("", Parts(p[1..]), Parts(n[1..]));
    } else {
      LongerFirst(p[0], Parts(p[1..]), Parts(n[1..]));
    }
  }

  lemma SameFirst(first: string, a: seq<string>, b: seq<string>)
    ensures [first] + a <= [first] + b <==> a <= b
  {
    assert ([first] + a)[1..] == a && ([first] + b)[1..] == b;
  }

  lemma LongerFirst(c: char, a: seq<string>, b: seq<string>)
    requires a != [] && b != []
    ensures [[c] + a[0]] + a[1..] <= [[c] + b[0]] + b[1..] <==> a <= b
  {
    var x, y := [[c] + a[0]] + a[1..], [[c] + b[0]] + b[1..];
    assert a == [a[0]] + a[1..] && b == [b[0]] + b[1..];
    assert x[0][1..] == a[0] && y[0][1..] == b[0];
    assert (a <= b ==> a[0] == b[0]) && (x <= y ==> x[0] == y[0]);
    if a[0] == b[0] {
      SameFirst(x[0], a[1..], b[1..]);
      SameFirst(a[0], a[1..], b[1..]);
    }
  }

  lemma DifferentHead(p: string, n: string)
    requires p != "" && (n == "" || n[0] != p[0])
    ensures !(Parts(p) <= Parts(n))
  {
    HeadOfParts(p);
    HeadOfParts(n);
    if Parts(p) <= Parts(n) {
      assert Parts(p)[0] == Parts(n)[0];
    }
  }

  lemma HeadOfParts(n: string)
    ensures var head := Parts(n)[0];
            if n == "" then Parts(n) == [""]
            else if n[0] == '.' then head == "" && |Parts(n)| > 1
            else head != "" && head[0] == n[0]
  {
  }

  // ---- The layer of a module -----------------------------------------------------------------

  lemma MatchIsPrefix(prefix: string, name: string)
    requires Matches(prefix, name)
    ensures prefix <= name
    ensures |prefix| < |name| ==> name[|prefix|] == '.'
  {
    if name != prefix {
      assert (prefix + ".")[..|prefix|] == prefix;
      assert (prefix + ".")[|prefix|] == '.';
    }
  }

  ghost predicate IsBest(table: LayerTable, name: string, prefix: string) {
    && prefix in table && prefix != "" && Matches(prefix, name)
    && forall other <- table | Matches(other, name) :: |other| <= |prefix|
  }

  /** The layer of the longest matching prefix, if there is one. */
  ghost function LayerOf(table: LayerTable, name: string): (layer: Option<Layer>)
    ensures layer == None ==> forall prefix :: !IsBest(table, name, prefix)
    ensures layer.Some? ==> exists prefix :: IsBest(table, name, prefix) && layer.value == table[prefix]
  {
    if exists prefix :: IsBest(table, name, prefix) then
      var prefix :| IsBest(table, name, prefix);
      Some(table[prefix])
    else None
  }

  /** A module has a layer exactly if some prefix of the table matches it. */
  lemma MappedIffCovered(table: LayerTable, name: string)
    ensures LayerOf(table, name).Some? <==> exists prefix <- table :: prefix != "" && Matches(prefix, name)
  {
    if prefix :| prefix in table && prefix != "" && Matches(prefix, name) {
      LongestMatch(table, name, prefix);
    }
  }

  lemma {:induction false} LongestMatch(table: LayerTable, name: string, prefix: string)
    requires prefix in table && prefix != "" && Matches(prefix, name)
    ensures exists best :: IsBest(table, name, best)
    decreases |name| - |prefix|
  {
    if !IsBest(table, name, prefix) {
      var longer :| longer in table && Matches(longer, name) && |longer| > |prefix|;
      MatchIsPrefix(longer, name);
      LongestMatch(table, name, longer);
    }
  }

  lemma BestIsUnique(table: LayerTable, name: string, prefix: string)
    requires IsBest(table, name, prefix)
    ensures LayerOf(table, name) == Some(table[prefix])
  {
    var layer := LayerOf(table, name);
    assert layer.Some?;
    var chosen :| IsBest(table, name, chosen) && layer.value == table[chosen];
    MatchIsPrefix(chosen, name);
    MatchIsPrefix(prefix, name);
    assert |chosen| == |prefix|;
    assert chosen == name[..|prefix|] == prefix;
  }

  /** items lists the table in any order. */
  ghost predicate Lists(items: seq<(string, Layer)>, table: LayerTable) {
    && (forall item <- items :: item.0 in table && table[item.0] == item.1)
    && (forall prefix <- table :: (prefix, table[prefix]) in items)
  }

  method ResolveLayer(ghost table: LayerTable, items: seq<(string, Layer)>, name: string) returns (best: Option<Layer>)
    requires Lists(items, table)
    ensures best == LayerOf(table, name)
    ensures best == None <==> forall prefix <- table | prefix != "" :: !Matches(prefix, name)
  {
    best := None;
    var bestLen := 0;
    ghost var bestPrefix := "";
    for i := 0 to |items|
      invariant bestLen == |bestPrefix|
      invariant best == None ==> bestPrefix == ""
      invariant best.Some? ==>
                  && bestPrefix in table && bestPrefix != "" && Matches(bestPrefix, name)
                  && best.value == table[bestPrefix]
      invariant forall k | 0 <= k < i && Matches(items[k].0, name) :: |items[k].0| <= bestLen
    {
      var (prefix, layer) := items[i];
      assert items[i] in items;
      if Matches(prefix, name) && |prefix| > bestLen {
        best, bestLen, bestPrefix := Some(layer), |prefix|, prefix;
      }
    }
    forall other <- table | Matches(other, name) ensures |other| <= bestLen {
      var k :| 0 <= k < |items| && items[k] == (other, table[other]);
      assert Matches(items[k].0, name);
    }
    if best.Some? {
      BestIsUnique(table, name, bestPrefix);
    }
  }

  method ResolveAdapter(adapters: seq<string>, name: string) returns (adapter: Option<string>)
    ensures adapter == AdapterOf(adapters, name)
  {
    for i := 0 to |adapters|
      invariant AdapterOf(adapters[i..], name) == AdapterOf(adapters, name)
    {
      if Matches(adapters[i], name) {
        return Some(adapters[i]);
      }
      assert adapters[i..][1..] == adapters[i + 1..];
    }
    return None;
  }

  /** The first adapter package the module lies in. */
  function AdapterOf(adapters: seq<string>, name: string): (adapter: Option<string>)
    ensures adapter.Some? <==> exists a <- adapters :: Matches(a, name)
    ensures adapter.Some? ==> adapter.value in adapters && Matches(adapter.value, name)
  {
    if adapters == [] then None
    else if Matches(adapters[0], name) then Some(adapters[0])
    else AdapterOf(adapters[1..], name)
  }

  // ---- Checking imports ------------------------------------------------------------------------

  /** Rule A, rule B, and the table of allowed dependencies. */
  datatype Reason = TiedToAdapter(adapter: string) | AcrossAdapters(source: string, target: string)
                  | Forbidden(fromLayer: Layer, toLayer: Layer)

  datatype Import = Import(name: string, line: nat)

  datatype Violation = Violation(imported: Import, reason: Reason)

  /** The tables of the script, and an order in which to go through the first. */
  datatype Rules = Rules(table: LayerTable, items: seq<(string, Layer)>, adapters: seq<string>)

  function LayerVerdict(source: Layer, target: Layer): Option<Reason> {
    if target !in AllowedDeps(source) && target != source then Some(Forbidden(source, target)) else None
  }

  ghost function Judged(rules: Rules, source: string, target: string): Option<Reason> {
    var fromLayer, toLayer := LayerOf(rules.table, source), LayerOf(rules.table, target);
    var fromAdapter, toAdapter := AdapterOf(rules.adapters, source), AdapterOf(rules.adapters, target);
    if fromLayer == None || toLayer == None then None
    else if fromLayer.value in {Application, Orchestration} && toAdapter.Some? then Some(TiedToAdapter(toAdapter.value))
    else if fromAdapter.Some? && toAdapter.Some? && fromAdapter != toAdapter then
      Some(AcrossAdapters(fromAdapter.value, toAdapter.value))
    else LayerVerdict(fromLayer.value, toLayer.value)
  }

  ghost function Violations(rules: Rules, source: string, imports: seq<Import>): seq<Violation> {
    if imports == [] then []
    else
      var last := imports[|imports| - 1];
      Violations(rules, source, imports[..|imports| - 1]) +
      match Judged(rules, source, last.name) case None => [] case Some(reason) => [Violation(last, reason)]
  }

  method CheckImports(rules: Rules, source: string, imports: seq<Import>) returns (violations: seq<Violation>)
    requires Lists(rules.items, rules.table)
    ensures violations == Violations(rules, source, imports)
  {
    hide LayerOf, AdapterOf, AllowedDeps, Lists;
    var fromLayer := ResolveLayer(rules.table, rules.items, source);
    if fromLayer == None {
      UnmappedModule(rules, source, imports);
      return [];
    }
    var fromAdapter := ResolveAdapter(rules.adapters, source);
    violations := [];
    for i := 0 to |imports|
      invariant violations == Violations(rules, source, imports[..i])
    {
      var imp := imports[i];
      assert imports[..i + 1][..i] == imports[..i];
      var toLayer := ResolveLayer(rules.table, rules.items, imp.name);
      if toLayer == None {
        continue;
      }
      var toAdapter := ResolveAdapter(rules.adapters, imp.name);
      if (fromLayer.value == Application || fromLayer.value == Orchestration) && toAdapter.Some? {
        violations := violations + [Violation(imp, TiedToAdapter(toAdapter.value))];
        continue;
      }
      if fromAdapter.Some? && toAdapter.Some? && fromAdapter.value != toAdapter.value {
        violations := violations + [Violation(imp, AcrossAdapters(fromAdapter.value, toAdapter.value))];
        continue;
      }
      if toLayer.value !in AllowedDeps(fromLayer.value) && toLayer.value != fromLayer.value {
        violations := violations + [Violation(imp, Forbidden(fromLayer.value, toLayer.value))];
      }
    }
    assert imports[..|imports|] == imports;
  }

  lemma {:induction false} UnmappedModule(rules: Rules, source: string, imports: seq<Import>)
    requires LayerOf(rules.table, source) == None
    ensures Violations(rules, source, imports) == []
  {
    if imports != [] {
      UnmappedModule(rules, source, imports[..|imports| - 1]);
    }
  }

  /** No violation is reported exactly when every import is accepted. */
  lemma {:induction false} CleanIffAccepted(rules: Rules, source: string, imports: seq<Import>)
    ensures Violations(rules, source, imports) == [] <==>
            forall imp <- imports :: Judged(rules, source, imp.name) == None
  {
    if imports != [] {
      var rest := imports[..|imports| - 1];
      CleanIffAccepted(rules, source, rest);
      assert forall imp :: imp in imports <==> imp in rest || imp == imports[|imports| - 1];
    }
  }

  // ---- Layering ----------------------------------------------------------------------------

  function Rank(layer: Layer): nat {
    match layer
    case Domain => 0
    case Config => 0
    case Utils => 0
    case Infrastructure => 1
    case Application => 2
    case Orchestration => 3
    case Interface => 4
    case Entry => 5
  }

  /**
   Which layers may import which: one may import itself and every layer below it, but the entry point does not reach
   past the interface and the schedulers to the use cases.
   */
  lemma AllowedIffBelow(source: Layer, target: Layer)
    ensures LayerVerdict(source, target) == None <==>
            source == target || (Rank(target) < Rank(source) && !(source == Entry && target == Application))
    ensures LayerVerdict(source, target) in {None, Some(Forbidden(source, target))}
  {
  }

  /** When an import is reported, and why: rule A first, then rule B, then the layers; an unmapped module never. */
  lemma JudgedTold(rules: Rules, source: string, target: string)
    ensures var a, b := LayerOf(rules.table, source), LayerOf(rules.table, target);
            var own, other := AdapterOf(rules.adapters, source), AdapterOf(rules.adapters, target);
            var judged := Judged(rules, source, target);
            && (a == None || b == None ==> judged == None)
            && (a.Some? && b.Some? ==>
                  var useCase := a.value == Application || a.value == Orchestration;
                  var across := own.Some? && other.Some? && own != other;
                  && (judged.Some? && judged.value.TiedToAdapter? <==> useCase && other.Some?)
                  && (judged.Some? && judged.value.AcrossAdapters? <==> across && !useCase)
                  && (useCase && other.Some? ==> judged.value.adapter == other.value)
                  && (across && !useCase ==> judged == Some(AcrossAdapters(own.value, other.value)))
                  && (judged == Some(Forbidden(a.value, b.value)) <==>
                        !(useCase && other.Some?) && !across && a != b
                        && !(Rank(b.value) < Rank(a.value) && !(a.value == Entry && b.value == Application))))
  {
    hide LayerOf, AdapterOf;
    if LayerOf(rules.table, source).Some? && LayerOf(rules.table, target).Some? {
      AllowedIffBelow(LayerOf(rules.table, source).value, LayerOf(rules.table, target).value);
    }
  }

  /** Two mapped modules and an import between them that is not reported. */
  ghost predicate Accepted(rules: Rules, source: string, target: string) {
    && LayerOf(rules.table, source).Some? && LayerOf(rules.table, target).Some?
    && Judged(rules, source, target) == None
  }

  /** Each module of the chain imports the next. */
  ghost predicate IsChain(rules: Rules, chain: seq<string>) {
    && chain != []
    && forall i | 0 <= i < |chain| - 1 :: Link(rules, chain, i)
  }

  ghost predicate Link(rules: Rules, chain: seq<string>, i: int)
    requires 0 <= i < |chain| - 1
  {
    Accepted(rules, chain[i], chain[i + 1])
  }

  lemma PartOfChain(rules: Rules, chain: seq<string>, from: nat, to: nat)
    requires IsChain(rules, chain) && from < to <= |chain|
    ensures IsChain(rules, chain[from..to])
  {
    hide Accepted;
    var part := chain[from..to];
    forall i | 0 <= i < |part| - 1 ensures Link(rules, part, i) {
      assert Link(rules, chain, from + i);
    }
  }

  ghost function RankOf(rules: Rules, name: string): nat {
    match LayerOf(rules.table, name) case None => 0 case Some(layer) => Rank(layer)
  }

  lemma AcceptedGoesDown(rules: Rules, source: string, target: string)
    requires Accepted(rules, source, target)
    ensures LayerOf(rules.table, source) == LayerOf(rules.table, target)
            || RankOf(rules, target) < RankOf(rules, source)
  {
    hide LayerOf;
  }

  /** Along accepted imports the rank never rises, and where it does not fall the layer stays. */
  lemma {:induction false} ChainGoesDown(rules: Rules, chain: seq<string>)
    requires IsChain(rules, chain)
    ensures var first, last := chain[0], chain[|chain| - 1];
            LayerOf(rules.table, first) == LayerOf(rules.table, last) || RankOf(rules, last) < RankOf(rules, first)
    decreases |chain|
  {
    hide LayerOf, Accepted;
    if |chain| > 1 {
      assert Link(rules, chain, 0);
      AcceptedGoesDown(rules, chain[0], chain[1]);
      PartOfChain(rules, chain, 1, |chain|);
      assert chain[1..] == chain[1..|chain|];
      ChainGoesDown(rules, chain[1..]);
    }
  }

  /** Every import cycle stays inside one layer. */
  lemma CyclesStayInOneLayer(rules: Rules, cycle: seq<string>, i: nat)
    requires IsChain(rules, cycle) && cycle[0] == cycle[|cycle| - 1] && i < |cycle|
    ensures LayerOf(rules.table, cycle[i]) == LayerOf(rules.table, cycle[0])
  {
    hide LayerOf, Accepted;
    PartOfChain(rules, cycle, 0, i + 1);
    ChainGoesDown(rules, cycle[0..i + 1]);
    PartOfChain(rules, cycle, i, |cycle|);
    ChainGoesDown(rules, cycle[i..|cycle|]);
  }

  // ---- Adapters ------------------------------------------------------------------------------

  /** The adapters are mapped to infrastructure, and nothing inside one is mapped elsewhere. */
  ghost predicate AdaptersMapped(rules: Rules) {
    && (forall a <- rules.adapters :: a in rules.table && a != "")
    && (forall a, p | a in rules.adapters && p in rules.table && Matches(a, p) :: rules.table[p] == Infrastructure)
  }

  lemma AdapterIsInfrastructure(rules: Rules, name: string)
    requires AdaptersMapped(rules) && AdapterOf(rules.adapters, name).Some?
    ensures LayerOf(rules.table, name) == Some(Infrastructure)
  {
    var a := AdapterOf(rules.adapters, name).value;
    MappedIffCovered(rules.table, name);
    var p :| IsBest(rules.table, name, p) && LayerOf(rules.table, name) == Some(rules.table[p]);
    MatchIsPrefix(a, name);
    MatchIsPrefix(p, name);
    assert |a| <= |p|;
    assert Matches(a, p);
  }

  /** Use cases, and the modules of another adapter: those that rules A and B keep away from an adapter. */
  ghost predicate Outsider(rules: Rules, name: string, adapter: string) {
    || LayerOf(rules.table, name) in {Some(Application), Some(Orchestration)}
    || (AdapterOf(rules.adapters, name).Some? && AdapterOf(rules.adapters, name) != Some(adapter))
  }

  /** Infrastructure that belongs to no adapter. */
  ghost predicate Bridge(rules: Rules, name: string) {
    LayerOf(rules.table, name) == Some(Infrastructure) && AdapterOf(rules.adapters, name) == None
  }

  /**
   Rules A and B look at one import at a time. Over a chain this is what they leave: use cases and adapters
   reach another adapter, but only through a module of infrastructure that belongs to none.
   */
  lemma {:induction false} AdaptersAreReachedThroughABridge(rules: Rules, chain: seq<string>, adapter: string)
    requires AdaptersMapped(rules) && IsChain(rules, chain) && |chain| > 1
    requires AdapterOf(rules.adapters, chain[|chain| - 1]) == Some(adapter)
    requires Outsider(rules, chain[0], adapter)
    ensures exists i :: 0 < i < |chain| - 1 && Bridge(rules, chain[i])
    decreases |chain|
  {
    hide LayerOf, AdapterOf, Outsider, Bridge, RankOf, AdaptersMapped;
    assert Link(rules, chain, 0);
    var next, rest := chain[1], chain[1..|chain|];
    NotBlocked(rules, chain[0], next, adapter);
    if |chain| == 2 {
      assert false;
    } else if Bridge(rules, next) {
      assert Bridge(rules, chain[1]);
    } else {
      PartOfChain(rules, chain, 1, |chain|);
      StillBelow(rules, rest, adapter);
      AdaptersAreReachedThroughABridge(rules, rest, adapter);
      var i :| 0 < i < |rest| - 1 && Bridge(rules, rest[i]);
      assert Bridge(rules, chain[i + 1]);
    }
  }

  lemma NotBlocked(rules: Rules, source: string, target: string, adapter: string)
    requires AdaptersMapped(rules) && Accepted(rules, source, target)
    requires Outsider(rules, source, adapter)
    ensures AdapterOf(rules.adapters, target) != Some(adapter)
    ensures Outsider(rules, target, adapter) || Bridge(rules, target) || RankOf(rules, target) == 0
  {
    hide LayerOf, AdapterOf;
    if AdapterOf(rules.adapters, source).Some? {
      AdapterIsInfrastructure(rules, source);
    }
  }

  /** From the bottom layers no chain leads to an adapter. */
  lemma StillBelow(rules: Rules, chain: seq<string>, adapter: string)
    requires AdaptersMapped(rules) && IsChain(rules, chain) && |chain| > 1
    requires AdapterOf(rules.adapters, chain[|chain| - 1]) == Some(adapter)
    ensures RankOf(rules, chain[0]) > 0
  {
    hide LayerOf, AdapterOf;
    ChainGoesDown(rules, chain);
    assert Link(rules, chain, |chain| - 2);
    AdapterIsInfrastructure(rules, chain[|chain| - 1]);
  }

  /** From an outsider through a bridge to an adapter, no import is reported. */
  lemma BridgeLetsThrough(rules: Rules, source: string, bridge: string, target: string, adapter: string)
    requires AdaptersMapped(rules) && Outsider(rules, source, adapter) && Bridge(rules, bridge)
    requires AdapterOf(rules.adapters, target) == Some(adapter)
    ensures IsChain(rules, [source, bridge, target])
  {
    hide Accepted, LayerOf, AdapterOf, Outsider, Bridge, AdaptersMapped;
    BridgeAccepted(rules, source, bridge, target, adapter);
    var chain := [source, bridge, target];
    assert Link(rules, chain, 0) && Link(rules, chain, 1);
  }

  lemma BridgeAccepted(rules: Rules, source: string, bridge: string, target: string, adapter: string)
    requires AdaptersMapped(rules) && Outsider(rules, source, adapter) && Bridge(rules, bridge)
    requires AdapterOf(rules.adapters, target) == Some(adapter)
    ensures Accepted(rules, source, bridge) && Accepted(rules, bridge, target)
  {
    hide LayerOf, AdapterOf, AdaptersMapped, Accepted;
    AdapterIsInfrastructure(rules, target);
    OutOfBridge(rules, bridge, target);
    if AdapterOf(rules.adapters, source).Some? {
      AdapterIsInfrastructure(rules, source);
    }
    IntoBridge(rules, source, bridge);
  }

  lemma IntoBridge(rules: Rules, source: string, bridge: string)
    requires LayerOf(rules.table, source) in {Some(Application), Some(Orchestration), Some(Infrastructure)}
    requires Bridge(rules, bridge)
    ensures Accepted(rules, source, bridge)
  {
    hide LayerOf, AdapterOf;
  }

  lemma OutOfBridge(rules: Rules, bridge: string, target: string)
    requires LayerOf(rules.table, target) == Some(Infrastructure) && Bridge(rules, bridge)
    ensures Accepted(rules, bridge, target)
  {
    hide LayerOf, AdapterOf;
  }

  /** A chain of accepted imports between modules of the project. */
  ghost predicate Leads(rules: Rules, modules: set<string>, chain: seq<string>, source: string, target: string) {
    && IsChain(rules, chain) && chain[0] == source && chain[|chain| - 1] == target
    && forall name <- chain :: name in modules
  }

  /**
   What rules A and B promise, that use cases and the other adapters do not depend on an adapter, holds over
   chains of imports exactly for projects without a bridge: as soon as there is one, a chain leads through it.
   */
  lemma AdapterReachableIffBridge(rules: Rules, modules: set<string>, source: string, target: string, adapter: string)
    requires AdaptersMapped(rules) && source in modules && target in modules
    requires Outsider(rules, source, adapter) && AdapterOf(rules.adapters, target) == Some(adapter)
    ensures (exists chain :: Leads(rules, modules, chain, source, target)) <==> exists b <- modules :: Bridge(rules, b)
  {
    hide LayerOf, AdapterOf;
    if chain :| Leads(rules, modules, chain, source, target) {
      AdapterIsInfrastructure(rules, target);
      assert |chain| > 1;
      AdaptersAreReachedThroughABridge(rules, chain, adapter);
      var i :| 0 < i < |chain| - 1 && Bridge(rules, chain[i]);
      assert chain[i] in modules;
    }
    if b :| b in modules && Bridge(rules, b) {
      BridgeLetsThrough(rules, source, b, target, adapter);
      assert Leads(rules, modules, [source, b, target], source, target);
    }
  }

  /** The two adapters of the repository meet what these results ask of them. */
  lemma RepositoryAdaptersMapped(items: seq<(string, Layer)>)
    ensures AdaptersMapped(Rules(MODULE_LAYER_MAP, items, HYPERVISOR_ADAPTERS))
  {
  }

  /** Two chains the repository's own rules accept: from a use case to an adapter, and from one adapter to the other. */
  lemma ChainsAroundTheRules(items: seq<(string, Layer)>)
    ensures var rules := Rules(MODULE_LAYER_MAP, items, HYPERVISOR_ADAPTERS);
            var checks, hyperv := "src.infrastructure.checks", "src.infrastructure.hyperv.session";
            && Bridge(rules, checks)
            && IsChain(rules, ["src.application", checks, hyperv])
            && IsChain(rules, ["src.infrastructure.vcenter.reader", checks, hyperv])
  {
    var rules := Rules(MODULE_LAYER_MAP, items, HYPERVISOR_ADAPTERS);
    RepositoryAdaptersMapped(items);
    RepositoryModules();
    RepositoryLayers();
    hide LayerOf, AdapterOf;
    var checks, hyperv := "src.infrastructure.checks", "src.infrastructure.hyperv.session";
    BridgeLetsThrough(rules, "src.application", checks, hyperv, "src.infrastructure.hyperv");
    BridgeLetsThrough(rules, "src.infrastructure.vcenter.reader", checks, hyperv, "src.infrastructure.hyperv");
  }

  lemma RepositoryModules()
    ensures AdapterOf(HYPERVISOR_ADAPTERS, "src.infrastructure.vcenter.reader") == Some("src.infrastructure.vcenter")
    ensures AdapterOf(HYPERVISOR_ADAPTERS, "src.infrastructure.hyperv.session") == Some("src.infrastructure.hyperv")
    ensures AdapterOf(HYPERVISOR_ADAPTERS, "src.infrastructure.checks") == None
  {
    hide MODULE_LAYER_MAP;
    var vcenter, hyperv := "src.infrastructure.vcenter", "src.infrastructure.hyperv";
    assert HYPERVISOR_ADAPTERS == [vcenter, hyperv] && HYPERVISOR_ADAPTERS[1..] == [hyperv];
    assert !Matches(vcenter, "src.infrastructure.hyperv.session") by {
      assert vcenter[19] != "src.infrastructure.hyperv.session"[19];
    }
    assert !Matches(vcenter, "src.infrastructure.checks") && !Matches(hyperv, "src.infrastructure.checks") by {
      assert vcenter[19] != "src.infrastructure.checks"[19] && hyperv[19] != "src.infrastructure.checks"[19];
    }
  }

  lemma RepositoryLayers()
    ensures LayerOf(MODULE_LAYER_MAP, "src.application") == Some(Application)
    ensures LayerOf(MODULE_LAYER_MAP, "src.infrastructure.checks") == Some(Infrastructure)
  {
    ApplicationEntry();
    InfrastructureEntry();
    ChecksHasNoEntry();
    hide LayerOf, MODULE_LAYER_MAP;
    OwnEntry(MODULE_LAYER_MAP, "src.application");
    assert "src.infrastructure.checks" == "src.infrastructure" + "." + "checks";
    PackageEntry(MODULE_LAYER_MAP, "src.infrastructure", "checks");
  }

  /** The packages of the repository and their layers. */
  lemma PackagesTold()
    ensures MODULE_LAYER_MAP["src.domain"] == Domain
    ensures MODULE_LAYER_MAP["src.config"] == Config
    ensures MODULE_LAYER_MAP["src.utils"] == Utils
    ensures MODULE_LAYER_MAP["src.infrastructure"] == Infrastructure
    ensures MODULE_LAYER_MAP["src.application"] == Application
    ensures MODULE_LAYER_MAP["src.orchestration"] == Orchestration
    ensures MODULE_LAYER_MAP["src.api"] == Interface
    ensures MODULE_LAYER_MAP["src.main"] == Entry
  {
  }

  lemma ApplicationEntry()
    ensures "src.application" in MODULE_LAYER_MAP && MODULE_LAYER_MAP["src.application"] == Application
  {
  }

  lemma InfrastructureEntry()
    ensures "src.infrastructure" in MODULE_LAYER_MAP && MODULE_LAYER_MAP["src.infrastructure"] == Infrastructure
  {
  }

  lemma ChecksHasNoEntry()
    ensures "src.infrastructure.checks" !in MODULE_LAYER_MAP
  {
    var name := "src.infrastructure.checks";
    assert |name| == 25 && name[19] == 'c';
  }

  lemma OwnEntry(table: LayerTable, name: string)
    requires name in table && name != ""
    ensures LayerOf(table, name) == Some(table[name])
  {
    forall other | other in table && Matches(other, name) ensures |other| <= |name| {
      MatchIsPrefix(other, name);
    }
    BestIsUnique(table, name, name);
  }

  /** A module right below a package of the table has the package's layer, unless it has its own entry. */
  lemma PackageEntry(table: LayerTable, package: string, name: string)
    requires package in table && package != "" && '.' !in name && package + "." + name !in table
    ensures LayerOf(table, package + "." + name) == Some(table[package])
  {
    var full := package + "." + name;
    assert package + "." <= full;
    assert forall k | |package| < k < |full| :: full[k] == name[k - |package| - 1];
    forall other | other in table && Matches(other, full) ensures |other| <= |package| {
      MatchIsPrefix(other, full);
    }
    BestIsUnique(table, full, package);
  }
}
