/**
 * The system model a user builds in the wizard: an ordered list of component names,
 * the traits assigned to each component, and the data flows between components.
 *
 * A data flow is recorded once, under the component that was its source when it was
 * added (`dataFlows.get(source)` holds the destination), but it stands for an exchange
 * in both directions. The functions here are the new values the wizard's edit handlers
 * compute; the lemmas say what those values mean.
 */
module SystemModel {
  import opened OrderedSets
  import opened ComponentTraits

  /** `Map<string, Trait[]>`: the traits of each component, keyed by component name. */
  type TraitMap = map<string, seq<Trait>>

  /** `Map<string, Set<string>>`: for each source component, its destinations in insertion order. */
  type FlowMap = map<string, seq<string>>

  /** `dataFlows.get(c)?.values() ?? []`: a component with no entry has no outgoing records. */
  function DestinationsOf(flows: FlowMap, c: string): seq<string> {
    if c in flows then flows[c] else []
  }

  /** `componentTraitsMap.get(c) ?? []`. */
  function TraitsOf(traits: TraitMap, c: string): seq<Trait> {
    if c in traits then traits[c] else []
  }

  /**
   * `getNamesOfTraitsPresentForComponent`: the names of the traits of `c`; a component
   * missing from the map is treated as having no traits.
   */
  function TraitNamesOf(traits: TraitMap, c: string): (r: set<string>)
    ensures c !in traits ==> r == {}
    ensures forall t: Trait :: t.Name() in r <==> c in traits && t in traits[c]
  {
    set t | t in TraitsOf(traits, c) :: t.Name()
  }

  /** `componentTraits.some(it => it.name === trait.name)`. */
  predicate HasTraitNamed(ts: seq<Trait>, t: Trait) {
    exists i | 0 <= i < |ts| :: ts[i].Name() == t.Name()
  }

  /** Because trait names are distinct, a same-named trait is the trait itself. */
  lemma HasTraitNamedIsMembership(ts: seq<Trait>, t: Trait)
    ensures HasTraitNamed(ts, t) <==> t in ts
  {
    if t in ts {
      var i :| 0 <= i < |ts| && ts[i] == t;
      assert ts[i].Name() == t.Name();
    }
  }

  /** `componentTraits.filter(it => it.name !== trait.name)`. */
  function WithoutTraitNamed(ts: seq<Trait>, t: Trait): (r: seq<Trait>)
    ensures forall u :: u in r <==> u in ts && u.Name() != t.Name()
    ensures forall u :: multiset(r)[u] == if u.Name() != t.Name() then multiset(ts)[u] else 0
    ensures IsSubsequence(r, ts)
    ensures t !in r
  {
    var keep := (u: Trait) => u.Name() != t.Name();
    FilterIsSubsequence(ts, keep);
    Filter(ts, keep)
  }

  /**
   * `dataFlowExists(a, b)`: a record in either direction. The source's
   * `dataFlows.get(a)?.has(b) || dataFlows.get(b)?.has(a)` yields `undefined` when neither
   * key exists, which every caller treats as false.
   */
  predicate DataFlowExists(flows: FlowMap, a: string, b: string) {
    b in DestinationsOf(flows, a) || a in DestinationsOf(flows, b)
  }

  /** At most one record exists for each unordered pair of distinct components. */
  predicate OneRecordPerPair(flows: FlowMap) {
    forall a, b :: a in flows && b in flows[a] && a != b ==> a !in DestinationsOf(flows, b)
  }

  /** The invariant every reachable flow map keeps. */
  predicate WellFormedFlows(flows: FlowMap) {
    (forall c | c in flows :: NoDup(flows[c])) && OneRecordPerPair(flows)
  }

  /** The flow map `addDataFlow(s, d)` installs. */
  function FlowsWith(flows: FlowMap, s: string, d: string): (r: FlowMap) {
    if DataFlowExists(flows, s, d) then flows
    else flows[s := Insert(DestinationsOf(flows, s), d)]
  }

  /** The flow map `removeDataFlow(s, d)` installs. */
  function FlowsWithout(flows: FlowMap, s: string, d: string): (r: FlowMap) {
    if !DataFlowExists(flows, s, d) then flows
    else
      var once := if s in flows then flows[s := Remove(flows[s], d)] else flows;
      if d in once then once[d := Remove(once[d], s)] else once
  }

  /** The flow map `deleteDataFlowsReferencingComponent(c)` installs. */
  function FlowsWithoutComponent(flows: FlowMap, c: string): FlowMap {
    map k | k in flows && k != c :: Remove(flows[k], c)
  }

  /** `dataFlowExists(a, b)` and `dataFlowExists(b, a)` agree. */
  lemma DataFlowExistsSymmetric(flows: FlowMap, a: string, b: string)
    ensures DataFlowExists(flows, a, b) == DataFlowExists(flows, b, a)
  {
  }

  /**
   * Adding a flow makes exactly that pair connected and records `d` under `s` only:
   * every other component's destinations are unchanged, and the invariant is kept.
   */
  lemma FlowsWithMeaning(flows: FlowMap, s: string, d: string)
    requires WellFormedFlows(flows)
    ensures forall x, y :: DataFlowExists(FlowsWith(flows, s, d), x, y) <==>
      DataFlowExists(flows, x, y) || (x == s && y == d) || (x == d && y == s)
    ensures !DataFlowExists(flows, s, d) ==>
      DestinationsOf(FlowsWith(flows, s, d), s) == DestinationsOf(flows, s) + [d]
    ensures forall x :: x != s ==> DestinationsOf(FlowsWith(flows, s, d), x) == DestinationsOf(flows, x)
    ensures WellFormedFlows(FlowsWith(flows, s, d))
  {
    var r := FlowsWith(flows, s, d);
    if !DataFlowExists(flows, s, d) {
      forall a, b | a in r && b in r[a] && a != b ensures a !in DestinationsOf(r, b) {
        if a == s {
          assert DestinationsOf(r, b) == DestinationsOf(flows, b);
          if b != d {
            assert b in flows[a];
          }
        } else {
          assert b in flows[a];
          if b == s {
            assert a != d;
          } else {
            assert DestinationsOf(r, b) == DestinationsOf(flows, b);
          }
        }
      }
    }
  }

  /** Adding the same flow again, in either direction, changes nothing. */
  lemma FlowsWithIdempotent(flows: FlowMap, a: string, b: string)
    requires WellFormedFlows(flows)
    ensures FlowsWith(FlowsWith(flows, a, b), a, b) == FlowsWith(flows, a, b)
    ensures FlowsWith(FlowsWith(flows, a, b), b, a) == FlowsWith(flows, a, b)
  {
    FlowsWithMeaning(flows, a, b);
  }

  /** The destinations of every component after `removeDataFlow(s, d)`. */
  lemma FlowsWithoutDestinations(flows: FlowMap, s: string, d: string, x: string)
    requires DataFlowExists(flows, s, d)
    ensures DestinationsOf(FlowsWithout(flows, s, d), x) ==
      if x == s && x == d then Remove(Remove(DestinationsOf(flows, x), d), s)
      else if x == s then Remove(DestinationsOf(flows, x), d)
      else if x == d then Remove(DestinationsOf(flows, x), s)
      else DestinationsOf(flows, x)
  {
  }

  /**
   * Removing a flow disconnects exactly that pair, in both directions; every other pair's
   * connection is unchanged, and the invariant is kept.
   */
  lemma FlowsWithoutMeaning(flows: FlowMap, s: string, d: string)
    requires WellFormedFlows(flows)
    ensures forall x, y :: DataFlowExists(FlowsWithout(flows, s, d), x, y) <==>
      DataFlowExists(flows, x, y) && !(x == s && y == d) && !(x == d && y == s)
    ensures forall x :: x != s && x != d ==> DestinationsOf(FlowsWithout(flows, s, d), x) == DestinationsOf(flows, x)
    ensures WellFormedFlows(FlowsWithout(flows, s, d))
  {
    var r := FlowsWithout(flows, s, d);
    if DataFlowExists(flows, s, d) {
      forall x, y ensures DataFlowExists(r, x, y) <==>
        DataFlowExists(flows, x, y) && !(x == s && y == d) && !(x == d && y == s)
      {
        FlowsWithoutPair(flows, s, d, x, y);
      }
      forall x | x != s && x != d ensures DestinationsOf(r, x) == DestinationsOf(flows, x) {
        FlowsWithoutDestinations(flows, s, d, x);
      }
      FlowsWithoutWellFormed(flows, s, d);
    }
  }

  /** One pair's connection after `removeDataFlow(s, d)`. */
  lemma FlowsWithoutPair(flows: FlowMap, s: string, d: string, x: string, y: string)
    requires WellFormedFlows(flows) && DataFlowExists(flows, s, d)
    ensures DataFlowExists(FlowsWithout(flows, s, d), x, y) <==>
      DataFlowExists(flows, x, y) && !(x == s && y == d) && !(x == d && y == s)
  {
    FlowsWithoutDestinations(flows, s, d, x);
    FlowsWithoutDestinations(flows, s, d, y);
  }

  /** `removeDataFlow(s, d)` keeps the invariant. */
  lemma FlowsWithoutWellFormed(flows: FlowMap, s: string, d: string)
    requires WellFormedFlows(flows) && DataFlowExists(flows, s, d)
    ensures WellFormedFlows(FlowsWithout(flows, s, d))
  {
    var r := FlowsWithout(flows, s, d);
    forall c | c in r ensures NoDup(r[c]) {
      FlowsWithoutDestinations(flows, s, d, c);
    }
    forall a, b | a in r && b in r[a] && a != b ensures a !in DestinationsOf(r, b) {
      FlowsWithoutDestinations(flows, s, d, a);
      FlowsWithoutDestinations(flows, s, d, b);
      assert b in DestinationsOf(flows, a);
    }
  }

  /**
   * Deleting the flows of a removed component leaves it connected to nothing, no record
   * names it, and every pair of other components stays as connected as it was.
   */
  lemma FlowsWithoutComponentMeaning(flows: FlowMap, c: string)
    requires WellFormedFlows(flows)
    ensures forall x :: c !in DestinationsOf(FlowsWithoutComponent(flows, c), x)
    ensures DestinationsOf(FlowsWithoutComponent(flows, c), c) == []
    ensures forall x, y :: DataFlowExists(FlowsWithoutComponent(flows, c), x, y) <==>
      DataFlowExists(flows, x, y) && x != c && y != c
    ensures WellFormedFlows(FlowsWithoutComponent(flows, c))
  {
    var r := FlowsWithoutComponent(flows, c);
    assert forall x :: DestinationsOf(r, x) == if x == c then [] else Remove(DestinationsOf(flows, x), c);
  }

  /** Adding a new flow and then removing it restores every component's destinations. */
  lemma AddThenRemoveFlowRestoresDestinations(flows: FlowMap, s: string, d: string)
    requires !DataFlowExists(flows, s, d)
    ensures forall x :: DestinationsOf(FlowsWithout(FlowsWith(flows, s, d), s, d), x) == DestinationsOf(flows, x)
  {
    var added := FlowsWith(flows, s, d);
    var back := FlowsWithout(added, s, d);
    assert DataFlowExists(added, s, d);
    RemoveInserted(DestinationsOf(flows, s), d);
    forall x ensures DestinationsOf(back, x) == DestinationsOf(flows, x) {
      if x == s {
        assert s !in DestinationsOf(flows, s) || s != d;
      }
    }
  }

  /**
   * The body of `deleteDataFlowsReferencingComponent` before the state update: a copy of
   * the map without the removed component's key, whose every destination set then has
   * the component deleted, one set after another.
   */
  method CopyWithoutComponent(flows: FlowMap, c: string) returns (copied: FlowMap)
    ensures copied == FlowsWithoutComponent(flows, c)
  {
    copied := flows;
    if c in copied {
      copied := copied - {c};
    }
    var pending := copied.Keys;
    while pending != {}
      invariant copied.Keys == flows.Keys - {c}
      invariant pending <= copied.Keys
      invariant forall k | k in copied :: copied[k] == if k in pending then flows[k] else Remove(flows[k], c)
      decreases pending
    {
      var k :| k in pending;
      copied := copied[k := Remove(copied[k], c)];
      pending := pending - {k};
    }
  }
}
