/**
 * The data-flow page (src/DataFlowsEditor.tsx): the form that picks a source and then a
 * destination for a new flow, and the list of recorded flows.
 */
module DataFlowsEditor {
  import opened Wrappers
  import opened OrderedSets
  import opened SystemModel
  import opened FlatMaps

  /**
   * The destination picker's options: the component choices without the chosen source
   * and without any component already connected to it in either direction. With no
   * source chosen every choice is offered (the picker is then disabled).
   */
  function DestinationChoices(flows: FlowMap, componentChoices: seq<string>, sourceComponent: Option<string>): (r: seq<string>)
    ensures IsSubsequence(r, componentChoices)
    ensures sourceComponent.Some? ==> sourceComponent.value !in r
    ensures forall c :: c in r <==>
      (c in componentChoices && Some(c) != sourceComponent
       && (sourceComponent.Some? ==> !DataFlowExists(flows, sourceComponent.value, c)))
    ensures forall c ::
      multiset(r)[c] == if Some(c) != sourceComponent
        && (sourceComponent.Some? ==> !DataFlowExists(flows, sourceComponent.value, c))
        then multiset(componentChoices)[c] else 0
    ensures sourceComponent.None? ==> r == componentChoices
  {
    var notSource := (choice: string) => Some(choice) != sourceComponent;
    var notConnected := (choice: string) => sourceComponent.None? || !DataFlowExists(flows, sourceComponent.value, choice);
    var r := Filter(Filter(componentChoices, notSource), notConnected);
    var both := (choice: string) => notSource(choice) && notConnected(choice);
    FilterFilter(componentChoices, notSource, notConnected, both);
    FilterIsSubsequence(componentChoices, both);
    assert sourceComponent.None? ==> r == componentChoices by {
      if sourceComponent.None? {
        FilterKeepsAll(componentChoices, notSource);
        FilterKeepsAll(componentChoices, notConnected);
      }
    }
    r
  }

  /**
   * Every destination the picker offers makes a new flow: it is not the source, the pair
   * is not yet connected, so `addDataFlow` records it under the source, after the
   * source's earlier destinations.
   */
  lemma PickedDestinationAddsFlow(flows: FlowMap, componentChoices: seq<string>, source: string, dest: string)
    requires WellFormedFlows(flows)
    requires dest in DestinationChoices(flows, componentChoices, Some(source))
    ensures dest != source && !DataFlowExists(flows, source, dest)
    ensures DestinationsOf(FlowsWith(flows, source, dest), source) == DestinationsOf(flows, source) + [dest]
    ensures DataFlowExists(FlowsWith(flows, source, dest), dest, source)
  {
    FlowsWithMeaning(flows, source, dest);
  }

  /** `NewDataFlowForm`: the chosen source, `null` until one is picked. */
  class NewDataFlowForm {
    var sourceComponent: Option<string>

    constructor ()
      ensures sourceComponent == None
    {
      sourceComponent := None;
    }

    /** The destination picker is disabled while no source is chosen. */
    predicate DestinationDisabled()
      reads this
    {
      sourceComponent.None?
    }

    /**
     * The options the destination picker shows for the current source. While the picker is
     * disabled they are all the choices; once it is enabled, none is the source or
     * already connected to it.
     */
    function DestinationOptions(flows: FlowMap, componentChoices: seq<string>): (r: seq<string>)
      reads this
      ensures DestinationDisabled() ==> r == componentChoices
      ensures !DestinationDisabled() ==> forall c | c in r ::
        c != sourceComponent.value && !DataFlowExists(flows, sourceComponent.value, c)
    {
      DestinationChoices(flows, componentChoices, sourceComponent)
    }

    /** The source picker's `onChange`. */
    method HandleSourceChange(value: Option<string>)
      modifies this
      ensures sourceComponent == value
    {
      sourceComponent := value;
    }

    /**
     * `handleDestComponentChange`: with both a source and a destination, the pair is
     * handed to `handleSubmit` (returned here) and the source is cleared; otherwise
     * nothing happens.
     */
    method HandleDestComponentChange(destComponent: Option<string>) returns (submitted: Option<(string, string)>)
      modifies this
      ensures submitted.Some? <==> old(sourceComponent).Some? && destComponent.Some?
      ensures submitted.Some? ==> submitted.value == (old(sourceComponent).value, destComponent.value)
      ensures sourceComponent == if submitted.Some? then None else old(sourceComponent)
    {
      submitted := None;
      if sourceComponent.Some? && destComponent.Some? {
        submitted := Some((sourceComponent.value, destComponent.value));
        sourceComponent := None;
      }
    }
  }

  /** The entries listed for one source: one per destination in its set, in set order. */
  function EntriesOf(flows: FlowMap, source: string): seq<(string, string)> {
    var dests := DestinationsOf(flows, source);
    seq(|dests|, i requires 0 <= i < |dests| => (source, dests[i]))
  }

  /**
   * The flow list: for each key of the flow map, in `keyOrder` (the map's insertion
   * order, which a Dafny map does not keep), one entry per destination.
   */
  function FlowEntries(flows: FlowMap, keyOrder: seq<string>): (r: seq<(string, string)>) {
    FlatMap(source => EntriesOf(flows, source), keyOrder)
  }

  /** The text of one entry of the flow list. */
  function FlowLabel(entry: (string, string)): string {
    entry.0 + " <-> " + entry.1
  }

  /** An entry's text starts with its source, ends with its destination, and joins them with " <-> ". */
  lemma FlowLabelShowsEndpoints(entry: (string, string))
    ensures var text := FlowLabel(entry);
      && |text| == |entry.0| + 5 + |entry.1|
      && text[..|entry.0|] == entry.0
      && text[|entry.0|..|entry.0| + 5] == " <-> "
      && text[|entry.0| + 5..] == entry.1
  {
  }

  /**
   * The delete button of a listed entry calls `removeFlow` with that entry's pair: after
   * it, the list shows the pair in neither direction, and every other entry is still listed.
   */
  lemma DeleteButtonRemovesEntry(flows: FlowMap, keyOrder: seq<string>, s: string, d: string)
    requires WellFormedFlows(flows)
    requires NoDup(keyOrder) && forall k :: k in keyOrder <==> k in flows
    requires (s, d) in FlowEntries(flows, keyOrder)
    ensures (s, d) !in FlowEntries(FlowsWithout(flows, s, d), keyOrder)
    ensures (d, s) !in FlowEntries(FlowsWithout(flows, s, d), keyOrder)
    ensures forall e | e in FlowEntries(flows, keyOrder) && e != (s, d) ::
      e in FlowEntries(FlowsWithout(flows, s, d), keyOrder)
  {
    var r := FlowsWithout(flows, s, d);
    FlowEntriesExact(flows, keyOrder);
    assert DataFlowExists(flows, s, d);
    FlowsWithoutMeaning(flows, s, d);
    assert forall k :: k in r <==> k in flows;
    FlowEntriesExact(r, keyOrder);
    assert !DataFlowExists(r, s, d);
    forall e | e in FlowEntries(flows, keyOrder) && e != (s, d) ensures e in FlowEntries(r, keyOrder) {
      FlowsWithoutDestinations(flows, s, d, e.0);
      assert e.0 in flows && e.1 in flows[e.0];
      if e.0 == d && e.1 == s {
        assert s in flows && d in flows[s];
      }
    }
  }

  /**
   * The list shows exactly one entry for every recorded (source, destination) pair and
   * nothing else.
   */
  lemma FlowEntriesExact(flows: FlowMap, keyOrder: seq<string>)
    requires WellFormedFlows(flows)
    requires NoDup(keyOrder) && forall k :: k in keyOrder <==> k in flows
    ensures NoDup(FlowEntries(flows, keyOrder))
    ensures forall s, d :: (s, d) in FlowEntries(flows, keyOrder) <==> s in flows && d in flows[s]
  {
    FlowEntriesNoDup(flows, keyOrder);
    var f := source => EntriesOf(flows, source);
    forall s, d ensures (s, d) in FlowEntries(flows, keyOrder) <==> s in flows && d in flows[s] {
      if (s, d) in FlowEntries(flows, keyOrder) {
        FlatMapMember(f, keyOrder, (s, d));
        var i :| 0 <= i < |keyOrder| && (s, d) in f(keyOrder[i]);
        var j :| 0 <= j < |f(keyOrder[i])| && f(keyOrder[i])[j] == (s, d);
      }
      if s in flows && d in flows[s] {
        var i :| 0 <= i < |keyOrder| && keyOrder[i] == s;
        FlatMapSegment(f, keyOrder, i);
        var j :| 0 <= j < |flows[s]| && flows[s][j] == d;
        assert f(s)[j] == (s, d);
      }
    }
  }

  lemma {:induction false} FlowEntriesNoDup(flows: FlowMap, keyOrder: seq<string>)
    requires WellFormedFlows(flows) && NoDup(keyOrder)
    ensures NoDup(FlowEntries(flows, keyOrder))
    ensures forall e | e in FlowEntries(flows, keyOrder) :: e.0 in keyOrder
  {
    if keyOrder != [] {
      var first, rest := keyOrder[0], keyOrder[1..];
      assert NoDup(rest) by {
        forall i, j | 0 <= i < j < |rest| ensures rest[i] != rest[j] {
          assert rest[i] == keyOrder[i + 1] && rest[j] == keyOrder[j + 1];
        }
      }
      FlowEntriesNoDup(flows, rest);
      var head := EntriesOf(flows, first);
      var dests := DestinationsOf(flows, first);
      assert NoDup(head) by {
        assert NoDup(dests);
        forall i, j | 0 <= i < j < |head| ensures head[i] != head[j] {
          assert head[i].1 == dests[i] && head[j].1 == dests[j];
        }
      }
      assert first !in rest by {
        forall k | 0 <= k < |rest| ensures rest[k] != first {
          assert rest[k] == keyOrder[k + 1];
        }
      }
      assert forall e | e in head :: e.0 == first;
      assert FlowEntries(flows, keyOrder) == head + FlowEntries(flows, rest);
      NoDupConcat(head, FlowEntries(flows, rest));
    }
  }
}
