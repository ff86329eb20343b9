/**
 * The discussion-topic generator (`generateSteps`): a pure mapping from the component
 * list, the trait map and the flow map to the ordered list of STRIDE topics the team
 * talks through. A topic's prose is not modelled; its guidance is represented by the
 * conditional blocks that are included in it.
 */
module DiscussionGuideSteps {
  import opened OrderedSets
  import opened ComponentTraits
  import opened SystemModel
  import opened FlatMaps

  datatype StrideKind =
    | Spoofing | Tampering | Repudiation | InformationDisclosure | DenialOfService | EscalationOfPrivilege
  {
    /** The kind as it is written in a topic label. */
    function Title(): string {
      match this
      case Spoofing => "Spoofing"
      case Tampering => "Tampering"
      case Repudiation => "Repudiation"
      case InformationDisclosure => "Information Disclosure"
      case DenialOfService => "Denial of Service"
      case EscalationOfPrivilege => "Escalation of Privilege"
    }
  }

  /** What a topic is about: a component, a flow, or one endpoint's identity on a flow. */
  datatype Subject =
    | OfComponent(component: string)
    | OfFlow(source: string, dest: string)
    | OfIdentity(source: string, dest: string, spoofed: string)

  /** The guidance blocks that are shown only under a condition on traits. */
  datatype Block =
    | AzureCallout           // the per-kind tip for a component that is an Azure resource
    | ClientBullet           // checking component acts as a client: verify the server's certificate
    | ServerBullet           // checking component acts as a server: require a strong client secret
    | ManagedCertificateTip  // spoofed component is an Azure server: managed TLS certificates
    | ManagedIdentityTip     // spoofed client and checking component both Azure: managed identities
    | AppServiceAuthTip      // spoofed client, checking component Azure: built-in authentication
    | AddTraitsTip           // checking component has neither role: add the client/server traits

  /**
   * `DiscussionGuideStep`: its kind and subject, and the conditional content shown under it.
   * The step's label is determined by the kind and subject and is given by `Title`.
   */
  datatype Topic = Topic(kind: StrideKind, subject: Subject, blocks: seq<Block>)
  {
    /** The step's label, as the generator writes it for each kind of subject. */
    function Title(): string {
      match subject
      case OfComponent(c) => c + ": " + kind.Title()
      case OfFlow(c, d) => c + " <-> " + d + ": " + kind.Title()
      case OfIdentity(c, d, x) => c + " <-> " + d + ": Spoofing of '" + x + "' identity"
    }
  }

  /** The five kinds discussed for every in-scope component, in the order they appear. */
  const ComponentKinds: seq<StrideKind> :=
    [Tampering, Repudiation, InformationDisclosure, DenialOfService, EscalationOfPrivilege]

  /**
   * `componentSteps`: none for an out-of-scope component, otherwise one topic per kind of
   * `ComponentKinds`, each with its Azure callout exactly when the component is an Azure resource.
   */
  function ComponentTopics(c: string, names: set<string>): (r: seq<Topic>)
    ensures |r| == if OutOfScope.Name() in names then 0 else 5
  {
    if OutOfScope.Name() in names then []
    else
      var azure := When(AzureResource.Name() in names, AzureCallout);
      [Topic(Tampering, OfComponent(c), azure),
       Topic(Repudiation, OfComponent(c), azure),
       Topic(InformationDisclosure, OfComponent(c), azure),
       Topic(DenialOfService, OfComponent(c), azure),
       Topic(EscalationOfPrivilege, OfComponent(c), azure)]
  }

  /**
   * An in-scope component's topics take the kinds of `ComponentKinds` in order, are all about
   * the component, and carry the Azure callout exactly when the component is an Azure resource.
   */
  lemma ComponentTopicsShape(c: string, names: set<string>)
    ensures var r := ComponentTopics(c, names);
      && (forall i | 0 <= i < |r| :: r[i].kind == ComponentKinds[i] && r[i].subject == OfComponent(c))
      && (forall i | 0 <= i < |r| :: AzureCallout in r[i].blocks <==> AzureResource.Name() in names)
  {
  }

  /** The roles a component's traits declare, as the spoofing guidance reads them. */
  datatype Roles = Roles(client: bool, server: bool, azure: bool)

  function RolesOf(names: set<string>): Roles {
    Roles(ActsAsAClient.Name() in names, ActsAsAServer.Name() in names, AzureResource.Name() in names)
  }

  /** `[x]` when `b` holds, else nothing: `{b && <x/>}` in the source's markup. */
  function When(b: bool, x: Block): (r: seq<Block>)
    ensures forall y :: y in r <==> b && y == x
  {
    if b then [x] else []
  }

  /**
   * `createSpoofingStepContent(spoofed, checking)`: the conditional blocks of a spoofing
   * topic, from the roles of the component whose identity may be spoofed and of the
   * component that has to check it.
   */
  function SpoofingBlocks(spoofed: Roles, checking: Roles): seq<Block> {
    When(checking.client, ClientBullet)
    + When(checking.server, ServerBullet)
    + When(spoofed.server && spoofed.azure, ManagedCertificateTip)
    + When(spoofed.client && spoofed.azure && checking.azure, ManagedIdentityTip)
    + When(spoofed.client && checking.azure, AppServiceAuthTip)
    + When(!(checking.server || checking.client), AddTraitsTip)
  }

  /** Which blocks a spoofing topic shows, for each combination of roles. */
  lemma SpoofingBlocksMeaning(spoofed: Roles, checking: Roles)
    ensures var r := SpoofingBlocks(spoofed, checking);
      && (ClientBullet in r <==> checking.client)
      && (ServerBullet in r <==> checking.server)
      && (AddTraitsTip in r <==> !checking.client && !checking.server)
      && (ManagedCertificateTip in r <==> spoofed.server && spoofed.azure)
      && (ManagedIdentityTip in r <==> spoofed.client && spoofed.azure && checking.azure)
      && (AppServiceAuthTip in r <==> spoofed.client && checking.azure)
      && AzureCallout !in r
  {
  }

  /**
   * The conditions under which a spoofing topic's guidance shows each block, stated on the
   * trait lists of the component whose identity may be spoofed and of the one checking it.
   */
  predicate GuidanceFor(blocks: seq<Block>, spoofed: seq<Trait>, checking: seq<Trait>) {
    && (ClientBullet in blocks <==> ActsAsAClient in checking)
    && (ServerBullet in blocks <==> ActsAsAServer in checking)
    && (AddTraitsTip in blocks <==> ActsAsAClient !in checking && ActsAsAServer !in checking)
    && (ManagedCertificateTip in blocks <==> ActsAsAServer in spoofed && AzureResource in spoofed)
    && (ManagedIdentityTip in blocks <==> ActsAsAClient in spoofed && AzureResource in spoofed && AzureResource in checking)
    && (AppServiceAuthTip in blocks <==> ActsAsAClient in spoofed && AzureResource in checking)
  }

  /**
   * The five topics of one flow, from the component `c` it is recorded under to `d`: the
   * spoofing of `c` (checked by `d`), the spoofing of `d` (checked by `c`), then tampering,
   * information disclosure and denial of service on the flow.
   */
  function FlowTopics(traits: TraitMap, c: string, d: string): (r: seq<Topic>)
    ensures |r| == 5
  {
    var cRoles := RolesOf(TraitNamesOf(traits, c));
    var dRoles := RolesOf(TraitNamesOf(traits, d));
    [Topic(Spoofing, OfIdentity(c, d, c), SpoofingBlocks(cRoles, dRoles)),
     Topic(Spoofing, OfIdentity(c, d, d), SpoofingBlocks(dRoles, cRoles)),
     Topic(Tampering, OfFlow(c, d), []),
     Topic(InformationDisclosure, OfFlow(c, d), []),
     Topic(DenialOfService, OfFlow(c, d), [])]
  }

  /**
   * The kinds and subjects of a flow's five topics: two spoofing topics, one per endpoint
   * identity, then three about the flow itself with no conditional guidance.
   */
  lemma FlowTopicsShape(traits: TraitMap, c: string, d: string)
    ensures var r := FlowTopics(traits, c, d);
      && r[0].kind == Spoofing && r[0].subject == OfIdentity(c, d, c)
      && r[1].kind == Spoofing && r[1].subject == OfIdentity(c, d, d)
      && r[2].kind == Tampering && r[3].kind == InformationDisclosure && r[4].kind == DenialOfService
      && forall i | 2 <= i < 5 :: r[i].subject == OfFlow(c, d) && r[i].blocks == []
  {
  }

  /**
   * The guidance of a flow's two spoofing topics: the first is about `c`'s identity as
   * `d` has to check it, the second about `d`'s identity as `c` has to check it.
   */
  lemma FlowTopicsGuidance(traits: TraitMap, c: string, d: string)
    ensures GuidanceFor(FlowTopics(traits, c, d)[0].blocks, TraitsOf(traits, c), TraitsOf(traits, d))
    ensures GuidanceFor(FlowTopics(traits, c, d)[1].blocks, TraitsOf(traits, d), TraitsOf(traits, c))
  {
    var cRoles := RolesOf(TraitNamesOf(traits, c));
    var dRoles := RolesOf(TraitNamesOf(traits, d));
    SpoofingBlocksMeaning(cRoles, dRoles);
    SpoofingBlocksMeaning(dRoles, cRoles);
    RolesOfTraits(traits, c);
    RolesOfTraits(traits, d);
  }

  /** The roles read from a component's trait names are those its trait list holds. */
  lemma RolesOfTraits(traits: TraitMap, c: string)
    ensures RolesOf(TraitNamesOf(traits, c)).client <==> ActsAsAClient in TraitsOf(traits, c)
    ensures RolesOf(TraitNamesOf(traits, c)).server <==> ActsAsAServer in TraitsOf(traits, c)
    ensures RolesOf(TraitNamesOf(traits, c)).azure <==> AzureResource in TraitsOf(traits, c)
  {
    var names := TraitNamesOf(traits, c);
    assert ActsAsAClient.Name() in names <==> ActsAsAClient in TraitsOf(traits, c);
    assert ActsAsAServer.Name() in names <==> ActsAsAServer in TraitsOf(traits, c);
    assert AzureResource.Name() in names <==> AzureResource in TraitsOf(traits, c);
  }

  /** `dataFlowSteps`: the flow topics of `c`, destination by destination (`flatMap`). */
  function FlowsTopics(traits: TraitMap, c: string, dests: seq<string>): seq<Topic> {
    FlatMap(d => FlowTopics(traits, c, d), dests)
  }

  /** Everything one component contributes: its own topics, then its flows' topics. */
  function TopicsFor(c: string, traits: TraitMap, flows: FlowMap): seq<Topic> {
    ComponentTopics(c, TraitNamesOf(traits, c)) + FlowsTopics(traits, c, DestinationsOf(flows, c))
  }

  /** `generateSteps(components, componentTraitsMap, dataFlows)`: `components.flatMap(...)`. */
  function GenerateSteps(components: seq<string>, traits: TraitMap, flows: FlowMap): (r: seq<Topic>) {
    FlatMap(c => TopicsFor(c, traits, flows), components)
  }

  /** The labels of a topic list. */
  function Labels(topics: seq<Topic>): (r: seq<string>)
    ensures |r| == |topics|
    ensures forall i | 0 <= i < |topics| :: r[i] == topics[i].Title()
  {
    if topics == [] then [] else [topics[0].Title()] + Labels(topics[1..])
  }

  /** The number of topics: five per in-scope component plus five per recorded flow of each component. */
  function TopicCount(components: seq<string>, traits: TraitMap, flows: FlowMap): nat {
    if components == [] then 0
    else
      var c := components[0];
      (if OutOfScope.Name() in TraitNamesOf(traits, c) then 0 else 5)
      + 5 * |DestinationsOf(flows, c)| + TopicCount(components[1..], traits, flows)
  }

  /** True when topic `t` names component `c`, as its subject or as an endpoint. */
  predicate Mentions(t: Topic, c: string) {
    match t.subject
    case OfComponent(x) => x == c
    case OfFlow(s, d) => s == c || d == c
    case OfIdentity(s, d, x) => s == c || d == c || x == c
  }

  // ---------------------------------------------------------------------------------
  // Properties of the generator
  // ---------------------------------------------------------------------------------

  /** Each flow contributes five topics. */
  lemma FlowsTopicsCount(traits: TraitMap, c: string, dests: seq<string>)
    ensures |FlowsTopics(traits, c, dests)| == 5 * |dests|
  {
    FlatMapUniformLength(d => FlowTopics(traits, c, d), dests, 5);
  }

  /** The flow topics of `c` are the quintets of its destinations, in destination order. */
  lemma FlowsTopicsAt(traits: TraitMap, c: string, dests: seq<string>, j: nat)
    requires j < |dests|
    ensures 5 * j + 5 <= |FlowsTopics(traits, c, dests)|
    ensures FlowsTopics(traits, c, dests)[5 * j .. 5 * j + 5] == FlowTopics(traits, c, dests[j])
  {
    FlatMapUniformAt(d => FlowTopics(traits, c, d), dests, 5, j);
  }

  /**
   * Components are processed in list order: the topics of `components[i]` (its own topics,
   * then its flows' topics) stand between those of the components before and after it.
   */
  lemma GenerateStepsSegment(components: seq<string>, traits: TraitMap, flows: FlowMap, i: nat)
    requires i < |components|
    ensures GenerateSteps(components, traits, flows) ==
      GenerateSteps(components[..i], traits, flows)
      + TopicsFor(components[i], traits, flows)
      + GenerateSteps(components[i + 1..], traits, flows)
  {
    FlatMapSegment(c => TopicsFor(c, traits, flows), components, i);
  }

  /** The length of the output. */
  lemma {:induction false} GenerateStepsCount(components: seq<string>, traits: TraitMap, flows: FlowMap)
    ensures |GenerateSteps(components, traits, flows)| == TopicCount(components, traits, flows)
  {
    if components != [] {
      GenerateStepsCount(components[1..], traits, flows);
      FlowsTopicsCount(traits, components[0], DestinationsOf(flows, components[0]));
    }
  }

  /**
   * An out-of-scope component contributes only its flows' topics; neither endpoint's scope
   * is consulted for those.
   */
  lemma OutOfScopeKeepsFlowTopics(c: string, traits: TraitMap, flows: FlowMap)
    requires OutOfScope in TraitsOf(traits, c)
    ensures TopicsFor(c, traits, flows) == FlowsTopics(traits, c, DestinationsOf(flows, c))
    ensures |TopicsFor(c, traits, flows)| == 5 * |DestinationsOf(flows, c)|
  {
    FlowsTopicsCount(traits, c, DestinationsOf(flows, c));
  }

  /**
   * Only the flows recorded under listed components matter: two flow maps that agree on
   * the listed components' destinations give the same topics.
   */
  lemma {:induction false} GenerateStepsReadsListedSources(components: seq<string>, traits: TraitMap, f1: FlowMap, f2: FlowMap)
    requires forall c | c in components :: DestinationsOf(f1, c) == DestinationsOf(f2, c)
    ensures GenerateSteps(components, traits, f1) == GenerateSteps(components, traits, f2)
  {
    if components != [] {
      GenerateStepsReadsListedSources(components[1..], traits, f1, f2);
    }
  }

  /** In particular, flow keys that are not listed components contribute nothing. */
  lemma UnlistedFlowKeysIgnored(components: seq<string>, traits: TraitMap, flows: FlowMap)
    ensures GenerateSteps(components, traits, flows) ==
      GenerateSteps(components, traits, map k | k in flows && k in components :: flows[k])
  {
    GenerateStepsReadsListedSources(components, traits, flows, map k | k in flows && k in components :: flows[k]);
  }

  /** A component with no trait entry gets the same topics as one whose trait list is empty. */
  lemma {:induction false} MissingTraitEntryIsNoTraits(components: seq<string>, traits: TraitMap, flows: FlowMap, c: string)
    requires c !in traits
    ensures GenerateSteps(components, traits, flows) == GenerateSteps(components, traits[c := []], flows)
  {
    assert forall x :: TraitNamesOf(traits, x) == TraitNamesOf(traits[c := []], x);
    GenerateStepsSameTraitNames(components, traits, traits[c := []], flows);
  }

  /** The generator sees traits only through their names. */
  lemma {:induction false} GenerateStepsSameTraitNames(components: seq<string>, t1: TraitMap, t2: TraitMap, flows: FlowMap)
    requires forall x :: TraitNamesOf(t1, x) == TraitNamesOf(t2, x)
    ensures GenerateSteps(components, t1, flows) == GenerateSteps(components, t2, flows)
  {
    if components != [] {
      GenerateStepsSameTraitNames(components[1..], t1, t2, flows);
      FlowsTopicsSameTraitNames(components[0], DestinationsOf(flows, components[0]), t1, t2);
    }
  }

  lemma {:induction false} FlowsTopicsSameTraitNames(c: string, dests: seq<string>, t1: TraitMap, t2: TraitMap)
    requires forall x :: TraitNamesOf(t1, x) == TraitNamesOf(t2, x)
    ensures FlowsTopics(t1, c, dests) == FlowsTopics(t2, c, dests)
  {
    if dests != [] {
      FlowsTopicsSameTraitNames(c, dests[1..], t1, t2);
      assert TraitNamesOf(t1, c) == TraitNamesOf(t2, c) && TraitNamesOf(t1, dests[0]) == TraitNamesOf(t2, dests[0]);
    }
  }

  /**
   * A component that is not listed and that no listed component's record names appears
   * in no topic.
   */
  lemma UnreferencedComponentNotMentioned(components: seq<string>, traits: TraitMap, flows: FlowMap, c: string)
    requires c !in components
    requires forall x | x in components :: c !in DestinationsOf(flows, x)
    ensures forall t | t in GenerateSteps(components, traits, flows) :: !Mentions(t, c)
  {
    forall t | t in GenerateSteps(components, traits, flows) ensures !Mentions(t, c) {
      FlatMapMember(x => TopicsFor(x, traits, flows), components, t);
      var i :| 0 <= i < |components| && t in TopicsFor(components[i], traits, flows);
      var x := components[i];
      var own := ComponentTopics(x, TraitNamesOf(traits, x));
      if t in own {
        ComponentTopicsShape(x, TraitNamesOf(traits, x));
        var k :| 0 <= k < |own| && own[k] == t;
      } else {
        FlowsTopicsMention(traits, x, DestinationsOf(flows, x), c);
      }
    }
  }

  lemma FlowsTopicsMention(traits: TraitMap, x: string, dests: seq<string>, c: string)
    requires x != c && c !in dests
    ensures forall t | t in FlowsTopics(traits, x, dests) :: !Mentions(t, c)
  {
    forall t | t in FlowsTopics(traits, x, dests) ensures !Mentions(t, c) {
      FlatMapMember(d => FlowTopics(traits, x, d), dests, t);
      var i :| 0 <= i < |dests| && t in FlowTopics(traits, x, dests[i]);
      FlowTopicsMention(traits, x, dests[i], c);
    }
  }

  /** A flow's topics mention only its two endpoints. */
  lemma FlowTopicsMention(traits: TraitMap, x: string, d: string, c: string)
    requires x != c && d != c
    ensures forall t | t in FlowTopics(traits, x, d) :: !Mentions(t, c)
  {
    var r := FlowTopics(traits, x, d);
    FlowTopicsShape(traits, x, d);
    forall k | 0 <= k < 5 ensures !Mentions(r[k], c) {
      assert r[k].subject == OfIdentity(x, d, x) || r[k].subject == OfIdentity(x, d, d) || r[k].subject == OfFlow(x, d);
    }
  }

  /** The labels of an in-scope component's topics, as the generator writes them. */
  lemma ComponentTopicsLabels(c: string, names: set<string>)
    requires OutOfScope.Name() !in names
    ensures Labels(ComponentTopics(c, names)) ==
      [c + ": " + "Tampering", c + ": " + "Repudiation", c + ": " + "Information Disclosure",
       c + ": " + "Denial of Service", c + ": " + "Escalation of Privilege"]
  {
  }

  /** The labels of a flow's five topics, as the generator writes them. */
  lemma FlowTopicsLabels(traits: TraitMap, c: string, d: string)
    ensures Labels(FlowTopics(traits, c, d)) ==
      [c + " <-> " + d + ": Spoofing of '" + c + "' identity",
       c + " <-> " + d + ": Spoofing of '" + d + "' identity",
       c + " <-> " + d + ": " + "Tampering",
       c + " <-> " + d + ": " + "Information Disclosure",
       c + " <-> " + d + ": " + "Denial of Service"]
  {
  }

  /**
   * Recording a new flow from `s` to `d` appends that flow's five topics to the topics of
   * `s`, after the ones it had, and changes no other component's topics.
   */
  lemma AddFlowAppendsTopics(traits: TraitMap, flows: FlowMap, s: string, d: string)
    requires WellFormedFlows(flows) && !DataFlowExists(flows, s, d)
    ensures TopicsFor(s, traits, FlowsWith(flows, s, d)) == TopicsFor(s, traits, flows) + FlowTopics(traits, s, d)
    ensures forall x | x != s :: TopicsFor(x, traits, FlowsWith(flows, s, d)) == TopicsFor(x, traits, flows)
  {
    FlowsWithMeaning(flows, s, d);
    var f := e => FlowTopics(traits, s, e);
    FlatMapAppend(f, DestinationsOf(flows, s), [d]);
    assert FlatMap(f, [d]) == FlowTopics(traits, s, d) + FlatMap(f, []);
  }

  /** For the whole list: the generated topics gain the new flow's topics right after those of `s`. */
  lemma AddFlowInsertsTopics(components: seq<string>, traits: TraitMap, flows: FlowMap, s: string, d: string, i: nat)
    requires WellFormedFlows(flows) && !DataFlowExists(flows, s, d)
    requires NoDup(components) && i < |components| && components[i] == s
    ensures GenerateSteps(components, traits, FlowsWith(flows, s, d)) ==
      GenerateSteps(components[..i], traits, flows)
      + TopicsFor(s, traits, flows) + FlowTopics(traits, s, d)
      + GenerateSteps(components[i + 1..], traits, flows)
  {
    var added := FlowsWith(flows, s, d);
    var before, after := components[..i], components[i + 1..];
    AddFlowAppendsTopics(traits, flows, s, d);
    GenerateStepsSegment(components, traits, added, i);
    assert s !in before by {
      forall k | 0 <= k < i ensures before[k] != s {
        assert before[k] == components[k];
      }
    }
    assert s !in after by {
      forall k | 0 <= k < |after| ensures after[k] != s {
        assert after[k] == components[i + 1 + k];
      }
    }
    AddFlowKeepsOtherSteps(before, traits, flows, s, d);
    AddFlowKeepsOtherSteps(after, traits, flows, s, d);
    ConcatAssociative(GenerateSteps(before, traits, flows), TopicsFor(s, traits, flows), FlowTopics(traits, s, d));
  }

  /** A new flow from `s` leaves the topics of a list without `s` as they were. */
  lemma AddFlowKeepsOtherSteps(xs: seq<string>, traits: TraitMap, flows: FlowMap, s: string, d: string)
    requires WellFormedFlows(flows) && s !in xs
    ensures GenerateSteps(xs, traits, FlowsWith(flows, s, d)) == GenerateSteps(xs, traits, flows)
  {
    FlowsWithMeaning(flows, s, d);
    GenerateStepsReadsListedSources(xs, traits, FlowsWith(flows, s, d), flows);
  }

  /** Stated apart so that the step above is proved outside that lemma's large context. */
  lemma ConcatAssociative<T>(a: seq<T>, b: seq<T>, c: seq<T>)
    ensures a + (b + c) == a + b + c
  {
  }

  /** Adding a flow and then removing it again gives back the same topics. */
  lemma AddThenRemoveFlowRestoresSteps(components: seq<string>, traits: TraitMap, flows: FlowMap, s: string, d: string)
    requires !DataFlowExists(flows, s, d)
    ensures GenerateSteps(components, traits, FlowsWithout(FlowsWith(flows, s, d), s, d)) ==
      GenerateSteps(components, traits, flows)
  {
    AddThenRemoveFlowRestoresDestinations(flows, s, d);
    GenerateStepsReadsListedSources(components, traits, FlowsWithout(FlowsWith(flows, s, d), s, d), flows);
  }

  /**
   * Once a component is removed (from the list, the trait map and, with its flows, from the
   * flow map), no generated topic names it any more.
   */
  lemma RemovedComponentNotMentioned(components: seq<string>, traits: TraitMap, flows: FlowMap, c: string)
    requires WellFormedFlows(flows)
    ensures forall t | t in GenerateSteps(Remove(components, c), traits - {c}, FlowsWithoutComponent(flows, c)) ::
      !Mentions(t, c)
  {
    FlowsWithoutComponentMeaning(flows, c);
    UnreferencedComponentNotMentioned(Remove(components, c), traits - {c}, FlowsWithoutComponent(flows, c), c);
  }
}
