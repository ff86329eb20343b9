/**
 * The wizard that owns the system model (src/DiscussionWizard.tsx). Each handler copies
 * the current component list, trait map or flow map, changes the copy and installs it
 * as the new state; one call of a handler is one atomic state transition.
 */
module DiscussionWizard {
  import opened Wrappers
  import opened OrderedSets
  import opened ComponentTraits
  import opened SystemModel
  import DiscussionGuideSteps
  import DiscussionGuide

  /** The wizard's pages; the page shown is `Steps[activeStep]`. */
  const Steps: seq<string> := ["Intro", "Components", "Data Flows", "Discussion Guide"]

  /** The index of the discussion-guide page, the only page that holds a stepper. */
  const GuidePage: int := 3

  /** The message of the error the trait handlers throw for a component without a trait entry. */
  const ComponentMissing: string := "Expected component to exist"

  class Wizard {
    var activeStep: int
    var components: seq<string>
    var componentTraitsMap: TraitMap
    var dataFlows: FlowMap
    /**
     * The stepper of the mounted discussion-guide page. The page shown is one element of
     * the page list picked by `activeStep`, so the stepper exists only while the guide page
     * is shown; leaving that page discards it with its open step and marks.
     */
    var guide: DiscussionGuide.VerticalLinearStepper?

    /** What every handler preserves: components are distinct and flows well formed. */
    predicate Valid()
      reads this
    {
      NoDup(components) && WellFormedFlows(dataFlows)
    }

    /** The active step names one of the four pages. */
    predicate StepInRange()
      reads this
    {
      0 <= activeStep < |Steps|
    }

    /** The Next button is rendered only before the last page. */
    predicate NextOffered()
      reads this
    {
      activeStep < |Steps| - 1
    }

    /** The Back button is rendered on every page but the first. */
    predicate BackOffered()
      reads this
    {
      activeStep != 0
    }

    /**
     * A stepper is mounted exactly on the guide page, and it shows the topics generated
     * from the current model.
     */
    predicate GuideMatchesPage()
      reads this, guide
    {
      (guide != null <==> activeStep == GuidePage)
      && (guide != null ==>
        guide.steps == DiscussionGuideSteps.GenerateSteps(components, componentTraitsMap, dataFlows))
    }

    constructor ()
      ensures Valid() && StepInRange() && GuideMatchesPage()
      ensures activeStep == 0 && components == [] && componentTraitsMap == map[] && dataFlows == map[]
      ensures guide == null
    {
      activeStep, components, componentTraitsMap, dataFlows := 0, [], map[], map[];
      guide := null;
    }

    /**
     * Renders the page the active step picks: arriving on the guide page mounts a new
     * stepper, with the first topic open and none complete; any other page has none.
     */
    method ShowPage()
      modifies this`guide
      ensures GuideMatchesPage()
      ensures activeStep == GuidePage ==> fresh(guide) && guide.activeStep == 0 && guide.completedSteps == {}
    {
      if activeStep == GuidePage {
        guide := new DiscussionGuide.VerticalLinearStepper(components, componentTraitsMap, dataFlows);
      } else {
        guide := null;
      }
    }

    /**
     * `handleNext`: pressing an offered Next button keeps the step on a page; reaching the
     * guide page mounts a fresh stepper.
     */
    method HandleNext()
      modifies this`activeStep, this`guide
      ensures activeStep == old(activeStep) + 1
      ensures old(StepInRange() && NextOffered()) ==> StepInRange()
      ensures GuideMatchesPage()
      ensures activeStep == GuidePage ==> fresh(guide) && guide.activeStep == 0 && guide.completedSteps == {}
    {
      activeStep := activeStep + 1;
      ShowPage();
    }

    /**
     * `handleBack`: pressing an offered Back button keeps the step on a page; leaving the
     * guide page discards its stepper.
     */
    method HandleBack()
      modifies this`activeStep, this`guide
      ensures activeStep == old(activeStep) - 1
      ensures old(StepInRange() && BackOffered()) ==> StepInRange()
      ensures GuideMatchesPage()
      ensures old(activeStep) == GuidePage ==> guide == null
    {
      activeStep := activeStep - 1;
      ShowPage();
    }

    /**
     * `setComponentTraits(c, ts)` replaces c's traits; `setComponentTraits(c, undefined)`
     * deletes c's entry. Every other entry is kept.
     */
    method SetComponentTraits(component: string, selectedTraits: Option<seq<Trait>>)
      modifies this`componentTraitsMap
      ensures selectedTraits.Some? ==> componentTraitsMap == old(componentTraitsMap)[component := selectedTraits.value]
      ensures selectedTraits.None? ==> componentTraitsMap == old(componentTraitsMap) - {component}
    {
      var updated := componentTraitsMap;
      if selectedTraits.Some? {
        updated := updated[component := selectedTraits.value];
      } else {
        updated := updated - {component};
      }
      componentTraitsMap := updated;
    }

    /**
     * `addComponentTrait`: throws for a component without a trait entry; otherwise the
     * trait is appended unless a trait of the same name is already there.
     */
    method AddComponentTrait(component: string, componentTrait: Trait) returns (outcome: Outcome)
      modifies this`componentTraitsMap
      ensures outcome == if component in old(componentTraitsMap) then Pass else Fail(ComponentMissing)
      ensures outcome.Fail? ==> componentTraitsMap == old(componentTraitsMap)
      ensures outcome.Pass? ==> componentTraitsMap == old(componentTraitsMap)[component :=
        if HasTraitNamed(old(componentTraitsMap)[component], componentTrait) then old(componentTraitsMap)[component]
        else old(componentTraitsMap)[component] + [componentTrait]]
      ensures outcome.Pass? ==> componentTrait in componentTraitsMap[component]
      ensures outcome.Pass? && NoDup(old(componentTraitsMap)[component]) ==> NoDup(componentTraitsMap[component])
    {
      var updated := componentTraitsMap;
      if component !in updated {
        return Fail(ComponentMissing);
      }
      var componentTraits := updated[component];
      HasTraitNamedIsMembership(componentTraits, componentTrait);
      if !HasTraitNamed(componentTraits, componentTrait) {
        componentTraits := componentTraits + [componentTrait];
      }
      updated := updated[component := componentTraits];
      componentTraitsMap := updated;
      outcome := Pass;
    }

    /**
     * `removeComponentTrait`: throws for a component without a trait entry; otherwise
     * every trait of the same name is dropped and the others keep their order.
     */
    method RemoveComponentTrait(component: string, componentTrait: Trait) returns (outcome: Outcome)
      modifies this`componentTraitsMap
      ensures outcome == if component in old(componentTraitsMap) then Pass else Fail(ComponentMissing)
      ensures outcome.Fail? ==> componentTraitsMap == old(componentTraitsMap)
      ensures outcome.Pass? ==> componentTraitsMap == old(componentTraitsMap)[component :=
        WithoutTraitNamed(old(componentTraitsMap)[component], componentTrait)]
      ensures outcome.Pass? ==> componentTrait !in componentTraitsMap[component]
    {
      var updated := componentTraitsMap;
      if component !in updated {
        return Fail(ComponentMissing);
      }
      var componentTraits := WithoutTraitNamed(updated[component], componentTrait);
      updated := updated[component := componentTraits];
      componentTraitsMap := updated;
      outcome := Pass;
    }

    /** `componentHasTrait`: throws for a component without a trait entry; compares by name. */
    function ComponentHasTrait(component: string, componentTrait: Trait): (r: Result<bool>)
      reads this
      ensures r.Success? <==> component in componentTraitsMap
      ensures r.Failure? ==> r.error == ComponentMissing
      ensures r.Success? ==> (r.value <==> componentTrait in componentTraitsMap[component])
    {
      if component !in componentTraitsMap then Failure(ComponentMissing)
      else
        HasTraitNamedIsMembership(componentTraitsMap[component], componentTrait);
        Success(HasTraitNamed(componentTraitsMap[component], componentTrait))
    }

    /**
     * `addComponent`: the list gains the name only when it is new, existing names keep
     * their order, and the component's traits are reset to none even when it existed.
     */
    method AddComponent(component: string)
      requires Valid()
      modifies this`components, this`componentTraitsMap
      ensures Valid()
      ensures components == if component in old(components) then old(components) else old(components) + [component]
      ensures component in components
      ensures componentTraitsMap == old(componentTraitsMap)[component := []]
    {
      var updatedComponents := FromSeq(components);
      FromSeqDistinct(components);
      updatedComponents := Insert(updatedComponents, component);
      components := updatedComponents;
      SetComponentTraits(component, Some([]));
    }

    /** `deleteDataFlowsReferencingComponent`. */
    method DeleteDataFlowsReferencingComponent(removedComponent: string)
      modifies this`dataFlows
      ensures dataFlows == FlowsWithoutComponent(old(dataFlows), removedComponent)
    {
      var copied := CopyWithoutComponent(dataFlows, removedComponent);
      dataFlows := copied;
    }

    /**
     * `removeComponent`: the name leaves the list (the others keep their order), no flow
     * record mentions it any more, flows between other components stay, and its trait
     * entry is deleted.
     */
    method RemoveComponent(removedComponent: string)
      requires Valid()
      modifies this`components, this`dataFlows, this`componentTraitsMap
      ensures Valid()
      ensures components == Remove(old(components), removedComponent)
      ensures dataFlows == FlowsWithoutComponent(old(dataFlows), removedComponent)
      ensures componentTraitsMap == old(componentTraitsMap) - {removedComponent}
      ensures removedComponent !in components && IsSubsequence(components, old(components))
      ensures forall x :: removedComponent !in DestinationsOf(dataFlows, x)
      ensures forall x, y :: SystemModel.DataFlowExists(dataFlows, x, y) <==>
        SystemModel.DataFlowExists(old(dataFlows), x, y) && x != removedComponent && y != removedComponent
    {
      RemoveIsSubsequence(components, removedComponent);
      FlowsWithoutComponentMeaning(dataFlows, removedComponent);
      components := Remove(components, removedComponent);
      DeleteDataFlowsReferencingComponent(removedComponent);
      SetComponentTraits(removedComponent, None);
    }

    /** `dataFlowExists`: a record in either direction. */
    predicate DataFlowExists(sourceComponent: string, destComponent: string)
      reads this
    {
      SystemModel.DataFlowExists(dataFlows, sourceComponent, destComponent)
    }

    /**
     * `addDataFlow`: a no-op when the pair is connected in either direction; otherwise the
     * destination is added under the source only, creating its set when needed.
     */
    method AddDataFlow(sourceComponent: string, destComponent: string)
      requires Valid()
      modifies this`dataFlows
      ensures Valid()
      ensures dataFlows == FlowsWith(old(dataFlows), sourceComponent, destComponent)
      ensures old(DataFlowExists(sourceComponent, destComponent)) ==> dataFlows == old(dataFlows)
      ensures forall x, y :: SystemModel.DataFlowExists(dataFlows, x, y) <==>
        SystemModel.DataFlowExists(old(dataFlows), x, y)
        || (x == sourceComponent && y == destComponent) || (x == destComponent && y == sourceComponent)
    {
      FlowsWithMeaning(dataFlows, sourceComponent, destComponent);
      if DataFlowExists(sourceComponent, destComponent) {
        return;
      }
      var copied := dataFlows;
      if sourceComponent !in copied {
        copied := copied[sourceComponent := []];
      }
      copied := copied[sourceComponent := Insert(copied[sourceComponent], destComponent)];
      assert copied == FlowsWith(dataFlows, sourceComponent, destComponent);
      dataFlows := copied;
    }

    /**
     * `removeDataFlow`: a no-op when the pair is not connected; otherwise the record is
     * deleted in both directions and every other pair stays as it was.
     */
    method RemoveDataFlow(sourceComponent: string, destComponent: string)
      requires Valid()
      modifies this`dataFlows
      ensures Valid()
      ensures dataFlows == FlowsWithout(old(dataFlows), sourceComponent, destComponent)
      ensures !old(DataFlowExists(sourceComponent, destComponent)) ==> dataFlows == old(dataFlows)
      ensures forall x, y :: SystemModel.DataFlowExists(dataFlows, x, y) <==>
        SystemModel.DataFlowExists(old(dataFlows), x, y)
        && !(x == sourceComponent && y == destComponent) && !(x == destComponent && y == sourceComponent)
    {
      FlowsWithoutMeaning(dataFlows, sourceComponent, destComponent);
      if !DataFlowExists(sourceComponent, destComponent) {
        return;
      }
      var copied := dataFlows;
      if sourceComponent in copied {
        copied := copied[sourceComponent := Remove(copied[sourceComponent], destComponent)];
      }
      if destComponent in copied {
        copied := copied[destComponent := Remove(copied[destComponent], sourceComponent)];
      }
      dataFlows := copied;
    }
  }

  /**
   * `addComponent` as src/DiscussionWizard.tsx:24 makes it run: `Set` there is Immutable.js's,
   * whose `add` returns a new set instead of changing the receiver, so the name added is
   * thrown away and the list installed is the old one.
   */
  function AddComponentWithImmutableSet(components: seq<string>, component: string): (r: seq<string>)
    ensures NoDup(components) ==> r == components
  {
    var updatedComponents := FromSeq(components);
    var discarded := Insert(updatedComponents, component);
    if NoDup(components) then FromSeqDistinct(components); updatedComponents else updatedComponents
  }

  /** Adding a first component with the shadowed `Set` leaves the list empty. */
  lemma ImmutableAddComponentLosesName()
    ensures "Web Server" !in AddComponentWithImmutableSet([], "Web Server")
  {
  }

  /**
   * `addDataFlow` as src/DiscussionWizard.tsx:24 makes it run: the copied map and its sets
   * are Immutable.js collections, so `copiedMap.set(source, new Set())` and
   * `copiedMap.get(source)?.add(dest)` each return a new collection that is thrown away,
   * and the map installed holds the same flows as before.
   */
  function AddDataFlowWithImmutableMap(flows: FlowMap, sourceComponent: string, destComponent: string): (r: FlowMap)
    ensures r == flows
  {
    if SystemModel.DataFlowExists(flows, sourceComponent, destComponent) then flows
    else
      var copiedMap := flows;
      var discardedMap := if sourceComponent in copiedMap then copiedMap else copiedMap[sourceComponent := []];
      var discardedSet := if sourceComponent in copiedMap then Some(Insert(copiedMap[sourceComponent], destComponent)) else None;
      copiedMap
  }

  /** Adding a first flow with the shadowed `Map` and `Set` leaves the two components unconnected. */
  lemma ImmutableAddDataFlowLosesFlow()
    ensures !SystemModel.DataFlowExists(AddDataFlowWithImmutableMap(map[], "Browser", "Web Server"), "Browser", "Web Server")
    ensures SystemModel.DataFlowExists(FlowsWith(map[], "Browser", "Web Server"), "Browser", "Web Server")
  {
    FlowsWithMeaning(map[], "Browser", "Web Server");
  }

  /** The navigation the wizard's test walks through: forward to the last page and back. */
  method NavigationWalkthrough() {
    var wizard := new Wizard();
    assert Steps[wizard.activeStep] == "Intro" && !wizard.BackOffered();
    wizard.HandleNext();
    assert Steps[wizard.activeStep] == "Components";
    wizard.HandleNext();
    assert Steps[wizard.activeStep] == "Data Flows";
    wizard.HandleNext();
    assert Steps[wizard.activeStep] == "Discussion Guide" && !wizard.NextOffered();
    wizard.HandleBack();
    wizard.HandleBack();
    wizard.HandleBack();
    assert Steps[wizard.activeStep] == "Intro" && !wizard.BackOffered();
  }

  /**
   * Marks on the guide do not outlive an edit: the model can only be edited on the
   * components and flows pages, so the guide is left first, and coming back mounts a
   * stepper with no step complete over the regenerated topics.
   */
  method EditsResetTheGuide() {
    var wizard := new Wizard();
    wizard.HandleNext();
    wizard.AddComponent("Web Server");
    wizard.HandleNext();
    wizard.HandleNext();
    var first := wizard.guide;
    first.HandleStepToggleCompleted(0);
    assert first.IsStepCompleted(0);
    wizard.HandleBack();
    assert wizard.guide == null;
    wizard.AddDataFlow("Web Server", "Database");
    wizard.HandleNext();
    assert wizard.guide != first && !wizard.guide.IsStepCompleted(0) && wizard.guide.activeStep == 0;
  }
}
