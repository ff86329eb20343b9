/**
 * The earlier copy of the wizard (src/Checkout.tsx): the same system-model handlers over
 * JavaScript's own `Map` and `Set`, without the per-trait add, remove and check.
 */
module Checkout {
  import opened Wrappers
  import opened OrderedSets
  import opened ComponentTraits
  import opened SystemModel
  import DiscussionGuideSteps
  import DiscussionGuide

  /** The wizard's pages; the page shown is `Steps[activeStep]`. */
  const Steps: seq<string> := ["Intro", "Components", "Data Flows", "Discussion Guide"]

  /** The index of the discussion-guide page, the only page that holds a stepper. */
  const GuidePage: int := 3

  class Checkout {
    var activeStep: int
    var components: seq<string>
    var componentTraitsMap: TraitMap
    var dataFlows: FlowMap
    /** The stepper of the mounted discussion-guide page, present only while that page is shown. */
    var guide: DiscussionGuide.VerticalLinearStepper?

    /** What every handler preserves: components are distinct and flows well formed. */
    predicate Valid()
      reads this
    {
      NoDup(components) && WellFormedFlows(dataFlows)
    }

    /** The active step names one of the four pages. */
    predicate StepInRange()
      reads this
    {
      0 <= activeStep < |Steps|
    }

    /** The Next button is rendered only before the last page. */
    predicate NextOffered()
      reads this
    {
      activeStep < |Steps| - 1
    }

    /** The Back button is rendered on every page but the first. */
    predicate BackOffered()
      reads this
    {
      activeStep != 0
    }

    /** A stepper over the current model's topics is mounted exactly on the guide page. */
    predicate GuideMatchesPage()
      reads this, guide
    {
      (guide != null <==> activeStep == GuidePage)
      && (guide != null ==>
        guide.steps == DiscussionGuideSteps.GenerateSteps(components, componentTraitsMap, dataFlows))
    }

    constructor ()
      ensures Valid() && StepInRange() && GuideMatchesPage()
      ensures activeStep == 0 && components == [] && componentTraitsMap == map[] && dataFlows == map[]
      ensures guide == null
    {
      activeStep, components, componentTraitsMap, dataFlows := 0, [], map[], map[];
      guide := null;
    }

    /**
     * Renders the page the active step picks: arriving on the guide page mounts a new
     * stepper, with the first topic open and none complete; any other page has none.
     */
    method ShowPage()
      modifies this`guide
      ensures GuideMatchesPage()
      ensures activeStep == GuidePage ==> fresh(guide) && guide.activeStep == 0 && guide.completedSteps == {}
    {
      if activeStep == GuidePage {
        guide := new DiscussionGuide.VerticalLinearStepper(components, componentTraitsMap, dataFlows);
      } else {
        guide := null;
      }
    }

    /** `handleNext`: an offered Next keeps the step on a page; the guide page gets a fresh stepper. */
    method HandleNext()
      modifies this`activeStep, this`guide
      ensures activeStep == old(activeStep) + 1
      ensures old(StepInRange() && NextOffered()) ==> StepInRange()
      ensures GuideMatchesPage()
      ensures activeStep == GuidePage ==> fresh(guide) && guide.activeStep == 0 && guide.completedSteps == {}
    {
      activeStep := activeStep + 1;
      ShowPage();
    }

    /** `handleBack`: an offered Back keeps the step on a page; leaving the guide page discards its stepper. */
    method HandleBack()
      modifies this`activeStep, this`guide
      ensures activeStep == old(activeStep) - 1
      ensures old(StepInRange() && BackOffered()) ==> StepInRange()
      ensures GuideMatchesPage()
      ensures old(activeStep) == GuidePage ==> guide == null
    {
      activeStep := activeStep - 1;
      ShowPage();
    }

    /**
     * `setComponentTraits(c, ts)` replaces c's traits; `setComponentTraits(c, undefined)`
     * deletes c's entry. Every other entry is kept.
     */
    method SetComponentTraits(component: string, selectedTraits: Option<seq<Trait>>)
      modifies this`componentTraitsMap
      ensures selectedTraits.Some? ==> componentTraitsMap == old(componentTraitsMap)[component := selectedTraits.value]
      ensures selectedTraits.None? ==> componentTraitsMap == old(componentTraitsMap) - {component}
    {
      var updated := componentTraitsMap;
      if selectedTraits.Some? {
        updated := updated[component := selectedTraits.value];
      } else {
        updated := updated - {component};
      }
      componentTraitsMap := updated;
    }

    /**
     * `addComponent`: the list gains the name only when it is new, existing names keep
     * their order, and the component's traits are reset to none even when it existed.
     */
    method AddComponent(component: string)
      requires Valid()
      modifies this`components, this`componentTraitsMap
      ensures Valid()
      ensures components == if component in old(components) then old(components) else old(components) + [component]
      ensures component in components
      ensures componentTraitsMap == old(componentTraitsMap)[component := []]
    {
      var updatedComponents := FromSeq(components);
      FromSeqDistinct(components);
      updatedComponents := Insert(updatedComponents, component);
      components := updatedComponents;
      SetComponentTraits(component, Some([]));
    }

    /** `deleteDataFlowsReferencingComponent`. */
    method DeleteDataFlowsReferencingComponent(removedComponent: string)
      modifies this`dataFlows
      ensures dataFlows == FlowsWithoutComponent(old(dataFlows), removedComponent)
    {
      var copied := CopyWithoutComponent(dataFlows, removedComponent);
      dataFlows := copied;
    }

    /**
     * `removeComponent`: the name leaves the list (the others keep their order), no flow
     * record mentions it any more, flows between other components stay, and its trait
     * entry is deleted.
     */
    method RemoveComponent(removedComponent: string)
      requires Valid()
      modifies this`components, this`dataFlows, this`componentTraitsMap
      ensures Valid()
      ensures components == Remove(old(components), removedComponent)
      ensures dataFlows == FlowsWithoutComponent(old(dataFlows), removedComponent)
      ensures componentTraitsMap == old(componentTraitsMap) - {removedComponent}
      ensures removedComponent !in components && IsSubsequence(components, old(components))
      ensures forall x :: removedComponent !in DestinationsOf(dataFlows, x)
      ensures forall x, y :: SystemModel.DataFlowExists(dataFlows, x, y) <==>
        SystemModel.DataFlowExists(old(dataFlows), x, y) && x != removedComponent && y != removedComponent
    {
      RemoveIsSubsequence(components, removedComponent);
      FlowsWithoutComponentMeaning(dataFlows, removedComponent);
      components := Remove(components, removedComponent);
      DeleteDataFlowsReferencingComponent(removedComponent);
      SetComponentTraits(removedComponent, None);
    }

    /** `dataFlowExists`: a record in either direction. */
    predicate DataFlowExists(sourceComponent: string, destComponent: string)
      reads this
    {
      SystemModel.DataFlowExists(dataFlows, sourceComponent, destComponent)
    }

    /**
     * `addDataFlow`: a no-op when the pair is connected in either direction; otherwise the
     * destination is added under the source only, creating its set when needed.
     */
    method AddDataFlow(sourceComponent: string, destComponent: string)
      requires Valid()
      modifies this`dataFlows
      ensures Valid()
      ensures dataFlows == FlowsWith(old(dataFlows), sourceComponent, destComponent)
      ensures old(DataFlowExists(sourceComponent, destComponent)) ==> dataFlows == old(dataFlows)
      ensures forall x, y :: SystemModel.DataFlowExists(dataFlows, x, y) <==>
        SystemModel.DataFlowExists(old(dataFlows), x, y)
        || (x == sourceComponent && y == destComponent) || (x == destComponent && y == sourceComponent)
    {
      FlowsWithMeaning(dataFlows, sourceComponent, destComponent);
      if DataFlowExists(sourceComponent, destComponent) {
        return;
      }
      var copied := dataFlows;
      if sourceComponent !in copied {
        copied := copied[sourceComponent := []];
      }
      copied := copied[sourceComponent := Insert(copied[sourceComponent], destComponent)];
      assert copied == FlowsWith(dataFlows, sourceComponent, destComponent);
      dataFlows := copied;
    }

    /**
     * `removeDataFlow`: a no-op when the pair is not connected; otherwise the record is
     * deleted in both directions and every other pair stays as it was.
     */
    method RemoveDataFlow(sourceComponent: string, destComponent: string)
      requires Valid()
      modifies this`dataFlows
      ensures Valid()
      ensures dataFlows == FlowsWithout(old(dataFlows), sourceComponent, destComponent)
      ensures !old(DataFlowExists(sourceComponent, destComponent)) ==> dataFlows == old(dataFlows)
      ensures forall x, y :: SystemModel.DataFlowExists(dataFlows, x, y) <==>
        SystemModel.DataFlowExists(old(dataFlows), x, y)
        && !(x == sourceComponent && y == destComponent) && !(x == destComponent && y == sourceComponent)
    {
      FlowsWithoutMeaning(dataFlows, sourceComponent, destComponent);
      if !DataFlowExists(sourceComponent, destComponent) {
        return;
      }
      var copied := dataFlows;
      if sourceComponent in copied {
        copied := copied[sourceComponent := Remove(copied[sourceComponent], destComponent)];
      }
      if destComponent in copied {
        copied := copied[destComponent := Remove(copied[destComponent], sourceComponent)];
      }
      dataFlows := copied;
    }
  }

}
