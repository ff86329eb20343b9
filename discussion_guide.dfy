/**
 * The discussion-guide page (src/DiscussionGuide.tsx): the generated topics shown as a
 * vertical stepper, with the active topic and the set of topics marked complete.
 */
module DiscussionGuide {
  import opened ComponentTraits
  import opened SystemModel
  import opened DiscussionGuideSteps
  import opened FlatMaps

  /** The completed-step set after toggling `stepIndex`: removed if it was there, added otherwise. */
  function Toggled(completedSteps: set<int>, stepIndex: int): (r: set<int>)
    ensures stepIndex in r <==> stepIndex !in completedSteps
    ensures forall j | j != stepIndex :: j in r <==> j in completedSteps
  {
    if stepIndex in completedSteps then completedSteps - {stepIndex} else completedSteps + {stepIndex}
  }

  /** Toggling the same step twice gives back the set it started from. */
  lemma ToggledTwice(completedSteps: set<int>, stepIndex: int)
    ensures Toggled(Toggled(completedSteps, stepIndex), stepIndex) == completedSteps
  {
  }

  /** Toggling one step and then another is the same as toggling them the other way round. */
  lemma ToggledCommute(completedSteps: set<int>, i: int, j: int)
    ensures Toggled(Toggled(completedSteps, i), j) == Toggled(Toggled(completedSteps, j), i)
  {
  }

  /**
   * `VerticalLinearStepper`: the topics, the index of the open topic, and the indices of
   * the topics marked complete. Only the open topic's content, and so only its buttons,
   * is on screen.
   */
  class VerticalLinearStepper {
    var steps: seq<Topic>
    var activeStep: int
    var completedSteps: set<int>

    /**
     * The page's stepper for a system model: its topics are exactly those the generator
     * produces, the first is open and none is complete.
     */
    constructor (components: seq<string>, componentTraitsMap: TraitMap, dataFlows: FlowMap)
      ensures steps == GenerateSteps(components, componentTraitsMap, dataFlows)
      ensures activeStep == 0 && completedSteps == {}
    {
      steps := GenerateSteps(components, componentTraitsMap, dataFlows);
      activeStep := 0;
      completedSteps := {};
    }

    /** The open step is one of the topics. */
    predicate ActiveInRange()
      reads this
    {
      0 <= activeStep < |steps|
    }

    /** `isStepCompleted`: completion is looked up by index. */
    predicate IsStepCompleted(stepIndex: int)
      reads this
    {
      stepIndex in completedSteps
    }

    /** The Continue button, and the "and Continue" of Complete, are shown on every step but the last. */
    predicate ContinueOffered(stepIndex: int)
      reads this
    {
      stepIndex < |steps| - 1
    }

    /** The Back button is disabled on the first step. */
    predicate BackEnabled(stepIndex: int) {
      stepIndex != 0
    }

    /** `handleNext`: an offered Continue on the open step keeps it on a topic. */
    method HandleNext()
      modifies this`activeStep
      ensures activeStep == old(activeStep) + 1
      ensures old(ActiveInRange() && ContinueOffered(activeStep)) ==> ActiveInRange()
    {
      activeStep := activeStep + 1;
    }

    /** `handleBack`: an enabled Back on the open step keeps it on a topic. */
    method HandleBack()
      modifies this`activeStep
      ensures activeStep == old(activeStep) - 1
      ensures old(ActiveInRange() && BackEnabled(activeStep)) ==> ActiveInRange()
    {
      activeStep := activeStep - 1;
    }

    /** `handleStepClick`: clicking a step's label opens that step. */
    method HandleStepClick(stepIndex: int)
      modifies this`activeStep
      ensures activeStep == stepIndex
    {
      activeStep := stepIndex;
    }

    /** `handleStepToggleCompleted`: a copy of the set with the step toggled replaces it. */
    method HandleStepToggleCompleted(stepIndex: int)
      modifies this`completedSteps
      ensures completedSteps == Toggled(old(completedSteps), stepIndex)
    {
      var copiedCompletedSteps := completedSteps;
      if IsStepCompleted(stepIndex) {
        copiedCompletedSteps := copiedCompletedSteps - {stepIndex};
      } else {
        copiedCompletedSteps := copiedCompletedSteps + {stepIndex};
      }
      completedSteps := copiedCompletedSteps;
    }

    /**
     * The Complete button of step `stepIndex` (shown while it is not complete): it marks
     * the step complete and, on every step but the last, moves on to the next one.
     */
    method HandleComplete(stepIndex: int)
      requires !IsStepCompleted(stepIndex)
      modifies this`completedSteps, this`activeStep
      ensures completedSteps == old(completedSteps) + {stepIndex}
      ensures activeStep == if stepIndex < |steps| - 1 then old(activeStep) + 1 else old(activeStep)
      ensures old(ActiveInRange()) && stepIndex == old(activeStep) ==> ActiveInRange()
    {
      HandleStepToggleCompleted(stepIndex);
      if stepIndex < |steps| - 1 {
        HandleNext();
      }
    }

    /** The Unmark Completed button of step `stepIndex` (shown once it is complete). */
    method HandleUnmarkCompleted(stepIndex: int)
      requires IsStepCompleted(stepIndex)
      modifies this`completedSteps
      ensures completedSteps == old(completedSteps) - {stepIndex}
      ensures activeStep == old(activeStep)
    {
      HandleStepToggleCompleted(stepIndex);
    }
  }

  /**
   * A new flow shifts the indices of the later topics: with in-scope components `a` and
   * `b`, step 5 is `b`'s Tampering topic; once a flow from `a` to `b` is recorded, step 5
   * is the first spoofing topic of that flow and `b`'s topics move five places on.
   */
  lemma AddFlowShiftsLaterSteps(a: string, b: string, traits: TraitMap, flows: FlowMap)
    requires WellFormedFlows(flows) && !DataFlowExists(flows, a, b) && DestinationsOf(flows, a) == []
    requires OutOfScope !in TraitsOf(traits, a) && OutOfScope !in TraitsOf(traits, b)
    ensures var before := GenerateSteps([a, b], traits, flows);
      var after := GenerateSteps([a, b], traits, FlowsWith(flows, a, b));
      && |before| > 5 && |after| > 5
      && before[5].Title() == b + ": Tampering"
      && after[5].Title() == a + " <-> " + b + ": Spoofing of '" + a + "' identity"
      && before[5].Title() != after[5].Title()
  {
    var before := GenerateSteps([a, b], traits, flows);
    var after := GenerateSteps([a, b], traits, FlowsWith(flows, a, b));
    FifthStepBefore(a, b, traits, flows);
    FifthStepAfter(a, b, traits, flows);
    assert |before[5].Title()| < |after[5].Title()|;
  }

  /** Without flows from `a`, step 5 is the first topic of `b`: its Tampering topic. */
  lemma FifthStepBefore(a: string, b: string, traits: TraitMap, flows: FlowMap)
    requires DestinationsOf(flows, a) == []
    requires OutOfScope !in TraitsOf(traits, a) && OutOfScope !in TraitsOf(traits, b)
    ensures var before := GenerateSteps([a, b], traits, flows);
      && |before| > 5
      && before[5].kind == Tampering && before[5].subject == OfComponent(b)
  {
    var ownA := ComponentTopics(a, TraitNamesOf(traits, a));
    var ownB := ComponentTopics(b, TraitNamesOf(traits, b));
    TwoComponents(a, b, traits, flows);
    assert |ownA| == 5 && |ownB| == 5;
    assert TopicsFor(a, traits, flows) == ownA by {
      assert FlowsTopics(traits, a, []) == [];
    }
    ComponentTopicsShape(b, TraitNamesOf(traits, b));
    assert TopicsFor(b, traits, flows)[0] == ownB[0];
  }

  /** Once the flow from `a` to `b` is recorded, step 5 is that flow's first spoofing topic. */
  lemma FifthStepAfter(a: string, b: string, traits: TraitMap, flows: FlowMap)
    requires WellFormedFlows(flows) && !DataFlowExists(flows, a, b) && DestinationsOf(flows, a) == []
    requires OutOfScope !in TraitsOf(traits, a)
    ensures var after := GenerateSteps([a, b], traits, FlowsWith(flows, a, b));
      && |after| > 5
      && after[5].kind == Spoofing && after[5].subject == OfIdentity(a, b, a)
  {
    var added := FlowsWith(flows, a, b);
    var ownA := ComponentTopics(a, TraitNamesOf(traits, a));
    TwoComponents(a, b, traits, added);
    FlowsWithMeaning(flows, a, b);
    assert |ownA| == 5;
    assert TopicsFor(a, traits, added) == ownA + FlowTopics(traits, a, b) by {
      assert DestinationsOf(added, a) == [b];
      FlowsTopicsAt(traits, a, [b], 0);
      FlowsTopicsCount(traits, a, [b]);
    }
    FlowTopicsShape(traits, a, b);
  }

  /** The topics of a two-component list: the first component's, then the second's. */
  lemma TwoComponents(a: string, b: string, traits: TraitMap, flows: FlowMap)
    ensures GenerateSteps([a, b], traits, flows) == TopicsFor(a, traits, flows) + TopicsFor(b, traits, flows)
  {
    var f := c => TopicsFor(c, traits, flows);
    assert [a, b][1..] == [b] && [b][1..] == [];
    assert FlatMap(f, [b]) == f(b) + FlatMap(f, []);
  }
}
