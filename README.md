# Tension Wrench — a Dafny model of its core

Tension Wrench is a browser application that walks a team through a lightweight threat
model. It has two parts:

- **A wizard.** The user lists the components of a system and tags each one with traits
  (`Out of Scope`, `Azure Resource`, …). Then the user records data flows between
  components. The wizard then generates a discussion guide: an ordered list of STRIDE
  topics (Spoofing, Tampering, Repudiation, Information Disclosure, Denial of Service,
  Escalation of Privilege) per component and per flow. Each topic's guidance depends on
  the traits of the components involved.
- **A pull-request checklist.** The user answers yes/no questions, which may open follow-up
  questions. A checked question can include a named task list. A task list can extend one
  parent list. The page shows the union of the tasks the checked questions bring in.

This project models that logic in Dafny and proves what it promises:

| file | module | what it models |
|---|---|---|
| `ordered_sets.dfy` | `OrderedSets` | JavaScript `Set` (insertion-ordered, no duplicates) and `Array.filter` on sequences |
| `flat_map.dfy` | `FlatMaps` | `Array.prototype.flatMap` and its segment and length laws |
| `component_traits.dfy` | `ComponentTraits` | the trait catalogue, compared by name |
| `checklist_types.dfy` | `ChecklistTypes` | the checklist document: questions, conditions, task lists |
| `system_model.dfy` | `SystemModel` | the trait map and flow map, and the values the edit handlers compute |
| `discussion_guide_steps.dfy` | `DiscussionGuideSteps` | the topic generator `generateSteps` (pure) |
| `discussion_wizard.dfy` | `DiscussionWizard` | the wizard's state and handlers, as a class |
| `checkout.dfy` | `Checkout` | the older copy of the wizard with native `Map`/`Set` |
| `data_flows_editor.dfy` | `DataFlowsEditor` | the new-flow form, its destination filter and the flow listing |
| `discussion_guide.dfy` | `DiscussionGuide` | the vertical stepper over the generated topics |
| `pr_checklist.dfy` | `PRChecklist` | task-list resolution, displayed tasks, question paths, the checkbox handler |

Modelling choices:

- **JavaScript `Set`.** Its iteration order is observable: it orders the generated topics
  and the displayed tasks. So a `Set` is a duplicate-free `seq`:
  - `add` appends a new member;
  - `delete` removes a member;
  - `new Set(xs)` adds the elements of `xs` in order.
- **Flow map.** It is a `map<string, seq<string>>` from a source component to its
  destinations, in insertion order.
- **Stateful components.** Components that keep React state (the wizard, the stepper, the
  form, the checklist page) are classes.
  - Each handler is one atomic state transition.
  - A thrown error is an `Outcome.Fail` that leaves the state unchanged.
  - The wizard shows one page of a list picked by its active step. The guide page's stepper
    is a field that is mounted anew on arriving at that page and discarded on leaving it.
- **Topics.** A topic is a kind, a subject and the list of conditional guidance blocks it
  shows. Its label is computed from the kind and subject. The prose is not modelled.

## Model

| member | source | states |
|---|---|---|
| `OrderedSets.Insert` | src/DiscussionWizard.tsx:144 | `add`: membership gains exactly the new element, the old order is a prefix, no duplicates are created |
| `OrderedSets.InsertAll` | src/PRChecklist.tsx:49-52 | adding a sequence of elements: membership is the union, the old order is a prefix, no duplicates |
| `OrderedSets.FromSeq` | src/DiscussionWizard.tsx:143 | `new Set(xs)`: duplicate-free with exactly the members of `xs` |
| `OrderedSets.FromSeqDistinct` | src/DiscussionWizard.tsx:143-146 | a duplicate-free array copied into a set and back is unchanged |
| `OrderedSets.InsertAllDistinct` | src/PRChecklist.tsx:49 | adding distinct new elements appends them in their order |
| `OrderedSets.AddEach` | src/PRChecklist.tsx:49 | the `forEach(it => result.add(it))` loop computes `InsertAll` |
| `OrderedSets.Filter` | src/DataFlowsEditor.tsx:57-59 | `filter` keeps exactly the elements that pass, each as many times as it occurs, and drops every copy of the others |
| `OrderedSets.FilterFilter` | src/DataFlowsEditor.tsx:57-59 | two filters in a row keep what passes both |
| `OrderedSets.FilterIsSubsequence` | src/DataFlowsEditor.tsx:57-59 | a filter keeps the order of what it keeps |
| `OrderedSets.Remove` | src/DiscussionWizard.tsx:157 | `delete`: removes exactly that element, keeps the rest without duplicates, no-op when absent |
| `OrderedSets.RemoveIsSubsequence` | src/DiscussionWizard.tsx:164 | removing keeps the order of the other names |
| `OrderedSets.RemoveInserted` | src/DiscussionWizard.tsx:179-189 | deleting an element that was just added restores the set |
| `ComponentTraits.NameInjective` | src/ComponentTraits.ts:7-20 | two traits have the same name exactly when they are the same trait |
| `ChecklistTypes.IncludedList` | src/PRChecklist.tsx:191 | the accessor `whenTrue?.taskListToInclude`, a plain definition; what it means for the page is stated by `PRChecklist.DisplayedTasksMembers` and `PRChecklist.SetCheckedAtElsewhere` |
| `ChecklistTypes.FollowUps` | src/PRChecklist.tsx:34 | the accessor `whenTrue?.additionalQuestionsToAsk`, a plain definition; what it means for paths is stated by `PRChecklist.ChildAccessor` and `PRChecklist.ShownIsAddressable` |
| `ChecklistTypes.WithFollowUps` | src/PRChecklist.tsx:181 | replacing a question's follow-ups keeps its text, check mark and task list |
| `SystemModel.DestinationsOf` | src/DiscussionGuideSteps.tsx:280 | the accessor `dataFlows.get(c)?.values() ?? []`, a plain definition; how the handlers change it is stated by `SystemModel.FlowsWithMeaning` and `SystemModel.FlowsWithoutDestinations` |
| `SystemModel.TraitsOf` | src/DiscussionGuideSteps.tsx:16 | the accessor `componentTraitsMap.get(c) ?? []`, a plain definition; what the generator reads of it is stated by `SystemModel.TraitNamesOf` and `DiscussionGuideSteps.MissingTraitEntryIsNoTraits` |
| `SystemModel.TraitNamesOf` | src/DiscussionGuideSteps.tsx:15-17 | a trait's name is in the set exactly when the component's entry holds that trait; empty with no entry |
| `SystemModel.HasTraitNamedIsMembership` | src/DiscussionWizard.tsx:113 | `some(it => it.name === trait.name)` holds exactly when the trait is in the list |
| `SystemModel.HasTraitNamed` | src/DiscussionWizard.tsx:113 | `some(it => it.name === trait.name)`; `SystemModel.HasTraitNamedIsMembership` states that it is list membership |
| `SystemModel.WithoutTraitNamed` | src/DiscussionWizard.tsx:128 | the filter drops every same-named trait and keeps every other one, as often as it occurred and in order |
| `SystemModel.DataFlowExistsSymmetric` | src/DiscussionWizard.tsx:169-171 | `dataFlowExists(a, b) == dataFlowExists(b, a)` |
| `SystemModel.DataFlowExists` | src/DiscussionWizard.tsx:169-171 | a record of the pair in either direction; `SystemModel.DataFlowExistsSymmetric` states that it is symmetric, and the lemmas below how each handler changes it |
| `SystemModel.FlowsWith` | src/DiscussionWizard.tsx:173-182 | the flow map `addDataFlow` installs; described by `SystemModel.FlowsWithMeaning` and `SystemModel.FlowsWithIdempotent` |
| `SystemModel.FlowsWithout` | src/DiscussionWizard.tsx:184-192 | the flow map `removeDataFlow` installs; described by `SystemModel.FlowsWithoutMeaning`, `SystemModel.FlowsWithoutDestinations` and `SystemModel.AddThenRemoveFlowRestoresDestinations` |
| `SystemModel.FlowsWithoutComponent` | src/DiscussionWizard.tsx:152-161 | the flow map `deleteDataFlowsReferencingComponent` installs; described by `SystemModel.FlowsWithoutComponentMeaning` and computed by `SystemModel.CopyWithoutComponent` |
| `SystemModel.FlowsWithMeaning` | src/DiscussionWizard.tsx:173-182 | adding a flow connects exactly that pair. It appends `d` to `s`'s destinations only, changes no other component's record and keeps one record per pair |
| `SystemModel.FlowsWithIdempotent` | src/DiscussionWizard.tsx:174 | adding the same flow again, in either direction, changes nothing |
| `SystemModel.FlowsWithoutDestinations` | src/DiscussionWizard.tsx:184-192 | the destinations of every component after `removeDataFlow` |
| `SystemModel.FlowsWithoutMeaning` | src/DiscussionWizard.tsx:184-192 | removing a flow disconnects exactly that pair in both directions, leaves every other pair and record as it was, and keeps the invariant |
| `SystemModel.FlowsWithoutPair` | src/DiscussionWizard.tsx:184-192 | after `removeDataFlow(s, d)` a pair is connected exactly when it was and is not `{s, d}` |
| `SystemModel.FlowsWithoutWellFormed` | src/DiscussionWizard.tsx:184-192 | `removeDataFlow` keeps distinct destinations and one record per pair |
| `SystemModel.FlowsWithoutComponentMeaning` | src/DiscussionWizard.tsx:152-161 | after the cascade no record names the component, it has no key, other pairs are as connected as before, and the invariant holds |
| `SystemModel.AddThenRemoveFlowRestoresDestinations` | src/DiscussionWizard.tsx:173-192 | adding a new flow and removing it again restores every component's destinations |
| `SystemModel.CopyWithoutComponent` | src/DiscussionWizard.tsx:150-158 | the copy, key deletion and per-set delete loop compute `FlowsWithoutComponent` |
| `DiscussionGuideSteps.ComponentTopics` | src/DiscussionGuideSteps.tsx:23-197 | no topics for an out-of-scope component, five otherwise |
| `DiscussionGuideSteps.ComponentTopicsShape` | src/DiscussionGuideSteps.tsx:23-197 | the five topics are Tampering, Repudiation, Information Disclosure, Denial of Service and Escalation of Privilege of the component. Each has the Azure callout exactly when the component is an Azure resource |
| `DiscussionGuideSteps.ComponentTopicsLabels` | src/DiscussionGuideSteps.tsx:25-160 | the five labels are `c: Tampering` … `c: Escalation of Privilege`, in that order |
| `DiscussionGuideSteps.Topic.Title` | src/DiscussionGuideSteps.tsx:25-287 | the label of a step; `DiscussionGuideSteps.ComponentTopicsLabels` and `DiscussionGuideSteps.FlowTopicsLabels` give it for every generated topic |
| `DiscussionGuideSteps.When` | src/DiscussionGuideSteps.tsx:39 | `{b && <x/>}` shows `x` exactly when `b` holds |
| `DiscussionGuideSteps.SpoofingBlocks` | src/DiscussionGuideSteps.tsx:199-276 | `createSpoofingStepContent`; `DiscussionGuideSteps.SpoofingBlocksMeaning` states which blocks it shows for each combination of roles |
| `DiscussionGuideSteps.SpoofingBlocksMeaning` | src/DiscussionGuideSteps.tsx:199-276 | each conditional block of a spoofing topic appears exactly under its condition on the two components' roles |
| `DiscussionGuideSteps.RolesOfTraits` | src/DiscussionGuideSteps.tsx:200-207 | the roles read from trait names are those in the component's trait list |
| `DiscussionGuideSteps.FlowTopics` | src/DiscussionGuideSteps.tsx:279-385 | every flow gives exactly five topics |
| `DiscussionGuideSteps.FlowTopicsShape` | src/DiscussionGuideSteps.tsx:281-385 | a flow's topics are the spoofing of `c`'s identity, then of `d`'s, then Tampering, Information Disclosure and Denial of Service on the flow, the last three with no conditional blocks |
| `DiscussionGuideSteps.FlowTopicsGuidance` | src/DiscussionGuideSteps.tsx:199-288 | the first spoofing topic is built with spoofed `c` and checking `d`, the second the other way round |
| `DiscussionGuideSteps.FlowTopicsLabels` | src/DiscussionGuideSteps.tsx:281-385 | the five labels of a flow, exactly as the templates write them |
| `DiscussionGuideSteps.Labels` | src/DiscussionGuide.tsx:56 | one label per topic, in topic order |
| `DiscussionGuideSteps.FlowsTopicsCount` | src/DiscussionGuideSteps.tsx:279-281 | each destination contributes five topics |
| `DiscussionGuideSteps.FlowsTopicsAt` | src/DiscussionGuideSteps.tsx:279-281 | the flow topics come in quintets, one per destination, in destination order |
| `DiscussionGuideSteps.FlowsTopics` | src/DiscussionGuideSteps.tsx:279-385 | `dataFlowSteps`; described by `DiscussionGuideSteps.FlowsTopicsCount`, `DiscussionGuideSteps.FlowsTopicsAt` and `DiscussionGuideSteps.FlowsTopicsMention` |
| `DiscussionGuideSteps.TopicsFor` | src/DiscussionGuideSteps.tsx:21-387 | one component's own topics, then its flows' topics; described by `DiscussionGuideSteps.ComponentTopics`, `DiscussionGuideSteps.OutOfScopeKeepsFlowTopics` and `DiscussionGuideSteps.AddFlowAppendsTopics` |
| `DiscussionGuideSteps.GenerateSteps` | src/DiscussionGuideSteps.tsx:19-390 | `generateSteps`; described by `DiscussionGuideSteps.GenerateStepsSegment`, `DiscussionGuideSteps.GenerateStepsCount` and the lemmas that follow |
| `DiscussionGuideSteps.GenerateStepsSegment` | src/DiscussionGuideSteps.tsx:20-387 | a component's own topics, then its flow topics, stand between those of the components before and after it |
| `DiscussionGuideSteps.GenerateStepsCount` | src/DiscussionGuideSteps.tsx:20-387 | the output has five topics per in-scope component plus five per recorded flow of each listed component |
| `DiscussionGuideSteps.OutOfScopeKeepsFlowTopics` | src/DiscussionGuideSteps.tsx:23-281 | an out-of-scope component contributes only, and all, its flow topics |
| `DiscussionGuideSteps.GenerateStepsReadsListedSources` | src/DiscussionGuideSteps.tsx:279-280 | the output depends on the flow map only through the listed components' records |
| `DiscussionGuideSteps.UnlistedFlowKeysIgnored` | src/DiscussionGuideSteps.tsx:279-280 | flow keys that are not listed components contribute nothing |
| `DiscussionGuideSteps.MissingTraitEntryIsNoTraits` | src/DiscussionGuideSteps.tsx:15-17 | a component with no trait entry is treated as one with an empty trait list |
| `DiscussionGuideSteps.GenerateStepsSameTraitNames` | src/DiscussionGuideSteps.tsx:15-17 | the generator reads traits only through their names |
| `DiscussionGuideSteps.FlowsTopicsSameTraitNames` | src/DiscussionGuideSteps.tsx:200-201 | the same for the flow topics |
| `DiscussionGuideSteps.UnreferencedComponentNotMentioned` | src/DiscussionGuideSteps.tsx:20-387 | a component that is neither listed nor a destination of a listed one appears in no topic |
| `DiscussionGuideSteps.FlowsTopicsMention` | src/DiscussionGuideSteps.tsx:281-385 | flow topics mention only the two endpoints |
| `DiscussionGuideSteps.FlowTopicsMention` | src/DiscussionGuideSteps.tsx:281-385 | the five topics of one flow mention only its two endpoints |
| `DiscussionGuideSteps.AddFlowAppendsTopics` | src/DiscussionGuideSteps.tsx:279-281 | a new flow appends its five topics to the source's topics and changes no other component's topics |
| `DiscussionGuideSteps.AddFlowInsertsTopics` | src/DiscussionGuideSteps.tsx:20-387 | in the whole guide, a new flow's five topics are inserted right after the source's earlier topics |
| `DiscussionGuideSteps.AddFlowKeepsOtherSteps` | src/DiscussionGuideSteps.tsx:279-281 | a new flow from `s` leaves the topics of any list of components without `s` as they were |
| `DiscussionGuideSteps.AddThenRemoveFlowRestoresSteps` | src/DiscussionWizard.tsx:173-192 | adding a flow and removing it again gives back the same guide |
| `DiscussionGuideSteps.RemovedComponentNotMentioned` | src/DiscussionWizard.tsx:163-167 | after `removeComponent`, no generated topic names the removed component |
| `DiscussionWizard.Wizard.constructor` | src/DiscussionWizard.tsx:73-78 | the wizard starts on the first page with an empty model that satisfies the invariant, and no guide is mounted |
| `DiscussionWizard.Wizard.HandleNext` | src/DiscussionWizard.tsx:85-87 | `+1`. When Next is offered (`activeStep < 3`), the step stays within the four pages. Arriving on the guide page mounts a new stepper over the current model's topics, with no step complete |
| `DiscussionWizard.Wizard.HandleBack` | src/DiscussionWizard.tsx:89-91 | `-1`. When Back is offered (`activeStep != 0`), the step stays within the four pages. Leaving the guide page discards its stepper with its marks |
| `DiscussionWizard.Wizard.ShowPage` | src/DiscussionWizard.tsx:223-243 | the page list indexed by `activeStep`: a stepper over `GenerateSteps` of the current model exists exactly on the guide page, and it is a new one with the first step open and none complete |
| `DiscussionWizard.Wizard.SetComponentTraits` | src/DiscussionWizard.tsx:93-103 | replaces the component's entry, or deletes it for `undefined`. Every other entry is kept |
| `DiscussionWizard.Wizard.AddComponentTrait` | src/DiscussionWizard.tsx:105-118 | throws without an entry and leaves the state unchanged. Otherwise it appends the trait only when no same-named trait is there |
| `DiscussionWizard.Wizard.RemoveComponentTrait` | src/DiscussionWizard.tsx:120-131 | throws without an entry. Otherwise it drops every same-named trait |
| `DiscussionWizard.Wizard.ComponentHasTrait` | src/DiscussionWizard.tsx:133-140 | throws without an entry. Otherwise it holds exactly when the trait is in the component's list |
| `DiscussionWizard.Wizard.AddComponent` | src/DiscussionWizard.tsx:142-148 | appends the name only when it is new and keeps the order. It resets the component's traits to none and keeps the invariant |
| `DiscussionWizard.Wizard.DeleteDataFlowsReferencingComponent` | src/DiscussionWizard.tsx:152-161 | installs the flow map without the component's key and without it in any destination set |
| `DiscussionWizard.Wizard.RemoveComponent` | src/DiscussionWizard.tsx:163-167 | removes the name and keeps the order of the others. The cascade leaves no record naming the component and keeps other pairs as they were. It deletes the trait entry and keeps the invariant |
| `DiscussionWizard.Wizard.DataFlowExists` | src/DiscussionWizard.tsx:169-171 | `dataFlowExists` on the wizard's flow map; how the flow handlers change it is stated by `DiscussionWizard.Wizard.AddDataFlow` and `DiscussionWizard.Wizard.RemoveDataFlow` |
| `DiscussionWizard.Wizard.AddDataFlow` | src/DiscussionWizard.tsx:173-182 | a no-op when connected in either direction. Otherwise exactly that pair becomes connected and the invariant is kept |
| `DiscussionWizard.Wizard.RemoveDataFlow` | src/DiscussionWizard.tsx:184-192 | a no-op when not connected. Otherwise exactly that pair is disconnected in both directions and the invariant is kept |
| `DiscussionWizard.AddComponentWithImmutableSet` | src/DiscussionWizard.tsx:142-148 | as written, with Immutable.js `Set`: the installed list is the old one (in the old order, see "## Left out") |
| `DiscussionWizard.ImmutableAddComponentLosesName` | src/DiscussionWizard.tsx:142-148 | as written, adding a first component leaves the list without it |
| `DiscussionWizard.AddDataFlowWithImmutableMap` | src/DiscussionWizard.tsx:173-182 | as written, with Immutable.js `Map` and `Set`: the installed flow map is the old one |
| `DiscussionWizard.ImmutableAddDataFlowLosesFlow` | src/DiscussionWizard.tsx:173-182 | as written, adding a first flow leaves the pair unconnected, while the intended handler connects it |
| `Checkout.Checkout.constructor` | src/Checkout.tsx:38-41 | the wizard starts on the first page with an empty model, and no guide is mounted |
| `Checkout.Checkout.HandleNext` | src/Checkout.tsx:43-45 | `+1`. An offered Next keeps the step within the pages. Arriving on the guide page mounts a new stepper with no step complete |
| `Checkout.Checkout.HandleBack` | src/Checkout.tsx:47-49 | `-1`. An offered Back keeps the step within the pages. Leaving the guide page discards its stepper |
| `Checkout.Checkout.ShowPage` | src/Checkout.tsx:144-156 | a stepper over the current model's topics exists exactly on the guide page, newly mounted with none complete |
| `Checkout.Checkout.SetComponentTraits` | src/Checkout.tsx:51-61 | replaces or deletes one entry and keeps every other one |
| `Checkout.Checkout.AddComponent` | src/Checkout.tsx:63-69 | set semantics, order kept, traits reset to none |
| `Checkout.Checkout.DeleteDataFlowsReferencingComponent` | src/Checkout.tsx:73-82 | installs the flow map without the component's key and without it in any destination set |
| `Checkout.Checkout.RemoveComponent` | src/Checkout.tsx:84-88 | removes the name, its flows in every set and its trait entry, and keeps the invariant |
| `Checkout.Checkout.DataFlowExists` | src/Checkout.tsx:90-92 | `dataFlowExists` on this copy's flow map; how the flow handlers change it is stated by `Checkout.Checkout.AddDataFlow` and `Checkout.Checkout.RemoveDataFlow` |
| `Checkout.Checkout.AddDataFlow` | src/Checkout.tsx:94-103 | a no-op when connected in either direction. Otherwise it records the pair under the source |
| `Checkout.Checkout.RemoveDataFlow` | src/Checkout.tsx:105-113 | deletes both directions, only when connected |
| `DataFlowsEditor.DestinationChoices` | src/DataFlowsEditor.tsx:57-59 | the options are an order-preserving subsequence of the choices. They never include the source or a component connected to it in either direction, and every other choice is kept as often as it occurs. With no source, all choices pass |
| `DataFlowsEditor.PickedDestinationAddsFlow` | src/DataFlowsEditor.tsx:25-59 | every offered destination makes a new flow, appended to the source's destinations |
| `DataFlowsEditor.NewDataFlowForm.constructor` | src/DataFlowsEditor.tsx:23 | no source is chosen at first |
| `DataFlowsEditor.NewDataFlowForm.DestinationDisabled` | src/DataFlowsEditor.tsx:54 | the destination picker is disabled exactly while no source is chosen; `DataFlowsEditor.NewDataFlowForm.DestinationOptions` states what it then offers |
| `DataFlowsEditor.NewDataFlowForm.DestinationOptions` | src/DataFlowsEditor.tsx:54-59 | while the picker is disabled it lists every choice; once it is enabled, no option is the source or already connected to it |
| `DataFlowsEditor.NewDataFlowForm.HandleSourceChange` | src/DataFlowsEditor.tsx:44 | the source picker sets the source |
| `DataFlowsEditor.NewDataFlowForm.HandleDestComponentChange` | src/DataFlowsEditor.tsx:25-34 | it submits exactly when both source and destination are chosen, then clears the source. Otherwise nothing changes |
| `DataFlowsEditor.EntriesOf` | src/DataFlowsEditor.tsx:84 | the entries of one source, a plain definition; `DataFlowsEditor.FlowEntriesExact` states what the whole listing holds |
| `DataFlowsEditor.FlowEntries` | src/DataFlowsEditor.tsx:83-97 | the listing, key by key and destination by destination; described by `DataFlowsEditor.FlowEntriesExact` and `DataFlowsEditor.DeleteButtonRemovesEntry` |
| `DataFlowsEditor.FlowEntriesExact` | src/DataFlowsEditor.tsx:83-97 | the listing has exactly one entry per recorded (source, destination) pair |
| `DataFlowsEditor.FlowEntriesNoDup` | src/DataFlowsEditor.tsx:83-97 | the listing has no duplicate entries |
| `DataFlowsEditor.FlowLabel` | src/DataFlowsEditor.tsx:93 | an entry's text; `DataFlowsEditor.FlowLabelShowsEndpoints` states how it is made of the two endpoints |
| `DataFlowsEditor.FlowLabelShowsEndpoints` | src/DataFlowsEditor.tsx:93 | the text starts with the source, ends with the destination and joins them with ` <-> ` |
| `DataFlowsEditor.DeleteButtonRemovesEntry` | src/DataFlowsEditor.tsx:86-88 | after an entry's delete button, the listing shows that pair in neither direction and still shows every other entry |
| `DiscussionGuide.Toggled` | src/DiscussionGuide.tsx:38-48 | the toggled step's membership flips, every other index is unchanged |
| `DiscussionGuide.ToggledTwice` | src/DiscussionGuide.tsx:38-48 | toggling twice restores the set |
| `DiscussionGuide.ToggledCommute` | src/DiscussionGuide.tsx:38-48 | toggles of two steps commute |
| `DiscussionGuide.VerticalLinearStepper.constructor` | src/DiscussionGuide.tsx:20-22 | the steps are exactly `GenerateSteps(components, componentTraitsMap, dataFlows)`, the first is open, none is complete |
| `DiscussionGuide.VerticalLinearStepper.IsStepCompleted` | src/DiscussionGuide.tsx:36 | completion is looked up by index; how the buttons change it is stated by `DiscussionGuide.VerticalLinearStepper.HandleStepToggleCompleted` and `DiscussionGuide.Toggled` |
| `DiscussionGuide.VerticalLinearStepper.HandleNext` | src/DiscussionGuide.tsx:24-26 | `+1`. An offered Continue keeps the open step on a topic |
| `DiscussionGuide.VerticalLinearStepper.HandleBack` | src/DiscussionGuide.tsx:28-30 | `-1`. An enabled Back (index not 0) keeps the open step on a topic |
| `DiscussionGuide.VerticalLinearStepper.HandleStepClick` | src/DiscussionGuide.tsx:32-34 | clicking a step opens it |
| `DiscussionGuide.VerticalLinearStepper.HandleStepToggleCompleted` | src/DiscussionGuide.tsx:38-48 | the completed set becomes `Toggled` of the old one |
| `DiscussionGuide.VerticalLinearStepper.HandleComplete` | src/DiscussionGuide.tsx:62-71 | Complete marks the step and advances only when `index < length - 1` |
| `DiscussionGuide.VerticalLinearStepper.HandleUnmarkCompleted` | src/DiscussionGuide.tsx:80-86 | Unmark removes the step's mark and does not move |
| `DiscussionGuide.AddFlowShiftsLaterSteps` | src/DiscussionGuideSteps.tsx:20-387 | a new flow shifts the indices of the later topics: with two in-scope components, step 5 is the second component's Tampering topic before a flow from the first to the second is recorded, and that flow's first spoofing topic after |
| `DiscussionGuide.FifthStepBefore` | src/DiscussionGuideSteps.tsx:20-387 | with two in-scope components and no flows from the first, step 5 is the second component's Tampering topic |
| `DiscussionGuide.FifthStepAfter` | src/DiscussionGuideSteps.tsx:20-387 | once the flow from the first to the second is recorded, step 5 is the spoofing of the first component's identity on that flow |
| `DiscussionGuide.TwoComponents` | src/DiscussionGuideSteps.tsx:20 | a two-component guide is the first component's topics, then the second's |
| `PRChecklist.Chain` | src/PRChecklist.tsx:44-55 | the `extendsTaskList` chain starts at the list, names only existing lists and fits the bound |
| `PRChecklist.Resolved` | src/PRChecklist.tsx:44-55 | the resolved set has no duplicates |
| `PRChecklist.ResolveTasksFor` | src/PRChecklist.tsx:44-55 | the recursion plus the two `forEach(add)` loops compute `Resolved` |
| `PRChecklist.ResolvedRoot` | src/PRChecklist.tsx:44-55 | a list with no parent resolves to exactly its own tasks, duplicates collapsed |
| `PRChecklist.ResolvedExtends` | src/PRChecklist.tsx:48-52 | a list with a parent resolves to the parent's tasks, in order, followed by its new own tasks |
| `PRChecklist.ResolvedMembers` | src/PRChecklist.tsx:44-55 | a task is resolved exactly when some list on the chain holds it |
| `PRChecklist.ResolvedFuelIrrelevant` | src/PRChecklist.tsx:44-55 | the bound used for the proof does not change the result |
| `PRChecklist.CyclicChainUnresolvable` | src/PRChecklist.tsx:46-49 | two lists that extend each other never resolve, so the precondition excludes cycles |
| `PRChecklist.ResolvedExample` | src/PRChecklist.tsx:44-55 | `High` extends `Medium`, and `High` resolves to Medium's task followed by its own |
| `PRChecklist.DisplayedTasksUpTo` | src/PRChecklist.tsx:188-192 | the tasks of the first `n` top-level questions, each question's contribution added to those before it, have no duplicates |
| `PRChecklist.TasksToDisplay` | src/PRChecklist.tsx:188-192 | the loop over top-level questions computes `DisplayedTasks`, a set without duplicates |
| `PRChecklist.DisplayedTasks` | src/PRChecklist.tsx:188-192 | `tasksToDisplay` as a value; described by `PRChecklist.DisplayedTasksMembers` and `PRChecklist.DisplayedTasksIgnoresFollowUps` |
| `PRChecklist.DisplayedTasksMembers` | src/PRChecklist.tsx:188-192 | a task is displayed exactly when a checked top-level question includes a list whose resolution holds it |
| `PRChecklist.DisplayedTasksUpToMembers` | src/PRChecklist.tsx:188-192 | a task is among the first `n` questions' tasks exactly when one of them brings it |
| `PRChecklist.DisplayedTasksUpToAgree` | src/PRChecklist.tsx:189-191 | two question lists that agree on check marks and task lists bring in the same tasks |
| `PRChecklist.DisplayedTasksIgnoresFollowUps` | src/PRChecklist.tsx:189-191 | follow-up questions never change the displayed tasks |
| `PRChecklist.ChildAccessor` | src/PRChecklist.tsx:34 | a follow-up's accessor is its parent's followed by `?.whenTrue?.additionalQuestionsToAsk?.at(index)` |
| `PRChecklist.QuestionAt` | src/PRChecklist.tsx:23-34 | what a checkbox's accessor reaches; described by `PRChecklist.ChildAccessor` and `PRChecklist.SetCheckedAtTarget` |
| `PRChecklist.SetCheckedAt` | src/PRChecklist.tsx:173-184 | the update succeeds exactly when the path addresses a question, and keeps the number of questions |
| `PRChecklist.SetCheckedAtTarget` | src/PRChecklist.tsx:176-181 | the addressed question gets the new check mark and is otherwise unchanged |
| `PRChecklist.SetCheckedAtElsewhere` | src/PRChecklist.tsx:174-181 | every other path addresses what it did before, with the same text, check mark and task list |
| `PRChecklist.Shown` | src/PRChecklist.tsx:25-37 | which questions are on screen; `PRChecklist.ShownIsAddressable` states that each is addressable and below checked questions only |
| `PRChecklist.ShownIsAddressable` | src/PRChecklist.tsx:25-37 | a question on screen is reachable by its accessor, and every question above it is checked |
| `PRChecklist.ChecklistPage.constructor` | src/PRChecklist.tsx:159-160 | the page holds the loaded checklist |
| `PRChecklist.ChecklistPage.HandleCheckedStateChanged` | src/PRChecklist.tsx:173-184 | fails with "Question reference was undefined" and leaves the data unchanged when the path addresses nothing. Otherwise the copy with that question re-checked replaces the data |

`DiscussionWizard.NavigationWalkthrough` replays the navigation that
src/DiscussionWizard.test.tsx:11-34 drives: Next three times, then Back three times, with
the page names and the offered buttons asserted at each step.
`DiscussionWizard.EditsResetTheGuide` walks through a mark on the guide, a trip back to
the flows page to add a flow, and the return: the guide comes back with no mark.

## Left out

- The guidance prose and JSX markup of every topic. A topic carries only the identifiers of the conditional blocks it shows.
- Loading the checklist (src/PRChecklist.tsx:68-171): fetch, YAML parsing and Ajv schema validation are network I/O and foreign libraries. The model starts from a loaded `Checklist`. Loading errors, the spinner and the error alert are not modelled.
- The presentation-only files (Intro, Info, Warning, ProTip, FloatingFeedbackLink, App, theme) and src/ComponentsEditor.tsx, whose only logic calls the wizard's trait handlers.
- `document.activeElement.blur()` in `handleDestComponentChange`: a DOM side effect.
- React's batching and re-render timing. Each handler is one atomic transition, and a page change mounts or discards the guide's stepper at once (`ShowPage`).
- Edit handlers called while the guide page is shown. The app offers them only on the components and flows pages, where no stepper exists, so their contracts do not restate `GuideMatchesPage`.
- The unused `systemModel` / `IThreatRef` state of src/DiscussionWizard.tsx:43-83.
- `TopicsGroupedByType` (src/DiscussionGuide.tsx:118-150). It filters on a `type` field that `DiscussionGuideStep` does not have, and its last heading spells "Priviledge". Only the in-order view is modelled.
- `ActsAsAClient` and `ActsAsAServer` are read by src/DiscussionGuideSteps.tsx:203-207 but declared nowhere in src/ComponentTraits.ts. The model adds them to the `Trait` datatype with invented names and empty descriptions; as written, reading `.name` of the missing entries would throw. `AllTraits` keeps only the three declared traits.
- `DataFlowsEditor.FlowEntries`: the listing iterates the flow map in its key insertion order, which a Dafny map does not keep. The order is a parameter (`keyOrder`), and the lemmas hold for any order that lists every key once.
- Task identity. The source's `Set<TaskData>` compares task objects by reference. The model compares tasks by value, so two equal tasks from different lists collapse to one.
- `PRChecklist.ResolveTasksFor`: requires the chain to reach a list with no parent within as many steps as there are lists (`Resolvable`). The source dereferences a missing name and recurses through a cycle without a check, so it throws or never returns there. That such a bound is the same as "every name exists and the chain is acyclic" (by the pigeonhole principle) is not proved; `PRChecklist.CyclicChainUnresolvable` proves the two-list cycle case.
- `DiscussionWizard.AddComponentWithImmutableSet`: returns the old list in its old order. Immutable.js `Set` promises no iteration order and keeps insertion order only while a set is small, so for a long list the as-written handler may also reorder the names; the model does not describe that order. The lost name does not depend on it.
- `PRChecklist.TasksToDisplay`: requires every checked top-level question's included list to be `Resolvable`, for the same reason.
- `PRChecklist.ChecklistPage.HandleCheckedStateChanged`: requires the checklist to be loaded, since the checkboxes exist only then. The deep copy by JSON round trip is trivially the value semantics of Dafny datatypes.

Where the code and its written description differ, the model follows the code:
- Displayed tasks come from the checked top-level questions only. Checked follow-ups bring in nothing (`PRChecklist.DisplayedTasksIgnoresFollowUps`).
- Out-of-scope components keep their flow topics (`DiscussionGuideSteps.OutOfScopeKeepsFlowTopics`).

## Findings

| source | as written | input that shows it | evidently intended | confidence | as-written member | corrected member |
|---|---|---|---|---|---|---|
| src/DiscussionWizard.tsx:24, 142-148 | `Set` is imported from Immutable.js, so `updatedComponents.add(component)` returns a new set that is discarded, and the old members are installed again. Immutable.js keeps their insertion order only for small sets, so a long list may also come back reordered | `addComponent("Web Server")` on an empty wizard leaves `components == []` | the name is appended when new, as the native-`Set` copy in src/Checkout.tsx:63-69 does | not executed | `DiscussionWizard.AddComponentWithImmutableSet` | `DiscussionWizard.Wizard.AddComponent` |
| src/DiscussionWizard.tsx:24, 173-182 | `Map` and `Set` are Immutable.js's, so `copiedMap.set(...)` and `copiedMap.get(...)?.add(...)` return new collections that are discarded | `addDataFlow("Browser", "Web Server")` on an empty flow map leaves the two unconnected | the destination is recorded under the source, as src/Checkout.tsx:94-103 does | not executed | `DiscussionWizard.ImmutableAddDataFlowLosesFlow` | `DiscussionWizard.Wizard.AddDataFlow` |

The same shadowing makes the `.set` and `.delete` calls at src/DiscussionWizard.tsx:97-99,
129, 155-158 and 188-189 (the two `.delete` calls of `removeDataFlow`) discard their
results as well. The corrected class models the native
mutate-in-place behaviour throughout.
