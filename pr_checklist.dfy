/**
 * The pull-request checklist page (src/PRChecklist.tsx): resolving a task list through
 * the lists it extends, the tasks the checked questions bring in, and checking or
 * unchecking one question of the question tree, addressed by a path of indices.
 */
module PRChecklist {
  import opened Wrappers
  import opened OrderedSets
  import opened ChecklistTypes

  /** `{[key: string]: TaskListData}`: the task lists, by name. */
  type TaskLists = map<string, TaskList>

  /** The message of the error thrown when a checkbox's path addresses no question. */
  const QuestionMissing: string := "Question reference was undefined"

  // ---------------------------------------------------------------------------------
  // Task-list resolution
  // ---------------------------------------------------------------------------------

  /**
   * The chain of `extendsTaskList` references from `name` names only lists that exist
   * and ends at a list that extends nothing after at most `fuel` lists. The source
   * dereferences `taskLists[name]` unchecked and recurses without a cycle check, so a
   * missing name or a cyclic chain makes it throw or recurse forever.
   */
  predicate ChainWithin(lists: TaskLists, name: string, fuel: nat)
    decreases fuel
  {
    && fuel > 0
    && name in lists
    && (lists[name].extendsTaskList.Some? ==> ChainWithin(lists, lists[name].extendsTaskList.value, fuel - 1))
  }

  /**
   * The name exists and its chain is acyclic: an acyclic chain through existing lists
   * visits each list at most once, so it ends within as many steps as there are lists.
   */
  predicate Resolvable(lists: TaskLists, name: string) {
    ChainWithin(lists, name, |lists|)
  }

  /** The names on the chain from `name`: the list itself, then its parent, and so on. */
  function Chain(lists: TaskLists, name: string, fuel: nat): (r: seq<string>)
    requires ChainWithin(lists, name, fuel)
    ensures 0 < |r| <= fuel && r[0] == name
    ensures forall k | k in r :: k in lists
    decreases fuel
  {
    match lists[name].extendsTaskList
    case None => [name]
    case Some(parent) => [name] + Chain(lists, parent, fuel - 1)
  }

  /**
   * The set `resolveTasksFor` returns, in iteration order: the parent's resolved tasks
   * first, then the list's own tasks not already among them.
   */
  function Resolved(lists: TaskLists, name: string, fuel: nat): (r: seq<Task>)
    requires ChainWithin(lists, name, fuel)
    ensures NoDup(r)
    decreases fuel
  {
    var inherited := match lists[name].extendsTaskList
      case None => []
      case Some(parent) => Resolved(lists, parent, fuel - 1);
    InsertAll(inherited, lists[name].tasks)
  }

  /**
   * `resolveTasksFor(taskLists, taskListName)`: a fresh set, filled first with the
   * parent's resolved tasks (when the list extends one) and then with the list's own.
   * `fuel` only bounds the recursion for the proof; it does not change the result.
   */
  method ResolveTasksFor(taskLists: TaskLists, taskListName: string, ghost fuel: nat) returns (result: seq<Task>)
    requires ChainWithin(taskLists, taskListName, fuel)
    ensures result == Resolved(taskLists, taskListName, fuel)
    decreases fuel
  {
    result := [];
    var taskData := taskLists[taskListName];
    if taskData.extendsTaskList.Some? {
      var inherited := ResolveTasksFor(taskLists, taskData.extendsTaskList.value, fuel - 1);
      result := AddEach(result, inherited);
      assert [] + inherited == inherited;
      InsertAllDistinct([], inherited);
    }
    result := AddEach(result, taskData.tasks);
  }

  /** A list that extends nothing resolves to exactly its own tasks, duplicates collapsed. */
  lemma ResolvedRoot(lists: TaskLists, name: string, fuel: nat)
    requires ChainWithin(lists, name, fuel) && lists[name].extendsTaskList.None?
    ensures Resolved(lists, name, fuel) == FromSeq(lists[name].tasks)
    ensures forall t :: t in Resolved(lists, name, fuel) <==> t in lists[name].tasks
  {
  }

  /**
   * A list that extends `parent` resolves to the parent's resolved tasks, in their order,
   * followed by those of its own tasks that are new.
   */
  lemma ResolvedExtends(lists: TaskLists, name: string, fuel: nat, parent: string)
    requires ChainWithin(lists, name, fuel) && lists[name].extendsTaskList == Some(parent)
    ensures Resolved(lists, parent, fuel - 1) <= Resolved(lists, name, fuel)
    ensures forall t :: t in Resolved(lists, name, fuel) <==>
      t in Resolved(lists, parent, fuel - 1) || t in lists[name].tasks
  {
  }

  /** A task is resolved for `name` exactly when some list on its chain holds it. */
  lemma {:induction false} ResolvedMembers(lists: TaskLists, name: string, fuel: nat, t: Task)
    requires ChainWithin(lists, name, fuel)
    ensures t in Resolved(lists, name, fuel) <==> exists k | k in Chain(lists, name, fuel) :: t in lists[k].tasks
    decreases fuel
  {
    var chain := Chain(lists, name, fuel);
    match lists[name].extendsTaskList
    case None =>
      assert chain == [name];
    case Some(parent) =>
      ResolvedMembers(lists, parent, fuel - 1, t);
      var rest := Chain(lists, parent, fuel - 1);
      assert chain == [name] + rest;
      if t in Resolved(lists, parent, fuel - 1) {
        var k :| k in rest && t in lists[k].tasks;
        assert k in chain;
      }
      if exists k | k in chain :: t in lists[k].tasks {
        var k :| k in chain && t in lists[k].tasks;
        if k != name {
          assert k in rest;
        }
      }
  }

  /** Any bound long enough for the chain gives the same chain and the same tasks. */
  lemma {:induction false} ResolvedFuelIrrelevant(lists: TaskLists, name: string, f1: nat, f2: nat)
    requires ChainWithin(lists, name, f1) && ChainWithin(lists, name, f2)
    ensures Chain(lists, name, f1) == Chain(lists, name, f2)
    ensures Resolved(lists, name, f1) == Resolved(lists, name, f2)
    decreases f1
  {
    if lists[name].extendsTaskList.Some? {
      ResolvedFuelIrrelevant(lists, lists[name].extendsTaskList.value, f1 - 1, f2 - 1);
    }
  }

  /** Two lists that extend each other (or one that extends itself) can never be resolved. */
  lemma {:induction false} CyclicChainUnresolvable(lists: TaskLists, a: string, b: string, fuel: nat)
    requires a in lists && b in lists
    requires lists[a].extendsTaskList == Some(b) && lists[b].extendsTaskList == Some(a)
    ensures !ChainWithin(lists, a, fuel)
    decreases fuel
  {
    if fuel >= 2 {
      CyclicChainUnresolvable(lists, a, b, fuel - 2);
    }
  }

  /**
   * A two-level chain: `High` extends `Medium`, so it resolves to Medium's task followed
   * by its own, while `Medium` resolves to its single task.
   */
  lemma ResolvedExample()
    ensures var lists := map[
        "Medium" := TaskList(None, [Task("update-threat-model")]),
        "High" := TaskList(Some("Medium"), [Task("consult-security-engineer")])];
      && Resolvable(lists, "High") && Resolvable(lists, "Medium")
      && Resolved(lists, "High", 2) == [Task("update-threat-model"), Task("consult-security-engineer")]
      && Resolved(lists, "Medium", 2) == [Task("update-threat-model")]
  {
    var lists := map[
        "Medium" := TaskList(None, [Task("update-threat-model")]),
        "High" := TaskList(Some("Medium"), [Task("consult-security-engineer")])];
    assert |lists| == 2 by {
      assert lists.Keys == {"Medium", "High"};
    }
    assert Resolved(lists, "Medium", 1) == [Task("update-threat-model")];
    ResolvedFuelIrrelevant(lists, "Medium", 1, 2);
  }

  // ---------------------------------------------------------------------------------
  // Tasks to display
  // ---------------------------------------------------------------------------------

  /** A checked question with a task list names a list that can be resolved. */
  predicate IncludedResolvable(lists: TaskLists, q: Question) {
    IsChecked(q) && IncludedList(q).Some? ==> Resolvable(lists, IncludedList(q).value)
  }

  /** Every top-level question's list, where one is included, can be resolved. */
  predicate AllIncludedResolvable(lists: TaskLists, qs: seq<Question>) {
    forall i | 0 <= i < |qs| :: IncludedResolvable(lists, qs[i])
  }

  /** What one top-level question brings in: its list's tasks when it is checked and has one. */
  function Contribution(lists: TaskLists, q: Question): seq<Task>
    requires IncludedResolvable(lists, q)
  {
    if IsChecked(q) && IncludedList(q).Some? then Resolved(lists, IncludedList(q).value, |lists|) else []
  }

  /**
   * The tasks the first `n` top-level questions bring in, question after question: what
   * each one contributes is added to the set built from the questions before it.
   */
  function DisplayedTasksUpTo(lists: TaskLists, qs: seq<Question>, n: nat): (r: seq<Task>)
    requires AllIncludedResolvable(lists, qs) && n <= |qs|
    ensures NoDup(r)
  {
    if n == 0 then [] else InsertAll(DisplayedTasksUpTo(lists, qs, n - 1), Contribution(lists, qs[n - 1]))
  }

  /** `tasksToDisplay`: what all the top-level questions bring in. Follow-ups are not visited. */
  function DisplayedTasks(lists: TaskLists, qs: seq<Question>): seq<Task>
    requires AllIncludedResolvable(lists, qs)
  {
    DisplayedTasksUpTo(lists, qs, |qs|)
  }

  /**
   * The page's computation of `tasksToDisplay`: the checked questions' lists are resolved
   * and every task of every resolved set is added to one set. (The `flatMap` there keeps
   * each resolved `Set` as one element, since only arrays are flattened, and the
   * `forEach` that follows adds their members.)
   */
  method TasksToDisplay(checklist: Checklist) returns (tasksToDisplay: seq<Task>)
    requires AllIncludedResolvable(checklist.taskLists, checklist.questions)
    ensures tasksToDisplay == DisplayedTasks(checklist.taskLists, checklist.questions)
    ensures NoDup(tasksToDisplay)
  {
    var lists, qs := checklist.taskLists, checklist.questions;
    tasksToDisplay := [];
    var i := 0;
    while i < |qs|
      invariant 0 <= i <= |qs|
      invariant tasksToDisplay == DisplayedTasksUpTo(lists, qs, i)
    {
      var q := qs[i];
      var taskSet := [];
      if IsChecked(q) && IncludedList(q).Some? {
        taskSet := ResolveTasksFor(lists, IncludedList(q).value, |lists|);
      }
      tasksToDisplay := AddEach(tasksToDisplay, taskSet);
      i := i + 1;
    }
  }

  /** The checked top-level question `q` includes a task list whose resolution holds `t`. */
  predicate Brings(lists: TaskLists, q: Question, t: Task)
    requires IncludedResolvable(lists, q)
  {
    IsChecked(q) && IncludedList(q).Some? && t in Resolved(lists, IncludedList(q).value, |lists|)
  }

  /** A task is among the first `n` questions' tasks exactly when one of them brings it. */
  lemma {:induction false} DisplayedTasksUpToMembers(lists: TaskLists, qs: seq<Question>, n: nat, t: Task)
    requires AllIncludedResolvable(lists, qs) && n <= |qs|
    ensures t in DisplayedTasksUpTo(lists, qs, n) <==> exists i | 0 <= i < n :: Brings(lists, qs[i], t)
    decreases n
  {
    if n > 0 {
      var m := n - 1;
      DisplayedTasksUpToMembers(lists, qs, m, t);
      var earlier := DisplayedTasksUpTo(lists, qs, m);
      var added := Contribution(lists, qs[m]);
      assert t in DisplayedTasksUpTo(lists, qs, n) <==> t in earlier || t in added;
      assert t in added <==> Brings(lists, qs[m], t);
      if exists i | 0 <= i < n :: Brings(lists, qs[i], t) {
        var i :| 0 <= i < n && Brings(lists, qs[i], t);
        assert i == m || t in earlier;
      }
    }
  }

  /**
   * A task is displayed exactly when some checked top-level question includes a task list
   * whose resolution holds it.
   */
  lemma DisplayedTasksMembers(lists: TaskLists, qs: seq<Question>, t: Task)
    requires AllIncludedResolvable(lists, qs)
    ensures t in DisplayedTasks(lists, qs) <==> exists i | 0 <= i < |qs| :: Brings(lists, qs[i], t)
  {
    DisplayedTasksUpToMembers(lists, qs, |qs|, t);
  }

  /** Two question lists that agree on check marks and task lists bring in the same tasks. */
  lemma {:induction false} DisplayedTasksUpToAgree(lists: TaskLists, qs: seq<Question>, qs': seq<Question>, n: nat)
    requires AllIncludedResolvable(lists, qs) && AllIncludedResolvable(lists, qs')
    requires n <= |qs| == |qs'|
    requires forall i | 0 <= i < |qs| :: qs'[i].isChecked == qs[i].isChecked && IncludedList(qs'[i]) == IncludedList(qs[i])
    ensures DisplayedTasksUpTo(lists, qs', n) == DisplayedTasksUpTo(lists, qs, n)
    decreases n
  {
    if n > 0 {
      DisplayedTasksUpToAgree(lists, qs, qs', n - 1);
      assert IsChecked(qs'[n - 1]) == IsChecked(qs[n - 1]);
    }
  }

  /**
   * Only the top-level questions' check marks and task lists matter: follow-up
   * questions, checked or not, never change the displayed tasks.
   */
  lemma DisplayedTasksIgnoresFollowUps(lists: TaskLists, qs: seq<Question>, qs': seq<Question>)
    requires AllIncludedResolvable(lists, qs)
    requires |qs'| == |qs|
    requires forall i | 0 <= i < |qs| :: qs'[i].isChecked == qs[i].isChecked && IncludedList(qs'[i]) == IncludedList(qs[i])
    ensures AllIncludedResolvable(lists, qs')
    ensures DisplayedTasks(lists, qs') == DisplayedTasks(lists, qs)
  {
    assert forall i | 0 <= i < |qs| :: IncludedResolvable(lists, qs[i]) ==> IncludedResolvable(lists, qs'[i]);
    DisplayedTasksUpToAgree(lists, qs, qs', |qs|);
  }

  // ---------------------------------------------------------------------------------
  // Question paths
  // ---------------------------------------------------------------------------------

  /**
   * The question a checkbox's accessor reaches: a top-level index, then an index into
   * each question's follow-up list. Any missing list or index out of range gives `None`.
   */
  function QuestionAt(qs: seq<Question>, path: seq<nat>): Option<Question>
    decreases |path|
  {
    if path == [] || path[0] >= |qs| then None
    else if |path| == 1 then Some(qs[path[0]])
    else match FollowUps(qs[path[0]])
      case None => None
      case Some(fs) => QuestionAt(fs, path[1..])
  }

  /**
   * A follow-up's accessor is its parent's accessor followed by
   * `?.whenTrue?.additionalQuestionsToAsk?.at(index)`.
   */
  lemma {:induction false} ChildAccessor(qs: seq<Question>, path: seq<nat>, index: nat)
    requires path != []
    ensures QuestionAt(qs, path + [index]) ==
      match QuestionAt(qs, path)
      case None => None
      case Some(q) =>
        match FollowUps(q)
        case None => None
        case Some(fs) => if index < |fs| then Some(fs[index]) else None
    decreases |path|
  {
    var extended := path + [index];
    assert extended[0] == path[0];
    if path[0] < |qs| {
      if |path| == 1 {
        assert extended[1..] == [index];
      } else if FollowUps(qs[path[0]]).Some? {
        assert extended[1..] == path[1..] + [index];
        ChildAccessor(FollowUps(qs[path[0]]).value, path[1..], index);
      }
    }
  }

  /** The parts of a question a checkbox shows and the page reads, apart from its follow-ups. */
  predicate SameNode(a: Question, b: Question) {
    a.text == b.text && a.isChecked == b.isChecked && IncludedList(a) == IncludedList(b)
  }

  /**
   * The copy of the questions with the addressed question's `isChecked` set, or `None`
   * when the path addresses no question (where the handler throws).
   */
  function SetCheckedAt(qs: seq<Question>, path: seq<nat>, isChecked: bool): (r: Option<seq<Question>>)
    ensures r.Some? <==> QuestionAt(qs, path).Some?
    ensures r.Some? ==> |r.value| == |qs|
    decreases |path|
  {
    if path == [] || path[0] >= |qs| then None
    else if |path| == 1 then Some(qs[path[0] := qs[path[0]].(isChecked := Some(isChecked))])
    else match FollowUps(qs[path[0]])
      case None => None
      case Some(fs) =>
        match SetCheckedAt(fs, path[1..], isChecked)
        case None => None
        case Some(updated) => Some(qs[path[0] := WithFollowUps(qs[path[0]], updated)])
  }

  /** The addressed question ends up checked as asked, and otherwise as it was. */
  lemma {:induction false} SetCheckedAtTarget(qs: seq<Question>, path: seq<nat>, isChecked: bool)
    requires QuestionAt(qs, path).Some?
    ensures QuestionAt(SetCheckedAt(qs, path, isChecked).value, path) ==
      Some(QuestionAt(qs, path).value.(isChecked := Some(isChecked)))
    decreases |path|
  {
    if |path| > 1 {
      var fs := FollowUps(qs[path[0]]).value;
      SetCheckedAtTarget(fs, path[1..], isChecked);
    }
  }

  /**
   * Every other path addresses a question exactly when it did before, and that question's
   * text, check mark and task list are unchanged.
   */
  lemma {:induction false} SetCheckedAtElsewhere(qs: seq<Question>, path: seq<nat>, other: seq<nat>, isChecked: bool)
    requires QuestionAt(qs, path).Some? && other != path
    ensures var r := SetCheckedAt(qs, path, isChecked).value;
      && (QuestionAt(r, other).Some? <==> QuestionAt(qs, other).Some?)
      && (QuestionAt(qs, other).Some? ==> SameNode(QuestionAt(r, other).value, QuestionAt(qs, other).value))
    decreases |path|
  {
    var r := SetCheckedAt(qs, path, isChecked).value;
    if other != [] && other[0] < |qs| {
      var i := other[0];
      if i != path[0] {
        assert r[i] == qs[i];
      } else if |path| == 1 {
        assert |other| > 1;
        assert FollowUps(r[i]) == FollowUps(qs[i]);
      } else if |other| > 1 {
        var fs := FollowUps(qs[i]).value;
        assert other[1..] != path[1..];
        SetCheckedAtElsewhere(fs, path[1..], other[1..], isChecked);
      }
    }
  }

  /** `QuestionComponent` shows its follow-ups only when it is checked and has some. */
  predicate ShowsFollowUps(q: Question) {
    IsChecked(q) && FollowUps(q).Some? && |FollowUps(q).value| > 0
  }

  /** The question at `path` is on screen: every question above it shows its follow-ups. */
  predicate Shown(qs: seq<Question>, path: seq<nat>)
    decreases |path|
  {
    && path != []
    && path[0] < |qs|
    && (|path| > 1 ==> ShowsFollowUps(qs[path[0]]) && Shown(FollowUps(qs[path[0]]).value, path[1..]))
  }

  /**
   * A question on screen is one its checkbox's accessor can reach, and every question
   * above it is checked.
   */
  lemma {:induction false} ShownIsAddressable(qs: seq<Question>, path: seq<nat>)
    requires Shown(qs, path)
    ensures QuestionAt(qs, path).Some?
    ensures forall k | 1 <= k < |path| :: QuestionAt(qs, path[..k]).Some? && IsChecked(QuestionAt(qs, path[..k]).value)
    decreases |path|
  {
    if |path| > 1 {
      var fs := FollowUps(qs[path[0]]).value;
      ShownIsAddressable(fs, path[1..]);
      forall k | 1 <= k < |path| ensures QuestionAt(qs, path[..k]).Some? && IsChecked(QuestionAt(qs, path[..k]).value) {
        if k > 1 {
          assert path[..k][1..] == path[1..][..k - 1];
        }
      }
    }
  }

  /** The page once its checklist has loaded: `dataObj`, replaced by every checkbox change. */
  class ChecklistPage {
    var dataObj: Option<Checklist>

    constructor (data: Checklist)
      ensures dataObj == Some(data)
    {
      dataObj := Some(data);
    }

    /**
     * `handleCheckedStateChanged(accessor, isChecked)`: on a copy of the checklist, the
     * question the path addresses gets the new check mark and the copy replaces the data;
     * a path that addresses nothing throws and leaves the data as it was. The checkboxes
     * exist only once the checklist is loaded.
     */
    method HandleCheckedStateChanged(path: seq<nat>, isChecked: bool) returns (outcome: Outcome)
      requires dataObj.Some?
      modifies this
      ensures outcome == if QuestionAt(old(dataObj).value.questions, path).Some? then Pass else Fail(QuestionMissing)
      ensures outcome.Fail? ==> dataObj == old(dataObj)
      ensures outcome.Pass? ==> dataObj == Some(old(dataObj).value.(questions :=
        SetCheckedAt(old(dataObj).value.questions, path, isChecked).value))
    {
      var copy := dataObj.value;
      var updated := SetCheckedAt(copy.questions, path, isChecked);
      if updated.None? {
        return Fail(QuestionMissing);
      }
      dataObj := Some(copy.(questions := updated.value));
      outcome := Pass;
    }
  }
}
