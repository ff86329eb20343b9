/**
 * The shape of a pull-request checklist document: questions that may open follow-up
 * questions and include a named task list when answered yes, and task lists that may
 * extend one parent list.
 */
module ChecklistTypes {
  import opened Wrappers

  /** `TaskData`. */
  datatype Task = Task(text: string)

  /** `TaskListData`: the tasks of a list and the name of the list it extends, if any. */
  datatype TaskList = TaskList(extendsTaskList: Option<string>, tasks: seq<Task>)

  /** `ConditionData`: what a yes answer brings in. */
  datatype Condition = Condition(taskListToInclude: Option<string>, additionalQuestionsToAsk: Option<seq<Question>>)

  /** `QuestionData`; `isChecked` is absent until the question is answered. */
  datatype Question = Question(text: string, whenTrue: Option<Condition>, isChecked: Option<bool>)

  /** `ChecklistData`. */
  datatype Checklist = Checklist(questions: seq<Question>, taskLists: map<string, TaskList>)

  /** The truthiness test the page applies to `isChecked`: only an explicit `true` counts. */
  predicate IsChecked(q: Question) {
    q.isChecked == Some(true)
  }

  /** `q.whenTrue?.taskListToInclude`. */
  function IncludedList(q: Question): Option<string> {
    if q.whenTrue.Some? then q.whenTrue.value.taskListToInclude else None
  }

  /** `q.whenTrue?.additionalQuestionsToAsk`. */
  function FollowUps(q: Question): Option<seq<Question>> {
    if q.whenTrue.Some? then q.whenTrue.value.additionalQuestionsToAsk else None
  }

  /** `q` with its follow-up list replaced by `fs`; only meaningful when it has one. */
  function WithFollowUps(q: Question, fs: seq<Question>): (r: Question)
    requires FollowUps(q).Some?
    ensures r.text == q.text && r.isChecked == q.isChecked && IncludedList(r) == IncludedList(q)
    ensures FollowUps(r) == Some(fs)
  {
    q.(whenTrue := Some(q.whenTrue.value.(additionalQuestionsToAsk := Some(fs))))
  }
}
