/** The task page's filter bar: its option values and the sort-direction toggle. */
module TaskFilter {
  import TaskModel

  const StatusOptions: seq<string> := ["all", "pending", "in-progress", "completed"]
  const PriorityOptions: seq<string> := ["all", "low", "medium", "high"]
  const SortOptions: seq<string> := ["createdAt", "dueDate", "priority"]

  /** The direction button: "asc" becomes "desc", anything else becomes "asc". */
  function Toggle(order: string): (r: string)
    ensures r in {"asc", "desc"}
    ensures r == "desc" <==> order == "asc"
  {
    if order == "asc" then "desc" else "asc"
  }

  /** Toggling twice is the identity on the two directions; from any other value it settles on "asc". */
  lemma ToggleTwice(order: string)
    ensures order in {"asc", "desc"} ==> Toggle(Toggle(order)) == order
    ensures order !in {"asc", "desc"} ==> Toggle(Toggle(order)) == "desc" && Toggle(order) == "asc"
  {
  }

  /** The selectors offer "all" plus exactly the values the task routes accept. */
  lemma OptionsMatchAcceptedValues()
    ensures StatusOptions == ["all"] + TaskModel.Statuses
    ensures PriorityOptions == ["all"] + TaskModel.Priorities
    ensures forall s :: s in SortOptions <==> s in {"createdAt", "dueDate", "priority"}
  {
  }
}
