/** The board store of src/stores/useBoard.ts: the id of the selected inbox
    task, and three subtask edits that take effect by sending a patch
    through the inbox store's `update`. Fresh subtask ids and the current
    time are parameters. */
module Board {
  import opened Wrappers
  import opened Inbox

  const Todo: string := "todo"

  /** `tasks.find(t => t.id === id)`: the first task with the id. */
  function FindById(ts: seq<Task>, id: string): (r: Option<Task>)
    ensures r.None? <==> forall j :: 0 <= j < |ts| ==> ts[j].id != id
    ensures r.Some? ==> exists i :: 0 <= i < |ts| && ts[i] == r.value && r.value.id == id
                                    && forall j :: 0 <= j < i ==> ts[j].id != id
  {
    match FindTask(ts, id)
    case None => None
    case Some(i) => Some(ts[i])
  }

  /** `[...(subtasks || []), s]`: the old subtasks, in order, then `s`. */
  function AppendSubtask(subtasks: Option<seq<SubTask>>, s: SubTask): (r: seq<SubTask>)
    ensures |r| == |subtasks.GetOr([])| + 1
    ensures r[..|r| - 1] == subtasks.GetOr([]) && r[|r| - 1] == s
  {
    subtasks.GetOr([]) + [s]
  }

  /** `subtasks.map(s => s.id === subId ? { ...s, status } : s)`. */
  function SetStatus(subtasks: seq<SubTask>, subId: string, status: string): (r: seq<SubTask>)
    ensures |r| == |subtasks|
    ensures forall i :: 0 <= i < |r| ==> r[i].id == subtasks[i].id && r[i].title == subtasks[i].title
    ensures forall i :: 0 <= i < |r| && subtasks[i].id == subId ==> r[i].status == status
    ensures forall i :: 0 <= i < |r| && subtasks[i].id != subId ==> r[i] == subtasks[i]
  {
    if subtasks == [] then []
    else
      var s := subtasks[0];
      [if s.id == subId then s.(status := status) else s] + SetStatus(subtasks[1..], subId, status)
  }

  /** Setting a status twice is setting it once, and an id no subtask has
      changes nothing. */
  lemma SetStatusSpec(subtasks: seq<SubTask>, subId: string, status: string)
    ensures SetStatus(SetStatus(subtasks, subId, status), subId, status) == SetStatus(subtasks, subId, status)
    ensures (forall i :: 0 <= i < |subtasks| ==> subtasks[i].id != subId) ==>
              SetStatus(subtasks, subId, status) == subtasks
  {
  }

  /** `{ ...t }` as a patch: every property `t` has. */
  function PatchOf(t: Task): TaskPatch {
    TaskPatch(Some(t.id), Some(t.title), t.description, t.createdAt, t.updatedAt, Some(t.status),
              t.tags, t.priority, t.plannerDate, t.subtasks)
  }

  /** The patch `{ subtasks: xs }`. */
  function SubtasksPatch(xs: seq<SubTask>): TaskPatch {
    NoChange.(subtasks := Some(xs))
  }

  /** The patch `addSubtask` sends: the selected task as the board sees it,
      with the new subtask appended. */
  function AddPatch(sel: Task, s: SubTask): TaskPatch {
    PatchOf(sel.(subtasks := Some(AppendSubtask(sel.subtasks, s))))
  }

  /** Applied to the stored task, that patch appends exactly the new
      subtask to the subtasks the board saw, and copies the board's view of
      every other property the selected task has over the stored one. */
  lemma AddPatchApplied(stored: Task, sel: Task, s: SubTask, now: string)
    ensures var r := ApplyPatch(stored, AddPatch(sel, s), now);
            && r.subtasks == Some(sel.subtasks.GetOr([]) + [s])
            && r.id == sel.id && r.title == sel.title && r.status == sel.status
            && r.updatedAt == Some(now)
            && r.description == (if sel.description.Some? then sel.description else stored.description)
            && r.createdAt == (if sel.createdAt.Some? then sel.createdAt else stored.createdAt)
            && r.tags == (if sel.tags.Some? then sel.tags else stored.tags)
            && r.priority == (if sel.priority.Some? then sel.priority else stored.priority)
            && r.plannerDate == (if sel.plannerDate.Some? then sel.plannerDate else stored.plannerDate)
  {
  }

  /** Applied to the stored task, `{ subtasks: xs }` replaces the subtasks by
      exactly `xs` and, but for the time stamp, changes nothing else. */
  lemma SubtasksPatchApplied(stored: Task, xs: seq<SubTask>, now: string)
    ensures ApplyPatch(stored, SubtasksPatch(xs), now) == stored.(subtasks := Some(xs), updatedAt := Some(now))
  {
  }

  class BoardStore {
    const inbox: InboxStore
    var selectedTaskId: string

    constructor (inbox: InboxStore)
      ensures this.inbox == inbox && selectedTaskId == ""
    {
      this.inbox := inbox;
      selectedTaskId := "";
    }

    /** `selectedTask`: the first in-memory inbox task with the selected id. */
    function SelectedTask(): (r: Option<Task>)
      reads this, inbox
      ensures r.None? <==> forall j :: 0 <= j < |inbox.tasks| ==> inbox.tasks[j].id != selectedTaskId
      ensures r.Some? ==> r.value in inbox.tasks && r.value.id == selectedTaskId
    {
      FindById(inbox.tasks, selectedTaskId)
    }

    /** `addSubtask(title)`: nothing without a selected task; otherwise send
        the selected task with a new 'todo' subtask appended. */
    method AddSubtask(title: string, subId: string, now: string) returns (c: Completion)
      requires inbox.Valid()
      modifies inbox
      ensures inbox.Valid()
      ensures old(SelectedTask()).None? ==> c == Returned && unchanged(inbox)
      ensures old(SelectedTask()).Some? ==>
                var sel := old(SelectedTask()).value;
                UpdateOutcome(old(inbox.storage), old(inbox.tasks), old(inbox.error),
                              sel.id, AddPatch(sel, SubTask(subId, title, Todo)), now,
                              c, inbox.storage, inbox.tasks, inbox.error)
    {
      var selected := SelectedTask();
      if selected.None? {
        return Returned;
      }
      var sel := selected.value;
      var newSub := SubTask(subId, title, Todo);
      c := inbox.Update(sel.id, AddPatch(sel, newSub), now);
    }

    /** `updateSubtaskStatus(subId, status)`: nothing without a selected task;
        otherwise send its subtasks with that subtask's status set. */
    method UpdateSubtaskStatus(subId: string, status: string, now: string) returns (c: Completion)
      requires inbox.Valid()
      modifies inbox
      ensures inbox.Valid()
      ensures old(SelectedTask()).None? ==> c == Returned && unchanged(inbox)
      ensures old(SelectedTask()).Some? ==>
                var sel := old(SelectedTask()).value;
                && sel.subtasks.Some?
                && UpdateOutcome(old(inbox.storage), old(inbox.tasks), old(inbox.error),
                                 sel.id, SubtasksPatch(SetStatus(sel.subtasks.value, subId, status)), now,
                                 c, inbox.storage, inbox.tasks, inbox.error)
    {
      var selected := SelectedTask();
      if selected.None? {
        return Returned;
      }
      var sel := selected.value;
      var updated := SetStatus(sel.subtasks.value, subId, status);
      c := inbox.Update(sel.id, SubtasksPatch(updated), now);
    }

    /** `updateAllSubtasks(xs)`: nothing without a selected task; otherwise
        send `xs` as its subtasks. */
    method UpdateAllSubtasks(xs: seq<SubTask>, now: string) returns (c: Completion)
      requires inbox.Valid()
      modifies inbox
      ensures inbox.Valid()
      ensures old(SelectedTask()).None? ==> c == Returned && unchanged(inbox)
      ensures old(SelectedTask()).Some? ==>
                var sel := old(SelectedTask()).value;
                UpdateOutcome(old(inbox.storage), old(inbox.tasks), old(inbox.error),
                              sel.id, SubtasksPatch(xs), now, c, inbox.storage, inbox.tasks, inbox.error)
    {
      var selected := SelectedTask();
      if selected.None? {
        return Returned;
      }
      c := inbox.Update(selected.value.id, SubtasksPatch(xs), now);
    }
  }
}
