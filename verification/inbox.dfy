/** The inbox task store of src/stores/useInbox.ts. The tasks live in one
    local-storage entry. `getAll` only reads it. `create`, `delete` and a
    successful `update` re-read it, write the changed list back and reload
    the store's `tasks` from it; an `update` whose id is missing writes
    nothing, and an unreadable entry makes an action throw before it
    writes. Fresh ids and the current time are parameters. */
module Inbox {
  import opened Wrappers

  /** `SubTask`: the status is whatever string the board stores. */
  datatype SubTask = SubTask(id: string, title: string, status: string)

  /** `InboxTask`: the schema's fields plus an id and the subtasks, which a
      stored task may lack. */
  datatype Task = Task(
    id: string,
    title: string,
    description: Option<string>,
    createdAt: Option<string>,
    updatedAt: Option<string>,
    status: string,
    tags: Option<seq<string>>,
    priority: Option<string>,
    plannerDate: Option<string>,
    subtasks: Option<seq<SubTask>>)

  /** `InboxTaskType`: what `create` is given. */
  datatype TaskDraft = TaskDraft(
    title: string,
    description: Option<string>,
    createdAt: Option<string>,
    updatedAt: Option<string>,
    status: string,
    tags: Option<seq<string>>,
    priority: Option<string>,
    plannerDate: Option<string>)

  /** `Partial<InboxTask>`: `Some` for each property the patch carries. */
  datatype TaskPatch = TaskPatch(
    id: Option<string>,
    title: Option<string>,
    description: Option<string>,
    createdAt: Option<string>,
    updatedAt: Option<string>,
    status: Option<string>,
    tags: Option<seq<string>>,
    priority: Option<string>,
    plannerDate: Option<string>,
    subtasks: Option<seq<SubTask>>)

  /** The storage entry: a task list (a missing entry reads as the empty
      list) or text `JSON.parse` throws on. */
  datatype Storage = Stored(tasks: seq<Task>) | Unreadable

  const LoadFailed: string := "Failed to load tasks"
  const TaskNotFound: string := "Task not found"

  /** `{ ...task, subtasks: task.subtasks || [] }`. */
  function Normalise(t: Task): Task {
    t.(subtasks := Some(t.subtasks.GetOr([])))
  }

  predicate Normalised(ts: seq<Task>) {
    forall i :: 0 <= i < |ts| ==> ts[i].subtasks.Some?
  }

  /** `parsed.map(...)` in `loadTasks`: same count and order, every task
      unchanged except that missing subtasks become the empty list. */
  function NormaliseAll(ts: seq<Task>): (r: seq<Task>)
    ensures |r| == |ts| && Normalised(r)
    ensures forall i :: 0 <= i < |ts| ==> r[i].(subtasks := ts[i].subtasks) == ts[i]
    ensures forall i :: 0 <= i < |ts| && ts[i].subtasks.Some? ==> r[i] == ts[i]
    ensures forall i :: 0 <= i < |ts| && ts[i].subtasks.None? ==> r[i].subtasks == Some([])
  {
    if ts == [] then [] else [Normalise(ts[0])] + NormaliseAll(ts[1..])
  }

  /** Loading what was loaded gives it back. */
  lemma NormaliseAllFixes(ts: seq<Task>)
    requires Normalised(ts)
    ensures NormaliseAll(ts) == ts
  {
  }

  /** `loadTasks()`, or `None` when it throws. */
  function LoadTasks(s: Storage): (r: Option<seq<Task>>)
    ensures r.None? <==> s.Unreadable?
    ensures r.Some? ==> r.value == NormaliseAll(s.tasks)
  {
    match s
    case Unreadable => None
    case Stored(ts) => Some(NormaliseAll(ts))
  }

  /** `current.findIndex(t => t.id === id)`, `None` for -1. */
  function FindTask(ts: seq<Task>, id: string): (r: Option<nat>)
    ensures r.None? <==> forall j :: 0 <= j < |ts| ==> ts[j].id != id
    ensures r.Some? ==> r.value < |ts| && ts[r.value].id == id
    ensures r.Some? ==> forall j :: 0 <= j < r.value ==> ts[j].id != id
  {
    FindFirst(ts, (t: Task) => t.id == id)
  }

  /** `{ id, ...data, updatedAt: now, createdAt: now, subtasks: [] }`. */
  function Fresh(data: TaskDraft, id: string, now: string): (t: Task)
    ensures t.id == id && t.subtasks == Some([])
    ensures t.createdAt == Some(now) && t.updatedAt == Some(now)
  {
    Task(id, data.title, data.description, Some(now), Some(now), data.status,
         data.tags, data.priority, data.plannerDate, Some([]))
  }

  /** A property the patch carries wins over the old one. */
  function Over<T>(p: Option<T>, cur: T): T {
    p.GetOr(cur)
  }

  function OverOpt<T>(p: Option<T>, cur: Option<T>): Option<T> {
    if p.Some? then p else cur
  }

  /** `{ ...t, ...patch, updatedAt: now }`. */
  function ApplyPatch(t: Task, p: TaskPatch, now: string): (r: Task)
    ensures r.updatedAt == Some(now)
    ensures t.subtasks.Some? ==> r.subtasks.Some?
  {
    Task(Over(p.id, t.id), Over(p.title, t.title), OverOpt(p.description, t.description),
         OverOpt(p.createdAt, t.createdAt), Some(now), Over(p.status, t.status),
         OverOpt(p.tags, t.tags), OverOpt(p.priority, t.priority),
         OverOpt(p.plannerDate, t.plannerDate), OverOpt(p.subtasks, t.subtasks))
  }

  /** The patch that carries nothing. */
  const NoChange: TaskPatch := TaskPatch(None, None, None, None, None, None, None, None, None, None)

  /** An empty patch only stamps the time; a patch applied twice is applied
      once; every property a patch carries ends up in the task. */
  lemma ApplyPatchSpec(t: Task, p: TaskPatch, now: string)
    ensures ApplyPatch(t, NoChange, now) == t.(updatedAt := Some(now))
    ensures ApplyPatch(ApplyPatch(t, p, now), p, now) == ApplyPatch(t, p, now)
    ensures var r := ApplyPatch(t, p, now);
            && r.id == (if p.id.Some? then p.id.value else t.id)
            && r.title == (if p.title.Some? then p.title.value else t.title)
            && r.description == (if p.description.Some? then p.description else t.description)
            && r.createdAt == (if p.createdAt.Some? then p.createdAt else t.createdAt)
            && r.updatedAt == Some(now)
            && r.status == (if p.status.Some? then p.status.value else t.status)
            && r.tags == (if p.tags.Some? then p.tags else t.tags)
            && r.priority == (if p.priority.Some? then p.priority else t.priority)
            && r.plannerDate == (if p.plannerDate.Some? then p.plannerDate else t.plannerDate)
            && r.subtasks == (if p.subtasks.Some? then p.subtasks else t.subtasks)
  {
  }

  /** The list `update(id, patch)` writes back: the first task with the id
      patched, or `None` when no task has it. */
  function UpdateAt(ts: seq<Task>, id: string, p: TaskPatch, now: string): (r: Option<seq<Task>>)
    ensures r.None? <==> forall j :: 0 <= j < |ts| ==> ts[j].id != id
    ensures r.Some? ==>
              var i := FindTask(ts, id).value;
              && |r.value| == |ts|
              && ts[i].id == id && (forall j :: 0 <= j < i ==> ts[j].id != id)
              && r.value[i] == ApplyPatch(ts[i], p, now) && r.value[i].updatedAt == Some(now)
              && forall j :: 0 <= j < |ts| && j != i ==> r.value[j] == ts[j]
  {
    match FindTask(ts, id)
    case None => None
    case Some(i) => Some(ts[i := ApplyPatch(ts[i], p, now)])
  }

  /** Updating keeps loaded tasks normalised. */
  lemma UpdateAtNormalised(ts: seq<Task>, id: string, p: TaskPatch, now: string)
    requires Normalised(ts)
    ensures UpdateAt(ts, id, p, now).Some? ==> Normalised(UpdateAt(ts, id, p, now).value)
  {
  }

  /** What `update(id, p)` does, from storage `s`, list `ts` and error `err`
      to `s'`, `ts'` and `err'`, ending as `c`. */
  predicate UpdateOutcome(s: Storage, ts: seq<Task>, err: Option<string>, id: string, p: TaskPatch, now: string,
                          c: Completion, s': Storage, ts': seq<Task>, err': Option<string>)
  {
    match s
    case Unreadable => c == Threw && s' == s && ts' == ts && err' == err
    case Stored(stored) =>
      && c == Returned
      && match UpdateAt(NormaliseAll(stored), id, p, now)
         case None => s' == s && ts' == ts && err' == Some(TaskNotFound)
         case Some(next) => s' == Stored(next) && ts' == next && err' == err
  }

  /** `current.filter(t => t.id !== id)`. */
  function RemoveById(ts: seq<Task>, id: string): (r: seq<Task>)
    ensures |r| <= |ts|
    ensures forall i :: 0 <= i < |r| ==> r[i].id != id && r[i] in ts
    ensures forall i :: 0 <= i < |ts| && ts[i].id != id ==> ts[i] in r
  {
    if ts == [] then []
    else if ts[0].id == id then RemoveById(ts[1..], id)
    else [ts[0]] + RemoveById(ts[1..], id)
  }

  /** Removing keeps the order: it works piecewise over a concatenation. */
  lemma {:induction false} RemoveByIdAppend(xs: seq<Task>, ys: seq<Task>, id: string)
    ensures RemoveById(xs + ys, id) == RemoveById(xs, id) + RemoveById(ys, id)
  {
    if xs != [] {
      var zs := xs + ys;
      assert zs[0] == xs[0];
      assert zs[1..] == xs[1..] + ys;
      RemoveByIdAppend(xs[1..], ys, id);
      var rest := RemoveById(xs[1..], id) + RemoveById(ys, id);
      if xs[0].id == id {
        assert RemoveById(zs, id) == rest;
      } else {
        assert RemoveById(zs, id) == [xs[0]] + rest;
        assert RemoveById(xs, id) == [xs[0]] + RemoveById(xs[1..], id);
      }
    } else {
      assert xs + ys == ys;
    }
  }

  /** Removing an absent id changes nothing, so removing twice is removing
      once. */
  lemma {:induction false} RemoveByIdAbsent(ts: seq<Task>, id: string)
    requires forall i :: 0 <= i < |ts| ==> ts[i].id != id
    ensures RemoveById(ts, id) == ts
  {
    if ts != [] {
      RemoveByIdAbsent(ts[1..], id);
      assert [ts[0]] + ts[1..] == ts;
    }
  }

  lemma RemoveByIdIdempotent(ts: seq<Task>, id: string)
    ensures RemoveById(RemoveById(ts, id), id) == RemoveById(ts, id)
  {
    RemoveByIdAbsent(RemoveById(ts, id), id);
  }

  /** Removing keeps the remaining tasks normalised. */
  lemma RemoveByIdNormalised(ts: seq<Task>, id: string)
    requires Normalised(ts)
    ensures Normalised(RemoveById(ts, id))
  {
    var r := RemoveById(ts, id);
    forall i | 0 <= i < |r| ensures r[i].subtasks.Some? {
      var j :| 0 <= j < |ts| && ts[j] == r[i];
    }
  }

  class InboxStore {
    /** The tasks entry of local storage. */
    var storage: Storage
    var tasks: seq<Task>
    var loading: bool
    /** Set on a failed load or a missing id, and never cleared. */
    var error: Option<string>

    /** The in-memory list only ever comes from `loadTasks`, and `loading`
        is only set inside `getAll`. */
    ghost predicate Valid()
      reads this
    {
      Normalised(tasks) && !loading
    }

    /** The store loads once when it is created. */
    constructor (storage: Storage)
      ensures Valid() && this.storage == storage
      ensures LoadTasks(storage).Some? ==> tasks == LoadTasks(storage).value && error == None
      ensures LoadTasks(storage).None? ==> tasks == [] && error == Some(LoadFailed)
    {
      this.storage := storage;
      tasks := [];
      loading := false;
      error := None;
      new;
      GetAll();
    }

    /** `getAll()`: `tasks` becomes the loaded list, or `error` says the
        load failed and `tasks` keeps its old value; `loading` ends false. */
    method GetAll()
      requires Valid()
      modifies this
      ensures Valid() && storage == old(storage)
      ensures LoadTasks(storage).Some? ==> tasks == LoadTasks(storage).value && error == old(error)
      ensures LoadTasks(storage).None? ==> tasks == old(tasks) && error == Some(LoadFailed)
    {
      loading := true;
      var loaded := LoadTasks(storage);
      if loaded.Some? {
        tasks := loaded.value;
      } else {
        error := Some(LoadFailed);
      }
      loading := false;
    }

    /** `saveTasks(ts)`. */
    method SaveTasks(ts: seq<Task>)
      modifies this
      ensures storage == Stored(ts)
      ensures tasks == old(tasks) && loading == old(loading) && error == old(error)
    {
      storage := Stored(ts);
    }

    /** `create(data)`: append one new task at the end of the stored list;
        an unreadable entry makes it throw before anything is written. */
    method Create(data: TaskDraft, id: string, now: string) returns (c: Completion)
      requires Valid()
      modifies this
      ensures Valid() && error == old(error)
      ensures old(storage).Unreadable? ==> c == Threw && storage == old(storage) && tasks == old(tasks)
      ensures old(storage).Stored? ==>
                && c == Returned
                && storage == Stored(NormaliseAll(old(storage).tasks) + [Fresh(data, id, now)])
                && tasks == storage.tasks
    {
      var current := LoadTasks(storage);
      if current.None? {
        return Threw;
      }
      var next := current.value + [Fresh(data, id, now)];
      SaveTasks(next);
      NormaliseAllFixes(next);
      GetAll();
      c := Returned;
    }

    /** `update(id, patch)`: patch the first stored task with the id and stamp
        it with `now`; a missing id sets 'Task not found' and writes nothing;
        an unreadable entry makes it throw. */
    method Update(id: string, patch: TaskPatch, now: string) returns (c: Completion)
      requires Valid()
      modifies this
      ensures Valid()
      ensures UpdateOutcome(old(storage), old(tasks), old(error), id, patch, now, c, storage, tasks, error)
    {
      var current := LoadTasks(storage);
      if current.None? {
        return Threw;
      }
      var next := UpdateAt(current.value, id, patch, now);
      if next.None? {
        error := Some(TaskNotFound);
        return Returned;
      }
      UpdateAtNormalised(current.value, id, patch, now);
      SaveTasks(next.value);
      NormaliseAllFixes(next.value);
      GetAll();
      c := Returned;
    }

    /** `delete(id)`: drop every stored task with the id; an unreadable entry
        makes it throw. */
    method Remove(id: string) returns (c: Completion)
      requires Valid()
      modifies this
      ensures Valid() && error == old(error)
      ensures old(storage).Unreadable? ==> c == Threw && storage == old(storage) && tasks == old(tasks)
      ensures old(storage).Stored? ==>
                && c == Returned
                && storage == Stored(RemoveById(NormaliseAll(old(storage).tasks), id))
                && tasks == storage.tasks
    {
      var current := LoadTasks(storage);
      if current.None? {
        return Threw;
      }
      var filtered := RemoveById(current.value, id);
      RemoveByIdNormalised(current.value, id);
      SaveTasks(filtered);
      NormaliseAllFixes(filtered);
      GetAll();
      c := Returned;
    }
  }
}
