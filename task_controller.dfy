/**
 * The ownership-scoped task handlers (backend/src/controllers/taskController.ts).
 *
 * The Task collection is a map from task id to a task record. Each handler is
 * a method of TaskStore that returns what the handler sends back: the status
 * code and either a task document, the caller's tasks, or a `{ msg }` body.
 * The caller's id is the one the bearer-token gate put in `req.user.id`.
 */
module TaskController {
  import opened Common

  /** Fixed strings of the handlers. */
  const DefaultStatus := "pending"
  const NotFoundMsg := "Task not found"
  const NotAuthorizedMsg := "Not authorized"
  const DeletedMsg := "Task deleted"

  /** A task document; `owner` is the `user` field holding the creator's id. */
  datatype Task = Task(title: string, description: Option<string>, status: string, owner: Id)

  /**
   * A request body merged onto a task by `findByIdAndUpdate`: each field is
   * either absent (None) or the value to store. The owner field is included
   * because the handler merges whatever fields the body carries.
   */
  datatype Patch = Patch(title: Option<string>, description: Option<string>, status: Option<string>, owner: Option<Id>)

  /** What a handler sends back. */
  datatype Reply =
    | One(status: int, id: Id, task: Task)       // a single task document
    | Many(status: int, tasks: map<Id, Task>)    // the documents of `Task.find`
    | Message(status: int, msg: string)          // a `{ msg }` body

  /** The value a patch field leaves in place: the supplied one, or the current one. */
  function Pick<T>(field: Option<T>, current: T): (v: T)
    ensures field.Some? ==> v == field.value
    ensures field.None? ==> v == current
  {
    match field
    case Some(v) => v
    case None => current
  }

  /** The record `findByIdAndUpdate` stores: every supplied field replaced, the rest kept. */
  function Merge(t: Task, p: Patch): (m: Task)
    ensures m.title == if p.title.Some? then p.title.value else t.title
    ensures m.description == if p.description.Some? then p.description else t.description
    ensures m.status == if p.status.Some? then p.status.value else t.status
    ensures m.owner == if p.owner.Some? then p.owner.value else t.owner
  {
    Task(Pick(p.title, t.title),
         if p.description.Some? then p.description else t.description,
         Pick(p.status, t.status),
         Pick(p.owner, t.owner))
  }

  /** The result of `Task.find({ user })`: the tasks whose owner is `user`. */
  function OwnedBy(tasks: map<Id, Task>, user: Id): (mine: map<Id, Task>)
    ensures forall id :: id in mine <==> id in tasks && tasks[id].owner == user
    ensures forall id :: id in mine ==> mine[id] == tasks[id]
  {
    map id | id in tasks && tasks[id].owner == user :: tasks[id]
  }

  /** The empty patch changes nothing. */
  lemma MergeEmpty(t: Task)
    ensures Merge(t, Patch(None, None, None, None)) == t
  {
  }

  /** Supplied fields win; re-applying the same patch changes nothing more. */
  lemma MergeIdempotent(t: Task, p: Patch)
    ensures p.title.Some? ==> Merge(t, p).title == p.title.value
    ensures p.description.Some? ==> Merge(t, p).description == p.description
    ensures p.status.Some? ==> Merge(t, p).status == p.status.value
    ensures Merge(Merge(t, p), p) == Merge(t, p)
  {
  }

  /**
   * Only a patch that omits the owner leaves it unchanged; one that carries
   * an owner reassigns the task.
   */
  lemma MergeOwner(t: Task, p: Patch)
    ensures p.owner.None? ==> Merge(t, p).owner == t.owner
    ensures p.owner.Some? ==> Merge(t, p).owner == p.owner.value
  {
  }

  /** Two different users never see the same task in their lists. */
  lemma OwnedByDisjoint(tasks: map<Id, Task>, u: Id, v: Id)
    requires u != v
    ensures OwnedBy(tasks, u).Keys !! OwnedBy(tasks, v).Keys
  {
  }

  /** Every list holds only stored tasks, and every stored task is in its owner's list. */
  lemma OwnedByCovers(tasks: map<Id, Task>)
    ensures forall u, id :: id in OwnedBy(tasks, u) ==> id in tasks && OwnedBy(tasks, u)[id] == tasks[id]
    ensures forall id :: id in tasks ==> id in OwnedBy(tasks, tasks[id].owner)
  {
  }

  /** Creating a task adds it to its owner's list and to no other list. */
  lemma OwnedByInsert(tasks: map<Id, Task>, id: Id, t: Task, u: Id)
    requires id !in tasks
    ensures OwnedBy(tasks[id := t], u) == if t.owner == u then OwnedBy(tasks, u)[id := t] else OwnedBy(tasks, u)
  {
  }

  /** Deleting a task removes it from every list and changes nothing else in them. */
  lemma OwnedByRemove(tasks: map<Id, Task>, id: Id, u: Id)
    ensures OwnedBy(tasks - {id}, u) == OwnedBy(tasks, u) - {id}
  {
  }

  /** An update whose patch omits the owner moves no task between lists. */
  lemma OwnedByUpdate(tasks: map<Id, Task>, id: Id, p: Patch, u: Id)
    requires id in tasks && p.owner.None?
    ensures OwnedBy(tasks[id := Merge(tasks[id], p)], u).Keys == OwnedBy(tasks, u).Keys
  {
  }

  /** The Task collection. */
  class TaskStore {
    var tasks: map<Id, Task>

    constructor ()
      ensures tasks == map[]
    {
      tasks := map[];
    }

    /**
     * `createTask`: store a new task owned by the caller under a fresh id,
     * with status `status || "pending"`, and answer 201 with it.
     */
    method Create(caller: Id, title: string, description: Option<string>, status: Option<string>)
      returns (r: Reply)
      modifies this
      ensures r.One? && r.status == Created && r.id !in old(tasks)
      ensures r.task.title == title && r.task.description == description && r.task.owner == caller
      ensures status.Some? && status.value != "" ==> r.task.status == status.value
      ensures status.None? || status.value == "" ==> r.task.status == DefaultStatus
      ensures tasks == old(tasks)[r.id := r.task]
      ensures |tasks| == |old(tasks)| + 1
    {
      var st := if status.Some? && status.value != "" then status.value else DefaultStatus;
      var t := Task(title, description, st, caller);
      FreshIdExists(tasks.Keys);
      var id: Id :| id !in tasks.Keys;
      tasks := tasks[id := t];
      r := One(Created, id, t);
    }

    /** `getTasks`: answer 200 with exactly the caller's tasks (possibly none). */
    method List(caller: Id) returns (r: Reply)
      ensures r.Many? && r.status == Ok
      ensures forall id :: id in r.tasks <==> id in tasks && tasks[id].owner == caller
      ensures forall id :: id in r.tasks ==> r.tasks[id] == tasks[id]
      // the link to the OwnedBy lemmas (OwnedByInsert, OwnedByRemove, OwnedByUpdate)
      ensures r.tasks == OwnedBy(tasks, caller)
    {
      r := Many(Ok, OwnedBy(tasks, caller));
    }

    /**
     * `getTask`: 404 when the id is not stored, otherwise 200 with the task.
     * There is no owner check: the answer does not depend on the caller.
     */
    method Get(caller: Id, id: Id) returns (r: Reply)
      ensures id !in tasks ==> r == Message(NotFound, NotFoundMsg)
      ensures id in tasks ==> r == One(Ok, id, tasks[id])
    {
      if id !in tasks {
        return Message(NotFound, NotFoundMsg);
      }
      r := One(Ok, id, tasks[id]);
    }

    /**
     * `updateTask`: 404 when the id is not stored (whoever asks), 401 when the
     * caller does not own it, and in both cases nothing changes; otherwise the
     * patch is merged onto that one task and the merged task is returned.
     */
    method Update(caller: Id, id: Id, patch: Patch) returns (r: Reply)
      modifies this
      ensures id !in old(tasks) ==> r == Message(NotFound, NotFoundMsg) && tasks == old(tasks)
      ensures id in old(tasks) && old(tasks)[id].owner != caller ==>
        r == Message(Unauthorized, NotAuthorizedMsg) && tasks == old(tasks)
      ensures id in old(tasks) && old(tasks)[id].owner == caller ==>
        r == One(Ok, id, Merge(old(tasks)[id], patch)) && tasks == old(tasks)[id := r.task]
      ensures tasks.Keys == old(tasks).Keys
      ensures forall k :: k in old(tasks) && k != id ==> tasks[k] == old(tasks)[k]
    {
      if id !in tasks {
        return Message(NotFound, NotFoundMsg);
      }
      if tasks[id].owner != caller {
        return Message(Unauthorized, NotAuthorizedMsg);
      }
      var updated := Merge(tasks[id], patch);
      tasks := tasks[id := updated];
      r := One(Ok, id, updated);
    }

    /**
     * `deleteTask`: the same two checks in the same order as `updateTask`;
     * the owner's request removes exactly that one task and is answered with
     * a confirmation message, not the deleted document.
     */
    method Delete(caller: Id, id: Id) returns (r: Reply)
      modifies this
      ensures id !in old(tasks) ==> r == Message(NotFound, NotFoundMsg) && tasks == old(tasks)
      ensures id in old(tasks) && old(tasks)[id].owner != caller ==>
        r == Message(Unauthorized, NotAuthorizedMsg) && tasks == old(tasks)
      ensures id in old(tasks) && old(tasks)[id].owner == caller ==>
        r == Message(Ok, DeletedMsg) && tasks == old(tasks) - {id} && |tasks| == |old(tasks)| - 1
      ensures forall k :: k in old(tasks) && k != id ==> k in tasks && tasks[k] == old(tasks)[k]
    {
      if id !in tasks {
        return Message(NotFound, NotFoundMsg);
      }
      if tasks[id].owner != caller {
        return Message(Unauthorized, NotAuthorizedMsg);
      }
      tasks := tasks - {id};
      r := Message(Ok, DeletedMsg);
    }
  }
}
