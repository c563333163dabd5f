/**
 * The request handlers of tasks/views.py that read or change tasks: the login
 * guard, the listing (filter, order, paginate), and the owner-scoped fetch,
 * toggle and delete actions over the task table.
 *
 * The requesting user is `None` when the request is not authenticated; the
 * current moment is the parameter `now`.
 */
module Views {
  import opened Wrappers
  import opened Models
  import opened Paging
  import opened Listing

  /** The failures a handler reports: 403, 404, and a form that does not validate. */
  datatype Error = PermissionDenied | NotFound | Invalid

  /**
   * `login_required_403`: an unauthenticated request fails with
   * PermissionDenied before the handler runs; otherwise the handler runs for
   * the authenticated user.
   */
  function LoginRequired(user: Option<UserId>): (r: Result<UserId, Error>)
    ensures r.Ok? <==> user.Some?
    ensures r.Ok? ==> r.value == user.value
    ensures r.Err? ==> r.error == PermissionDenied
  {
    if user.None? then Err(PermissionDenied) else Ok(user.value)
  }

  /**
   * `task_list` over the rows of the task table: one page of the user's
   * filtered, ordered tasks, and whether another page follows.
   */
  function TaskList(user: Option<UserId>, rows: seq<Task>, p: Params, now: int): (r: Result<Page<Task>, Error>)
    ensures user.None? <==> r == Err(PermissionDenied)
    ensures r.Ok? ==> user.Some?
    ensures r.Ok? ==> |r.value.items| <= PerPage
    ensures r.Ok? ==> forall t | t in r.value.items :: t in rows && Admits(user.value, p, now, t)
    ensures r.Ok? ==>
              var listed := Listed(user.value, rows, p, now);
              && 1 <= r.value.number <= NumPages(|listed|)
              && r.value.items == listed[(r.value.number - 1) * PerPage..Min(r.value.number * PerPage, |listed|)]
              && (r.value.hasNext <==> r.value.number * PerPage < |listed|)
              && r.value.number == PageNumber(p.page, |listed|)
  {
    match LoginRequired(user)
    case Err(e) => Err(e)
    case Ok(u) =>
      PageShowsAdmitted(u, rows, p, now);
      Ok(GetPage(Listed(u, rows, p, now), p.page))
  }

  /** Every task on the requested page is a row of the table that the request admits. */
  lemma PageShowsAdmitted(user: UserId, rows: seq<Task>, p: Params, now: int)
    ensures forall t | t in GetPage(Listed(user, rows, p, now), p.page).items :: t in rows && Admits(user, p, now, t)
  {
    var listed := Listed(user, rows, p, now);
    forall t | t in GetPage(listed, p.page).items
      ensures t in rows && Admits(user, p, now, t)
    {
      ListedMembers(user, rows, p, now, t);
    }
  }

  /** A user's listing never shows another user's task. */
  lemma ListingIsOwnerScoped(user: UserId, rows: seq<Task>, p: Params, now: int)
    ensures TaskList(Some(user), rows, p, now).Ok?
    ensures forall t | t in TaskList(Some(user), rows, p, now).value.items :: t.owner == user
  {
  }

  /** A `priority` or `status` the listing does not recognise gives the same page as leaving it out. */
  lemma UnknownValuesIgnored(user: Option<UserId>, rows: seq<Task>, p: Params, now: int)
    requires p.priority != Some("1") && p.priority != Some("2") && p.priority != Some("3")
    requires p.status != Some("completed") && p.status != Some("not_completed")
    ensures TaskList(user, rows, p, now) == TaskList(user, rows, p.(priority := None, status := None), now)
  {
    if user.Some? {
      UnknownPriorityIgnored(user.value, rows, p, now);
      UnknownStatusIgnored(user.value, rows, p.(priority := None), now);
    }
  }

  /** Whether `rows` is a full read of the table `tasks`: every stored task exactly once. */
  ghost predicate Enumerates(tasks: map<TaskId, Task>, rows: seq<Task>) {
    && (forall i | 0 <= i < |rows| :: rows[i].id in tasks && tasks[rows[i].id] == rows[i])
    && (forall id | id in tasks :: tasks[id] in rows)
    && (forall i, j | 0 <= i < j < |rows| :: rows[i].id != rows[j].id)
  }

  /**
   * Listing a full read of the table shows stored tasks of the user only, and
   * without parameters it shows every one of them.
   */
  lemma ListingOfStore(tasks: map<TaskId, Task>, rows: seq<Task>, user: UserId, p: Params, now: int)
    requires Enumerates(tasks, rows)
    ensures forall t | t in Listed(user, rows, p, now) :: t.id in tasks && tasks[t.id] == t && t.owner == user
    ensures forall id | id in tasks && tasks[id].owner == user :: tasks[id] in Listed(user, rows, NoParams, now)
  {
    forall t | t in Listed(user, rows, p, now)
      ensures t.id in tasks && tasks[t.id] == t && t.owner == user
    {
      ListedMembers(user, rows, p, now, t);
    }
    forall id | id in tasks && tasks[id].owner == user
      ensures tasks[id] in Listed(user, rows, NoParams, now)
    {
      EveryOwnTaskListed(user, rows, now, tasks[id]);
    }
  }

  /** Once a task is deleted, a full read of the table lists nothing under its key. */
  lemma DeletedTaskNotListed(tasks: map<TaskId, Task>, pk: TaskId, rows: seq<Task>, user: UserId, p: Params, now: int)
    requires Enumerates(tasks - {pk}, rows)
    ensures forall t | t in Listed(user, rows, p, now) :: t.id != pk
  {
    ListingOfStore(tasks - {pk}, rows, user, p, now);
  }

  /**
   * `get_object_or_404(Task, pk=pk, user=owner)`: the task with that key when
   * the owner owns it; NotFound both when no such task exists and when it
   * belongs to someone else.
   */
  function GetOwned(tasks: map<TaskId, Task>, pk: TaskId, owner: UserId): (r: Result<Task, Error>)
    ensures r.Ok? <==> pk in tasks && tasks[pk].owner == owner
    ensures r.Ok? ==> r.value == tasks[pk]
    ensures r.Err? ==> r.error == NotFound
  {
    if pk in tasks && tasks[pk].owner == owner then Ok(tasks[pk]) else Err(NotFound)
  }

  /** Another user's task is indistinguishable from a missing one. */
  lemma ForeignTaskLooksMissing(tasks: map<TaskId, Task>, pk: TaskId, owner: UserId)
    requires pk in tasks && tasks[pk].owner != owner
    ensures GetOwned(tasks, pk, owner) == GetOwned(tasks - {pk}, pk, owner) == Err(NotFound)
  {
  }

  /** The task as `task_toggle` saves it: completion negated, update time refreshed, all else kept. */
  function Toggled(t: Task, now: int): (r: Task)
    ensures r.isCompleted == !t.isCompleted
    ensures r.createdAt == t.createdAt && r.updatedAt == now
    ensures r.(isCompleted := t.isCompleted, updatedAt := t.updatedAt) == t
  {
    Saved(t.(isCompleted := !t.isCompleted), now)
  }

  /** Two toggles restore the completion flag; only the update time differs from the original. */
  lemma ToggleTwice(t: Task, first: int, second: int)
    ensures Toggled(Toggled(t, first), second).isCompleted == t.isCompleted
    ensures Toggled(Toggled(t, first), second) == Saved(t, second)
  {
  }

  /** The task table, keyed by primary key. */
  class TaskStore {
    var tasks: map<TaskId, Task>
    var nextId: TaskId

    /** Every stored task sits under its own key, is valid, and has a key below the next one to assign. */
    ghost predicate Valid()
      reads this
    {
      forall id | id in tasks :: tasks[id].id == id && ValidTask(tasks[id]) && id < nextId
    }

    constructor ()
      ensures Valid()
      ensures tasks == map[] && nextId == 1
    {
      tasks := map[];
      nextId := 1;
    }

    /** The guarded owner-scoped fetch that `task_edit`, `task_delete` and `task_toggle` start with. */
    function Fetch(user: Option<UserId>, pk: TaskId): (r: Result<Task, Error>)
      reads this
      ensures user.None? ==> r == Err(PermissionDenied)
      ensures user.Some? ==> r == GetOwned(tasks, pk, user.value)
    {
      match LoginRequired(user)
      case Err(e) => Err(e)
      case Ok(u) => GetOwned(tasks, pk, u)
    }

    /**
     * `task_create` after the form has produced its fields: the new task is
     * bound to the requesting user and saved under a fresh key; a title the
     * form would reject leaves the table unchanged.
     */
    method Create(user: Option<UserId>, title: string, description: string,
                  dueDate: int, priority: Option<Priority>, now: int) returns (r: Result<TaskId, Error>)
      requires Valid()
      modifies this
      ensures Valid()
      ensures user.None? ==> r == Err(PermissionDenied)
      ensures user.Some? ==> (r.Err? <==> !(0 < |title| <= MaxTitleLength))
      ensures user.Some? && r.Err? ==> r.error == Invalid
      ensures r.Err? ==> tasks == old(tasks) && nextId == old(nextId)
      ensures r.Ok? ==>
                && user.Some?
                && r.value == old(nextId) && r.value !in old(tasks)
                && nextId == old(nextId) + 1
                && tasks == old(tasks)[r.value := NewTask(r.value, user.value, title, description, dueDate, priority, now)]
    {
      if user.None? {
        return Err(PermissionDenied);
      }
      if !(0 < |title| <= MaxTitleLength) {
        return Err(Invalid);
      }
      var id := nextId;
      tasks := tasks[id := NewTask(id, user.value, title, description, dueDate, priority, now)];
      nextId := nextId + 1;
      r := Ok(id);
    }

    /**
     * `task_toggle`: flips the completion flag of the user's task and saves
     * it; every other task, and every other field, stays as it was.
     */
    method Toggle(user: Option<UserId>, pk: TaskId, now: int) returns (r: Result<Task, Error>)
      requires Valid()
      modifies this
      ensures Valid() && nextId == old(nextId)
      ensures old(Fetch(user, pk)).Err? ==> r == old(Fetch(user, pk)) && tasks == old(tasks)
      ensures old(Fetch(user, pk)).Ok? ==>
                && r == Ok(Toggled(old(tasks)[pk], now))
                && tasks == old(tasks)[pk := r.value]
    {
      r := Fetch(user, pk);
      if r.Ok? {
        var task := Toggled(r.value, now);
        tasks := tasks[pk := task];
        r := Ok(task);
      }
    }

    /**
     * `task_delete`: on a confirmed request (POST) removes the user's task;
     * otherwise only fetches it for the confirmation page.
     */
    method Delete(user: Option<UserId>, pk: TaskId, confirmed: bool) returns (r: Result<Task, Error>)
      requires Valid()
      modifies this
      ensures Valid() && nextId == old(nextId)
      ensures r == old(Fetch(user, pk))
      ensures r.Err? || !confirmed ==> tasks == old(tasks)
      ensures r.Ok? && confirmed ==> tasks == old(tasks) - {pk}
      ensures r.Ok? && confirmed ==> Fetch(user, pk) == Err(NotFound)
    {
      r := Fetch(user, pk);
      if r.Ok? && confirmed {
        tasks := tasks - {pk};
      }
    }
  }
}
