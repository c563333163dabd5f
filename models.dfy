/**
 * The `Task` record of tasks/models.py: one to-do item, owned by exactly one
 * user, with a due date, a priority among three choices, a completion flag and
 * two timestamps maintained by the storage layer.
 *
 * Timestamps (due date, creation and update times) are whole seconds since the
 * epoch, in UTC.
 */
module Models {
  import opened Wrappers

  type UserId = int
  type TaskId = int

  /** The priority choices: High = 1, Medium = 2, Low = 3. */
  const High: int := 1
  const Medium: int := 2
  const Low: int := 3

  /** A priority is always one of the three choices. */
  type Priority = p: int | High <= p <= Low witness Medium

  /** The field default for a task created without an explicit priority. */
  const DefaultPriority: Priority := Medium

  /** The `max_length` of the title field. */
  const MaxTitleLength: nat := 200

  /** One row of the task table. The `owner` field is the single owning user. */
  datatype Task = Task(
    id: TaskId,
    owner: UserId,
    title: string,
    description: string,
    dueDate: int,
    priority: Priority,
    isCompleted: bool,
    createdAt: int,
    updatedAt: int)

  /**
   * The field constraints that the model form enforces: a title is required and
   * holds at most 200 characters; the description may be blank.
   */
  predicate ValidTask(t: Task) {
    0 < |t.title| <= MaxTitleLength
  }

  /**
   * A task as it is first saved: the given fields, the owner set by the view,
   * the field defaults for what was not given, and both timestamps set to the
   * moment of creation.
   */
  function NewTask(id: TaskId, owner: UserId, title: string, description: string,
                   dueDate: int, priority: Option<Priority>, now: int): (t: Task)
    ensures t.id == id && t.owner == owner
    ensures t.title == title && t.description == description && t.dueDate == dueDate
    ensures priority.None? ==> t.priority == DefaultPriority
    ensures priority.Some? ==> t.priority == priority.value
    ensures !t.isCompleted
    ensures t.createdAt == now && t.updatedAt == now
    ensures ValidTask(t) <==> 0 < |title| <= MaxTitleLength
  {
    Task(id, owner, title, description, dueDate,
         if priority.Some? then priority.value else DefaultPriority,
         false, now, now)
  }

  /**
   * Saving an existing task: `updated_at` is refreshed to the moment of the
   * save, `created_at` keeps the value it received at creation, and every other
   * field is stored as it is.
   */
  function Saved(t: Task, now: int): (r: Task)
    ensures r.updatedAt == now
    ensures r.createdAt == t.createdAt
    ensures r.(updatedAt := t.updatedAt) == t
    ensures ValidTask(r) <==> ValidTask(t)
  {
    t.(updatedAt := now)
  }

  /** A task saved once at each of the moments in `moments`, in order. */
  function SavedAt(t: Task, moments: seq<int>): Task
    decreases |moments|
  {
    if moments == [] then t else SavedAt(Saved(t, moments[0]), moments[1..])
  }

  /**
   * However many saves follow, `created_at` never changes, `updated_at` is the
   * moment of the last save, and no other field is touched.
   */
  lemma {:induction false} SavesKeepCreation(t: Task, moments: seq<int>)
    ensures SavedAt(t, moments).createdAt == t.createdAt
    ensures moments != [] ==> SavedAt(t, moments).updatedAt == moments[|moments| - 1]
    ensures moments == [] ==> SavedAt(t, moments) == t
    ensures SavedAt(t, moments).(updatedAt := t.updatedAt) == t
    decreases |moments|
  {
    if moments != [] {
      SavesKeepCreation(Saved(t, moments[0]), moments[1..]);
      if |moments| > 1 {
        assert moments[1..][|moments[1..]| - 1] == moments[|moments| - 1];
      }
    }
  }

  /** The string form of a task is its title. */
  function Str(t: Task): (s: string)
    ensures s == t.title
    ensures ValidTask(t) ==> 0 < |s| <= MaxTitleLength
  {
    t.title
  }
}
