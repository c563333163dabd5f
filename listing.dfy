/**
 * The filter and ordering stages of the task listing (`task_list` in
 * tasks/views.py). Starting from the rows of the task table, the listing keeps
 * the requesting user's tasks, then narrows them, one conjunctive restriction
 * after another and in a fixed order, by text search, completion status,
 * priority and date window, and finally orders them by the requested key.
 *
 * Each stage refines a sequence of tasks; a query parameter that is absent, or
 * holds a value the listing does not recognise, adds no restriction.
 */
module Listing {
  import opened Wrappers
  import opened Models
  import opened Text

  /** The query parameters of the listing request, each absent or a raw string. */
  datatype Params = Params(
    q: Option<string>,
    status: Option<string>,
    priority: Option<string>,
    dateFilter: Option<string>,
    sort: Option<string>,
    page: Option<string>)

  /** A request with no query parameters at all. */
  const NoParams := Params(None, None, None, None, None, None)

  const SecondsPerDay: int := 86400

  /** The calendar date (days since the epoch) of a timestamp. */
  function Day(ts: int): (d: int)
    ensures d * SecondsPerDay <= ts < (d + 1) * SecondsPerDay
  {
    ts / SecondsPerDay
  }

  /** The date a week after a moment is seven days after that moment's date. */
  lemma WeekLater(now: int)
    ensures Day(now + 7 * SecondsPerDay) == Day(now) + 7
  {
  }

  /** One restriction of the listing, as the query builder accumulates it. */
  datatype Clause =
    | OwnedBy(user: UserId)
    | Mentions(text: string)
    | CompletedIs(done: bool)
    | PriorityIs(level: Priority)
    | DueOn(day: int)
    | DueWithin(first: int, last: int)
    | DueBefore(moment: int)

  /** Whether a task meets a restriction. */
  predicate Holds(c: Clause, t: Task) {
    match c
    case OwnedBy(u) => t.owner == u
    case Mentions(q) => IContains(t.title, q) || IContains(t.description, q)
    case CompletedIs(done) => t.isCompleted == done
    case PriorityIs(level) => t.priority == level
    case DueOn(day) => Day(t.dueDate) == day
    case DueWithin(first, last) => first <= Day(t.dueDate) <= last
    case DueBefore(moment) => t.dueDate < moment && !t.isCompleted
  }

  /**
   * `filter(...)`: the tasks meeting a restriction, in their original order;
   * every task that meets it is kept as often as it occurs, every other one is
   * dropped.
   */
  function Where(ts: seq<Task>, c: Clause): (r: seq<Task>)
    ensures forall t :: multiset(r)[t] == if Holds(c, t) then multiset(ts)[t] else 0
    ensures |r| <= |ts|
    ensures forall t | t in r :: t in ts && Holds(c, t)
    decreases |ts|
  {
    if ts == [] then []
    else
      assert ts == [ts[0]] + ts[1..];
      (if Holds(c, ts[0]) then [ts[0]] else []) + Where(ts[1..], c)
  }

  /** A stage that may or may not add a restriction. */
  function Refine(ts: seq<Task>, c: Option<Clause>): (r: seq<Task>)
    ensures |r| <= |ts|
    ensures forall t | t in r :: t in ts
  {
    if c.Some? then Where(ts, c.value) else ts
  }

  /** A task passes an optional restriction when there is none or it holds. */
  predicate Allows(c: Option<Clause>, t: Task) {
    c.None? || Holds(c.value, t)
  }

  lemma RefineCounts(ts: seq<Task>, c: Option<Clause>)
    ensures forall t :: multiset(Refine(ts, c))[t] == if Allows(c, t) then multiset(ts)[t] else 0
  {
  }

  /** The search stage: a non-empty `q` must occur in the title or the description. */
  function SearchClause(q: Option<string>): (c: Option<Clause>)
    ensures c.Some? <==> q.Some? && q.value != ""
    ensures forall t :: Allows(c, t) <==>
              (q.Some? && q.value != "" ==> IContains(t.title, q.value) || IContains(t.description, q.value))
  {
    if q.Some? && q.value != "" then Some(Mentions(q.value)) else None
  }

  /** The status stage: only `completed` and `not_completed` restrict. */
  function StatusClause(status: Option<string>): (c: Option<Clause>)
    ensures c.Some? <==> status == Some("completed") || status == Some("not_completed")
    ensures forall t :: Allows(c, t) <==>
              && (status == Some("completed") ==> t.isCompleted)
              && (status == Some("not_completed") ==> !t.isCompleted)
  {
    if status == Some("completed") then Some(CompletedIs(true))
    else if status == Some("not_completed") then Some(CompletedIs(false))
    else None
  }

  /** The priority stage: only `1`, `2` and `3` restrict. */
  function PriorityClause(priority: Option<string>): (c: Option<Clause>)
    ensures c.Some? <==> priority == Some("1") || priority == Some("2") || priority == Some("3")
    ensures forall t :: Allows(c, t) <==>
              && (priority == Some("1") ==> t.priority == High)
              && (priority == Some("2") ==> t.priority == Medium)
              && (priority == Some("3") ==> t.priority == Low)
  {
    if priority == Some("1") then Some(PriorityIs(High))
    else if priority == Some("2") then Some(PriorityIs(Medium))
    else if priority == Some("3") then Some(PriorityIs(Low))
    else None
  }

  /** The date stage: `today`, `week` and `overdue` restrict, relative to the moment `now`. */
  function DateClause(dateFilter: Option<string>, now: int): (c: Option<Clause>)
    ensures c.Some? <==> dateFilter == Some("today") || dateFilter == Some("week") || dateFilter == Some("overdue")
    ensures forall t :: Allows(c, t) <==>
              && (dateFilter == Some("today") ==> Day(t.dueDate) == Day(now))
              && (dateFilter == Some("week") ==> Day(now) <= Day(t.dueDate) <= Day(now) + 7)
              && (dateFilter == Some("overdue") ==> t.dueDate < now && !t.isCompleted)
  {
    WeekLater(now);
    if dateFilter == Some("today") then Some(DueOn(Day(now)))
    else if dateFilter == Some("week") then Some(DueWithin(Day(now), Day(now + 7 * SecondsPerDay)))
    else if dateFilter == Some("overdue") then Some(DueBefore(now))
    else None
  }

  /** The user's tasks after the four filter stages, applied in their fixed order. */
  function Selected(user: UserId, rows: seq<Task>, p: Params, now: int): (r: seq<Task>)
    ensures |r| <= |rows|
    ensures forall t | t in r :: t.owner == user
  {
    var owned := Where(rows, OwnedBy(user));
    var searched := Refine(owned, SearchClause(p.q));
    var byStatus := Refine(searched, StatusClause(p.status));
    var byPriority := Refine(byStatus, PriorityClause(p.priority));
    Refine(byPriority, DateClause(p.dateFilter, now))
  }

  /**
   * The reference meaning of the filters, stated on one task directly from the
   * request: the task is the user's and meets every restriction the request
   * activates.
   */
  ghost predicate Admits(user: UserId, p: Params, now: int, t: Task) {
    && t.owner == user
    && (p.q.Some? && p.q.value != "" ==>
          OccursIn(LowerStr(p.q.value), LowerStr(t.title))
          || OccursIn(LowerStr(p.q.value), LowerStr(t.description)))
    && (p.status == Some("completed") ==> t.isCompleted)
    && (p.status == Some("not_completed") ==> !t.isCompleted)
    && (p.priority == Some("1") ==> t.priority == High)
    && (p.priority == Some("2") ==> t.priority == Medium)
    && (p.priority == Some("3") ==> t.priority == Low)
    && (p.dateFilter == Some("today") ==> Day(t.dueDate) == Day(now))
    && (p.dateFilter == Some("week") ==> Day(now) <= Day(t.dueDate) <= Day(now) + 7)
    && (p.dateFilter == Some("overdue") ==> t.dueDate < now && !t.isCompleted)
  }

  /** Passing all four stages is exactly what `Admits` asks of a task. */
  lemma StagesMeanAdmits(user: UserId, p: Params, now: int, t: Task)
    ensures (Holds(OwnedBy(user), t)
             && Allows(SearchClause(p.q), t)
             && Allows(StatusClause(p.status), t)
             && Allows(PriorityClause(p.priority), t)
             && Allows(DateClause(p.dateFilter, now), t))
            <==> Admits(user, p, now, t)
  {
    WeekLater(now);
  }

  /**
   * The filter stages keep exactly the admitted tasks: each row the request
   * admits is kept as often as it occurs in the table, and nothing else is.
   */
  lemma SelectedSpec(user: UserId, rows: seq<Task>, p: Params, now: int)
    ensures forall t :: multiset(Selected(user, rows, p, now))[t]
                        == if Admits(user, p, now, t) then multiset(rows)[t] else 0
  {
    var owned := Where(rows, OwnedBy(user));
    var searched := Refine(owned, SearchClause(p.q));
    var byStatus := Refine(searched, StatusClause(p.status));
    var byPriority := Refine(byStatus, PriorityClause(p.priority));
    RefineCounts(owned, SearchClause(p.q));
    RefineCounts(searched, StatusClause(p.status));
    RefineCounts(byStatus, PriorityClause(p.priority));
    RefineCounts(byPriority, DateClause(p.dateFilter, now));
    forall t
      ensures multiset(Selected(user, rows, p, now))[t]
              == if Admits(user, p, now, t) then multiset(rows)[t] else 0
    {
      StagesMeanAdmits(user, p, now, t);
    }
  }

  /** The sort keys of the listing; the last is the default ordering. */
  datatype SortKey = ByDueDate | ByPriority | ByTitle | ByCompletionThenDue

  /** The requested `sort`; any other value, or none, selects the default ordering. */
  function SortKeyOf(sort: Option<string>): (k: SortKey)
    ensures k == ByDueDate <==> sort == Some("due_date")
    ensures k == ByPriority <==> sort == Some("priority")
    ensures k == ByTitle <==> sort == Some("title")
  {
    if sort == Some("due_date") then ByDueDate
    else if sort == Some("priority") then ByPriority
    else if sort == Some("title") then ByTitle
    else ByCompletionThenDue
  }

  /**
   * Whether `a` may come before `b` under a key, ascending. The default key
   * puts incomplete tasks before completed ones and, within each group, earlier
   * due dates first.
   */
  predicate Before(k: SortKey, a: Task, b: Task): (r: bool)
    ensures k == ByCompletionThenDue && a.isCompleted != b.isCompleted ==> (r <==> !a.isCompleted)
    ensures k == ByCompletionThenDue && a.isCompleted == b.isCompleted ==> (r <==> a.dueDate <= b.dueDate)
    ensures k == ByDueDate ==> (r <==> a.dueDate <= b.dueDate)
    ensures k == ByPriority ==> (r <==> a.priority <= b.priority)
    ensures k == ByTitle ==> (r <==> TitleLe(a.title, b.title))
  {
    match k
    case ByDueDate => a.dueDate <= b.dueDate
    case ByPriority => a.priority <= b.priority
    case ByTitle => TitleLe(a.title, b.title)
    case ByCompletionThenDue =>
      (!a.isCompleted && b.isCompleted)
      || (a.isCompleted == b.isCompleted && a.dueDate <= b.dueDate)
  }

  lemma BeforeTotal(k: SortKey, a: Task, b: Task)
    ensures Before(k, a, b) || Before(k, b, a)
  {
    if k == ByTitle {
      TitleLeTotal(a.title, b.title);
    }
  }

  lemma BeforeTrans(k: SortKey, a: Task, b: Task, c: Task)
    requires Before(k, a, b) && Before(k, b, c)
    ensures Before(k, a, c)
  {
    if k == ByTitle {
      TitleLeTrans(a.title, b.title, c.title);
    }
  }

  /** A sequence in ascending order of a key. */
  predicate Ordered(k: SortKey, s: seq<Task>) {
    forall i, j | 0 <= i < j < |s| :: Before(k, s[i], s[j])
  }

  /** A task that may precede every element of an ordered sequence may head it. */
  lemma PrependOrdered(k: SortKey, x: Task, s: seq<Task>)
    requires Ordered(k, s)
    requires forall y | y in s :: Before(k, x, y)
    ensures Ordered(k, [x] + s)
  {
    forall i, j | 0 <= i < j < |[x] + s|
      ensures Before(k, ([x] + s)[i], ([x] + s)[j])
    {
      assert ([x] + s)[j] == s[j - 1];
      if i > 0 {
        assert ([x] + s)[i] == s[i - 1];
      }
    }
  }

  /** A task that may precede the head of an ordered sequence may precede all of it. */
  lemma BeforeHeadBeforeAll(k: SortKey, t: Task, s: seq<Task>)
    requires Ordered(k, s) && s != [] && Before(k, t, s[0])
    ensures forall y | y in s :: Before(k, t, y)
  {
    forall y | y in s
      ensures Before(k, t, y)
    {
      var j :| 0 <= j < |s| && s[j] == y;
      if j > 0 {
        BeforeTrans(k, t, s[0], s[j]);
      }
    }
  }

  /** The head of an ordered sequence may precede what the rest and one more task make up. */
  lemma HeadBeforeRest(k: SortKey, t: Task, s: seq<Task>, rest: seq<Task>)
    requires Ordered(k, s) && s != [] && Before(k, s[0], t)
    requires multiset(rest) == multiset(s[1..]) + multiset{t}
    ensures forall y | y in rest :: Before(k, s[0], y)
  {
    forall y | y in rest
      ensures Before(k, s[0], y)
    {
      assert y in multiset(rest);
      if y != t {
        assert y in multiset(s[1..]);
        var j :| 0 <= j < |s[1..]| && s[1..][j] == y;
        assert y == s[j + 1];
      }
    }
  }

  /** Places one task into an ordered sequence, after every task it may not precede. */
  function Insert(k: SortKey, t: Task, s: seq<Task>): (r: seq<Task>)
    requires Ordered(k, s)
    ensures Ordered(k, r)
    ensures multiset(r) == multiset(s) + multiset{t}
    decreases |s|
  {
    if s == [] then [t]
    else if Before(k, t, s[0]) then
      BeforeHeadBeforeAll(k, t, s);
      PrependOrdered(k, t, s);
      [t] + s
    else
      var rest := Insert(k, t, s[1..]);
      assert s == [s[0]] + s[1..];
      BeforeTotal(k, t, s[0]);
      HeadBeforeRest(k, t, s, rest);
      PrependOrdered(k, s[0], rest);
      [s[0]] + rest
  }

  /** `order_by(key)`: the same tasks, in ascending order of the key. */
  function OrderBy(k: SortKey, s: seq<Task>): (r: seq<Task>)
    ensures Ordered(k, r)
    ensures multiset(r) == multiset(s)
    decreases |s|
  {
    if s == [] then []
    else
      assert s == [s[0]] + s[1..];
      Insert(k, s[0], OrderBy(k, s[1..]))
  }

  /** The full listing before pagination: the selected tasks in the requested order. */
  function Listed(user: UserId, rows: seq<Task>, p: Params, now: int): (r: seq<Task>)
    ensures multiset(r) == multiset(Selected(user, rows, p, now))
    ensures Ordered(SortKeyOf(p.sort), r)
    ensures forall t | t in r :: t.owner == user
  {
    var r := OrderBy(SortKeyOf(p.sort), Selected(user, rows, p, now));
    assert forall t | t in r :: t in Selected(user, rows, p, now) by {
      forall t | t in r
        ensures t in Selected(user, rows, p, now)
      {
        assert t in multiset(r);
      }
    }
    r
  }

  /**
   * The listing is a permutation of the table rows the request admits, in
   * ascending order of the requested key.
   */
  lemma ListedSpec(user: UserId, rows: seq<Task>, p: Params, now: int)
    ensures forall t :: multiset(Listed(user, rows, p, now))[t]
                        == if Admits(user, p, now, t) then multiset(rows)[t] else 0
    ensures Ordered(SortKeyOf(p.sort), Listed(user, rows, p, now))
  {
    SelectedSpec(user, rows, p, now);
  }

  /** A task is listed exactly when it is a row of the table that the request admits. */
  lemma ListedMembers(user: UserId, rows: seq<Task>, p: Params, now: int, t: Task)
    ensures t in Listed(user, rows, p, now) <==> t in rows && Admits(user, p, now, t)
  {
    ListedSpec(user, rows, p, now);
    assert t in Listed(user, rows, p, now) <==> t in multiset(Listed(user, rows, p, now));
  }

  /** With no parameters, every row of the user's is listed, and only those. */
  lemma EveryOwnTaskListed(user: UserId, rows: seq<Task>, now: int, t: Task)
    requires t in rows
    ensures t in Listed(user, rows, NoParams, now) <==> t.owner == user
  {
    ListedMembers(user, rows, NoParams, now, t);
  }

  /** An overdue listing never shows a completed task, nor one due now or later. */
  lemma OverdueOnlyOpenAndPast(user: UserId, rows: seq<Task>, p: Params, now: int)
    requires p.dateFilter == Some("overdue")
    ensures forall t | t in Listed(user, rows, p, now) :: !t.isCompleted && t.dueDate < now
  {
    forall t | t in Listed(user, rows, p, now)
      ensures !t.isCompleted && t.dueDate < now
    {
      ListedMembers(user, rows, p, now, t);
    }
  }

  /** Under the default ordering, no completed task precedes an incomplete one, and each group runs by due date. */
  lemma DefaultOrderGroups(s: seq<Task>, i: int, j: int)
    requires Ordered(ByCompletionThenDue, s)
    requires 0 <= i < j < |s|
    ensures !s[j].isCompleted ==> !s[i].isCompleted
    ensures s[i].isCompleted == s[j].isCompleted ==> s[i].dueDate <= s[j].dueDate
  {
  }

  /** An unrecognised `priority` gives exactly the listing of a request without one. */
  lemma UnknownPriorityIgnored(user: UserId, rows: seq<Task>, p: Params, now: int)
    requires p.priority != Some("1") && p.priority != Some("2") && p.priority != Some("3")
    ensures Listed(user, rows, p, now) == Listed(user, rows, p.(priority := None), now)
  {
    var p' := p.(priority := None);
    assert p'.q == p.q && p'.status == p.status && p'.dateFilter == p.dateFilter && p'.sort == p.sort;
    assert PriorityClause(p.priority) == None == PriorityClause(p'.priority);
  }

  /** An unrecognised `status` gives exactly the listing of a request without one. */
  lemma UnknownStatusIgnored(user: UserId, rows: seq<Task>, p: Params, now: int)
    requires p.status != Some("completed") && p.status != Some("not_completed")
    ensures Listed(user, rows, p, now) == Listed(user, rows, p.(status := None), now)
  {
    var p' := p.(status := None);
    assert p'.q == p.q && p'.priority == p.priority && p'.dateFilter == p.dateFilter && p'.sort == p.sort;
    assert StatusClause(p.status) == None == StatusClause(p'.status);
  }

  /** An empty `q` gives exactly the listing of a request without one. */
  lemma EmptySearchIgnored(user: UserId, rows: seq<Task>, p: Params, now: int)
    requires p.q == Some("")
    ensures Listed(user, rows, p, now) == Listed(user, rows, p.(q := None), now)
  {
    var p' := p.(q := None);
    assert p'.status == p.status && p'.priority == p.priority && p'.dateFilter == p.dateFilter && p'.sort == p.sort;
    assert SearchClause(p.q) == None == SearchClause(p'.q);
  }
}
