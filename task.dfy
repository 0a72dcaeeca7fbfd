/** workspace/task.go: priorities, tasks, and the task-set algebra. Every
    operation on a TaskSet builds a fresh map holding exactly the tasks of
    its input that pass a test on the task alone. */
module Tasks {
  import opened Common

  // ---------------------------------------------------------------------
  // Priority

  /** Priority is a uint8; the named priorities are ordered by their number. */
  newtype Priority = x: int | 0 <= x < 256

  const Unknown: Priority := 0
  const Low: Priority := 1
  const Normal: Priority := 2
  const High: Priority := 3
  const Urgent: Priority := 4

  /** Priority.String: the one-character code of the priorityStrings table;
      a value missing from the table prints as Unknown's code. */
  function PriorityString(p: Priority): (s: string)
    ensures |s| == 1
    ensures p > Urgent ==> s == "?"
  {
    if p == Low then "L"
    else if p == Normal then "N"
    else if p == High then "H"
    else if p == Urgent then "!"
    else "?"
  }

  /** PriorityFromString: the priority whose code is ps, and Unknown for any
      other string. */
  function PriorityFromString(ps: string): (p: Priority)
    ensures p <= Urgent
    ensures ps != "L" && ps != "N" && ps != "H" && ps != "!" ==> p == Unknown
  {
    if ps == "L" then Low
    else if ps == "N" then Normal
    else if ps == "H" then High
    else if ps == "!" then Urgent
    else Unknown
  }

  /** Each named priority is read back from its code. */
  lemma PriorityRoundTrip(p: Priority)
    requires p <= Urgent
    ensures PriorityFromString(PriorityString(p)) == p
  {
  }

  /** A string is read and printed back unchanged exactly when it is one of
      the five codes. */
  lemma PriorityCodeRoundTrip(ps: string)
    ensures PriorityString(PriorityFromString(ps)) == ps <==> ps in {"?", "L", "N", "H", "!"}
  {
  }

  // ---------------------------------------------------------------------
  // Task

  /** A TODO item. Finished is the zero time until the task is done. */
  datatype Task = Task(
    id: uint64,
    done: bool,
    created: Time,
    finished: Time,
    title: string,
    notes: seq<string>,
    tags: seq<string>,
    priority: Priority)

  /** NewTask: an unfinished, normal-priority task created at now. */
  function NewTask(id: uint64, title: string, now: Time): (t: Task)
    ensures t.id == id && t.title == title && t.created == now
    ensures !t.done && t.finished == ZeroTime && t.priority == Normal
    ensures t.notes == [] && t.tags == []
  {
    Task(id, false, now, ZeroTime, title, [], [], Normal)
  }

  /** MarkDone: the task completed at now; nothing else about it changes. */
  function MarkDone(t: Task, now: Time): (r: Task)
    ensures r.done && r.finished == now
    ensures r.id == t.id && r.created == t.created && r.title == t.title
    ensures r.notes == t.notes && r.tags == t.tags && r.priority == t.priority
  {
    t.(done := true, finished := now)
  }

  // ---------------------------------------------------------------------
  // TaskSet

  /** A TaskSet maps task identifiers to tasks. */
  type TaskSet = map<uint64, Task>

  /** r holds some of the entries of ts, unchanged: it adds no key. */
  ghost predicate SubsetOf(r: TaskSet, ts: TaskSet) {
    forall id :: id in r ==> id in ts && r[id] == ts[id]
  }

  /** TaskSet.dup: a copy of ts, built entry by entry. */
  method Dup(ts: TaskSet) returns (tasks: TaskSet)
    ensures tasks == ts
  {
    tasks := map[];
    var rest := ts.Keys;
    while rest != {}
      invariant rest <= ts.Keys
      invariant tasks.Keys == ts.Keys - rest
      invariant forall id :: id in tasks ==> tasks[id] == ts[id]
      decreases |rest|
    {
      var id :| id in rest;
      tasks := tasks[id := ts[id]];
      rest := rest - {id};
    }
  }

  /** FilterPriority: the tasks of at least priority pri. */
  function FilterPriority(ts: TaskSet, pri: Priority): (r: TaskSet)
    ensures SubsetOf(r, ts)
    ensures forall id :: id in ts ==> (id in r <==> ts[id].priority >= pri)
  {
    map id | id in ts && ts[id].priority >= pri :: ts[id]
  }

  /** Raising the threshold can only drop tasks. */
  lemma FilterPriorityMonotone(ts: TaskSet, p1: Priority, p2: Priority)
    requires p1 <= p2
    ensures SubsetOf(FilterPriority(ts, p2), FilterPriority(ts, p1))
  {
  }

  /** FilterTag: the tasks carrying tag, compared exactly and case-sensitively. */
  function FilterTag(ts: TaskSet, tag: string): (r: TaskSet)
    ensures SubsetOf(r, ts)
    ensures forall id :: id in ts ==> (id in r <==> tag in ts[id].tags)
  {
    map id | id in ts && tag in ts[id].tags :: ts[id]
  }

  /** The task carries every one of tags. */
  predicate HasAllTags(t: Task, tags: seq<string>) {
    forall tag :: tag in tags ==> tag in t.tags
  }

  /** FilterTags: FilterTag applied for each tag in turn, starting from a
      copy of ts; the tasks carrying all of tags. */
  function FilterTags(ts: TaskSet, tags: seq<string>): (r: TaskSet)
    ensures SubsetOf(r, ts)
    ensures forall id :: id in ts ==> (id in r <==> HasAllTags(ts[id], tags))
    decreases |tags|
  {
    if tags == [] then ts
    else
      assert forall tag :: tag in tags <==> tag == tags[0] || tag in tags[1..];
      FilterTags(FilterTag(ts, tags[0]), tags[1..])
  }

  /** Only the set of tags matters to FilterTags, not their order or repeats. */
  lemma FilterTagsOnlySetMatters(ts: TaskSet, tags1: seq<string>, tags2: seq<string>)
    requires forall tag :: tag in tags1 <==> tag in tags2
    ensures FilterTags(ts, tags1) == FilterTags(ts, tags2)
  {
    var r1, r2 := FilterTags(ts, tags1), FilterTags(ts, tags2);
    assert forall id :: id in ts ==> (HasAllTags(ts[id], tags1) <==> HasAllTags(ts[id], tags2));
    assert r1.Keys == r2.Keys;
  }

  /** Unfinished: the tasks not done. */
  function Unfinished(ts: TaskSet): (r: TaskSet)
    ensures SubsetOf(r, ts)
    ensures forall id :: id in ts ==> (id in r <==> !ts[id].done)
  {
    map id | id in ts && !ts[id].done :: ts[id]
  }

  /** Marking a task of ts done removes exactly that task from the unfinished ones. */
  lemma MarkDoneLeavesUnfinished(ts: TaskSet, id: uint64, now: Time)
    requires id in ts
    ensures Unfinished(ts[id := MarkDone(ts[id], now)]) == Unfinished(ts) - {id}
  {
    var ts' := ts[id := MarkDone(ts[id], now)];
    assert Unfinished(ts').Keys == Unfinished(ts).Keys - {id};
  }

  /** The time a look-back of dur from now starts at: now.Add(-1 * dur),
      with Go's 64-bit product. */
  function WindowStart(now: Time, dur: Duration): (t: Time)
    ensures dur != MinInt64 ==> t == now - dur
  {
    now + WrapInt64(-1 * dur)
  }

  /** CompletedDuration: the done tasks finished strictly after now - dur. */
  function CompletedDuration(ts: TaskSet, dur: Duration, now: Time): (r: TaskSet)
    ensures SubsetOf(r, ts)
    ensures forall id :: id in ts ==>
      (id in r <==> ts[id].done && ts[id].finished > WindowStart(now, dur))
  {
    var started := WindowStart(now, dur);
    map id | id in ts && ts[id].done && ts[id].finished > started :: ts[id]
  }

  /** CreatedDuration: the done tasks created strictly after now - dur. */
  function CreatedDuration(ts: TaskSet, dur: Duration, now: Time): (r: TaskSet)
    ensures SubsetOf(r, ts)
    ensures forall id :: id in ts ==>
      (id in r <==> ts[id].done && ts[id].created > WindowStart(now, dur))
  {
    var started := WindowStart(now, dur);
    map id | id in ts && ts[id].done && ts[id].created > started :: ts[id]
  }

  /** CompletedRange: the done tasks finished from the midnight starting
      start's day up to the midnight ending end's day. */
  function CompletedRange(ts: TaskSet, start: Time, end: Time): (r: TaskSet)
    ensures SubsetOf(r, ts)
    ensures forall id :: id in ts ==>
      (id in r <==> ts[id].done && Day(start) <= ts[id].finished < Day(end) + DurationDay)
  {
    var r := map id | id in ts && ts[id].done && After(ts[id].finished, start) && Before(ts[id].finished, end) :: ts[id];
    assert forall id :: id in ts ==>
      (After(ts[id].finished, start) <==> ts[id].finished >= Day(start)) by {
      forall id | id in ts {
        AfterMeansFromDayStart(ts[id].finished, start);
      }
    }
    assert forall id :: id in ts ==>
      (Before(ts[id].finished, end) <==> ts[id].finished < Day(end) + DurationDay) by {
      forall id | id in ts {
        BeforeMeansEarlierThanDayEnd(ts[id].finished, end);
      }
    }
    r
  }

  /** CreatedRange: the done tasks created strictly between start and end,
      compared to the nanosecond rather than by day. */
  function CreatedRange(ts: TaskSet, start: Time, end: Time): (r: TaskSet)
    ensures SubsetOf(r, ts)
    ensures forall id :: id in ts ==> (id in r <==> ts[id].done && start < ts[id].created < end)
  {
    map id | id in ts && ts[id].done && start < ts[id].created && ts[id].created < end :: ts[id]
  }

  /** TaskSet.Sort: every task of ts exactly once, in the order the map
      hands out its keys, which no caller can rely on (no sorting is done).
      ids is the order of the keys that was used. */
  method Sort(ts: TaskSet) returns (tasks: seq<Task>, ghost ids: seq<uint64>)
    ensures |tasks| == |ids| == |ts|
    ensures NoDuplicates(ids)
    ensures forall id :: id in ts <==> id in ids
    ensures forall i :: 0 <= i < |tasks| ==> ids[i] in ts && tasks[i] == ts[ids[i]]
    ensures forall t :: t in tasks <==> t in ts.Values
  {
    var order: seq<uint64> := [];
    var rest := ts.Keys;
    while rest != {}
      invariant rest <= ts.Keys
      invariant forall id :: id in ts ==> (id in order <==> id !in rest)
      invariant forall id :: id in order ==> id in ts
      invariant NoDuplicates(order)
      invariant |order| + |rest| == |ts|
      decreases |rest|
    {
      var id :| id in rest;
      order := order + [id];
      rest := rest - {id};
    }
    tasks := [];
    for i := 0 to |order|
      invariant |tasks| == i
      invariant forall k :: 0 <= k < i ==> tasks[k] == ts[order[k]]
    {
      tasks := tasks + [ts[order[i]]];
    }
    ids := order;
    forall t | t in ts.Values
      ensures t in tasks
    {
      var id :| id in ts && ts[id] == t;
      var i :| 0 <= i < |ids| && ids[i] == id;
      assert tasks[i] == t;
    }
  }
}
