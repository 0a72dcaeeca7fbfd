/** workspace/workspace.go: a workspace holds daily entries, the tasks they
    list, and an index from tags to the tasks carrying them. */
module Workspaces {
  import opened Common
  import opened Wrappers
  import opened Tasks

  /** An entry: the tasks listed for one day, and when it was opened. */
  datatype Entry = Entry(date: Time, tasks: seq<uint64>)

  /** The tag index: each tag with the identifiers of the tasks carrying it. */
  type TagIndex = map<string, seq<uint64>>

  // ---------------------------------------------------------------------
  // Entry identifiers

  const TwoTo64: int := 0x1_0000_0000_0000_0000

  /** uint64(Today().Unix()): the seconds from the Unix epoch to the
      midnight starting the day of now, as a uint64. */
  function EntryId(now: Time): (id: uint64)
    ensures id as int == (Day(now) / Second) % TwoTo64
  {
    ((Day(now) / Second) % TwoTo64) as uint64
  }

  /** Between 1970 and the year 2554 every day has its own entry
      identifier, and all times of one day share it. */
  lemma EntryIdPerDay(t1: Time, t2: Time)
    requires 0 <= t1 < TwoTo64 && 0 <= t2 < TwoTo64
    ensures EntryId(t1) == EntryId(t2) <==> Day(t1) == Day(t2)
  {
    var d1, d2 := Day(t1), Day(t2);
    assert 0 <= d1 && 0 <= d2 by {
      MidnightNotNegative(t1);
      MidnightNotNegative(t2);
    }
    assert d1 / Second < TwoTo64 && d2 / Second < TwoTo64;
    if d1 != d2 {
      assert d1 % Second == 0 && d2 % Second == 0 by {
        DayIsWholeSeconds(t1);
        DayIsWholeSeconds(t2);
      }
      assert d1 == (d1 / Second) * Second;
      assert d2 == (d2 / Second) * Second;
    }
  }

  lemma MidnightNotNegative(t: Time)
    requires 0 <= t
    ensures 0 <= Day(t)
  {
    MidnightsOrdered(0, Day(t));
  }

  lemma DayIsWholeSeconds(t: Time)
    ensures Day(t) % Second == 0
  {
    var k := Day(t) / DurationDay;
    assert Day(t) == k * DurationDay;
    assert Day(t) == (k * 86_400) * Second;
  }

  // ---------------------------------------------------------------------
  // Sorting tags: sort.Strings

  /** Go's string comparison: byte-wise on UTF-8, which orders strings as
      code-point sequences, shorter prefixes first. */
  predicate StrLeq(a: string, b: string): (r: bool)
    ensures a <= b ==> r
  {
    if a == [] then true
    else if b == [] then false
    else if a[0] != b[0] then a[0] < b[0]
    else StrLeq(a[1..], b[1..])
  }

  /** Any two strings are ordered one way or the other. */
  lemma {:induction false} StrLeqTotal(a: string, b: string)
    ensures StrLeq(a, b) || StrLeq(b, a)
  {
    if a != [] && b != [] && a[0] == b[0] {
      StrLeqTotal(a[1..], b[1..]);
    }
  }

  /** Two strings each no greater than the other are the same string. */
  lemma {:induction false} StrLeqAntisymmetric(a: string, b: string)
    requires StrLeq(a, b) && StrLeq(b, a)
    ensures a == b
  {
    if a != [] && b != [] {
      StrLeqAntisymmetric(a[1..], b[1..]);
      assert a == [a[0]] + a[1..] && b == [b[0]] + b[1..];
    }
  }

  /** The order is transitive, so sort.Strings has one answer. */
  lemma {:induction false} StrLeqTransitive(a: string, b: string, c: string)
    requires StrLeq(a, b) && StrLeq(b, c)
    ensures StrLeq(a, c)
  {
    if a != [] && b != [] && c != [] && a[0] == b[0] && b[0] == c[0] {
      StrLeqTransitive(a[1..], b[1..], c[1..]);
    }
  }

  /** Each string is no greater than its successor. */
  predicate Sorted(s: seq<string>) {
    forall i :: 0 < i < |s| ==> StrLeq(s[i - 1], s[i])
  }

  /** x put in place within the sorted s. */
  function Insert(x: string, s: seq<string>): (r: seq<string>)
    requires Sorted(s)
    ensures Sorted(r)
    ensures multiset(r) == multiset(s) + multiset{x}
    ensures |r| == |s| + 1
    ensures r[0] == x || (s != [] && r[0] == s[0])
  {
    if s == [] then [x]
    else if StrLeq(x, s[0]) then [x] + s
    else
      StrLeqTotal(x, s[0]);
      var rest := Insert(x, s[1..]);
      assert s == [s[0]] + s[1..];
      [s[0]] + rest
  }

  /** sort.Strings: the same strings, in order. */
  function SortStrings(s: seq<string>): (r: seq<string>)
    ensures Sorted(r)
    ensures multiset(r) == multiset(s)
  {
    if s == [] then []
    else
      assert s == s[..|s| - 1] + [s[|s| - 1]];
      Insert(s[|s| - 1], SortStrings(s[..|s| - 1]))
  }

  // ---------------------------------------------------------------------
  // Tagging

  /** The outcome of Tag: its result and the new tasks and tag index. */
  datatype TagOutcome = TagOutcome(ok: bool, tasks: TaskSet, index: TagIndex)

  /** The identifiers recorded under tag, none if the tag is not indexed. */
  function Lookup(index: TagIndex, tag: string): seq<uint64> {
    if tag in index then index[tag] else []
  }

  /** What Tag does: nothing for an unknown task; nothing either when the
      task already carries the tag or the index already lists the task
      under it; otherwise the task is added to the tag's list and the tag
      to the task's tags, which are sorted again. */
  function TagTask(tasks: TaskSet, index: TagIndex, id: uint64, tag: string): (r: TagOutcome)
    ensures r.ok <==> id in tasks
    ensures r.tasks.Keys == tasks.Keys
    ensures forall k :: k in tasks && k != id ==> r.tasks[k] == tasks[k]
    ensures forall t :: t in index && t != tag ==> t in r.index && r.index[t] == index[t]
    ensures forall t :: t in r.index ==> t in index || t == tag
    ensures (id !in tasks || tag in tasks[id].tags || id in Lookup(index, tag)) ==>
      r.tasks == tasks && r.index == index
    ensures id in tasks && tag !in tasks[id].tags && id !in Lookup(index, tag) ==>
      && tag in r.index && r.index[tag] == Lookup(index, tag) + [id]
      && Sorted(r.tasks[id].tags)
      && multiset(r.tasks[id].tags) == multiset(tasks[id].tags) + multiset{tag}
      && r.tasks[id] == tasks[id].(tags := r.tasks[id].tags)
  {
    if id !in tasks then TagOutcome(false, tasks, index)
    else if tag in tasks[id].tags then TagOutcome(true, tasks, index)
    else if tag in index && id in index[tag] then TagOutcome(true, tasks, index)
    else
      var task := tasks[id].(tags := SortStrings(tasks[id].tags + [tag]));
      TagOutcome(true, tasks[id := task], index[tag := Lookup(index, tag) + [id]])
  }

  /** The tag index lists exactly the tasks carrying each tag. */
  ghost predicate IndexConsistent(tasks: TaskSet, index: TagIndex) {
    && (forall t, k :: t in index && k in index[t] ==> k in tasks && t in tasks[k].tags)
    && (forall k, t :: k in tasks && t in tasks[k].tags ==> t in index && k in index[t])
  }

  /** Tagging keeps the index consistent with the tasks, and afterwards the
      task carries the tag and is listed under it. */
  lemma TagKeepsIndexConsistent(tasks: TaskSet, index: TagIndex, id: uint64, tag: string)
    requires IndexConsistent(tasks, index)
    requires id in tasks
    ensures var r := TagTask(tasks, index, id, tag);
      && IndexConsistent(r.tasks, r.index)
      && tag in r.tasks[id].tags && tag in r.index && id in r.index[tag]
  {
    var r := TagTask(tasks, index, id, tag);
    if tag !in tasks[id].tags && !(tag in index && id in index[tag]) {
      SortedTagsMembers(tasks[id].tags, tag);
      assert forall k :: k in r.index[tag] <==> k in Lookup(index, tag) || k == id;
      forall t, k | t in r.index && k in r.index[t]
        ensures k in r.tasks && t in r.tasks[k].tags
      {
        if t != tag && k != id {
          assert k in index[t];
        }
      }
      forall k, t | k in r.tasks && t in r.tasks[k].tags
        ensures t in r.index && k in r.index[t]
      {
        if k != id {
          assert t in tasks[k].tags;
        }
      }
    }
  }

  /** The tags of a task after tagging: its old tags and the new one. */
  lemma SortedTagsMembers(existing: seq<string>, tag: string)
    ensures forall t :: t in SortStrings(existing + [tag]) <==> t in existing || t == tag
  {
    var sorted := SortStrings(existing + [tag]);
    forall t
      ensures t in sorted <==> t in existing || t == tag
    {
      assert t in sorted <==> t in multiset(sorted);
      assert t in existing + [tag] <==> t in multiset(existing + [tag]);
    }
  }

  /** Tagging twice changes nothing the first time did not. */
  lemma TagIdempotent(tasks: TaskSet, index: TagIndex, id: uint64, tag: string)
    ensures var once := TagTask(tasks, index, id, tag);
      TagTask(once.tasks, once.index, id, tag) == once
  {
    var once := TagTask(tasks, index, id, tag);
    if id in tasks && tag !in tasks[id].tags && !(tag in index && id in index[tag]) {
      assert once.index[tag] == Lookup(index, tag) + [id];
      assert id in once.index[tag];
    }
  }

  // ---------------------------------------------------------------------
  // The workspace

  class Workspace {
    var name: string
    /** The identifier of the most recent entry. */
    var last: uint64
    var entries: map<uint64, Entry>
    var tasks: TaskSet
    var tags: TagIndex

    /** Every task an entry lists is a task of the workspace. */
    ghost predicate Valid()
      reads this
    {
      forall e, k :: e in entries && k in entries[e].tasks ==> k in tasks
    }

    /** The tasks of the most recent entry are tasks of the workspace: the
        source dereferences each of them when a new day's entry is made. */
    predicate LastEntryKnown()
      reads this
    {
      last in entries ==> forall k :: k in entries[last].tasks ==> k in tasks
    }

    /** NewWorkspace: an empty workspace of the given name. */
    constructor (name: string)
      ensures this.name == name && last == 0
      ensures entries == map[] && tasks == map[] && tags == map[]
      ensures Valid()
    {
      this.name := name;
      last := 0;
      entries := map[];
      tasks := map[];
      tags := map[];
    }

    /** EntryTasks: no task set for an unknown entry; otherwise the
        workspace's tasks that the entry lists. */
    method EntryTasks(id: uint64) returns (r: Option<TaskSet>)
      requires id in entries ==> forall k :: k in entries[id].tasks ==> k in tasks
      ensures r.None? <==> id !in entries
      ensures r.Some? ==> SubsetOf(r.value, tasks)
      ensures r.Some? ==> forall k :: k in r.value <==> k in entries[id].tasks
    {
      if id !in entries {
        return None;
      }
      var e := entries[id];
      var ts: TaskSet := map[];
      for i := 0 to |e.tasks|
        invariant SubsetOf(ts, tasks)
        invariant forall k :: k in ts <==> k in e.tasks[..i]
      {
        assert e.tasks[..i + 1] == e.tasks[..i] + [e.tasks[i]];
        ts := ts[e.tasks[i] := tasks[e.tasks[i]]];
      }
      assert e.tasks[..|e.tasks|] == e.tasks;
      return Some(ts);
    }

    /** The tasks a new entry takes over: the unfinished tasks of the most
        recent entry, or none when there is no entry yet. */
    function CarriedOver(): (ids: set<uint64>)
      reads this
      requires LastEntryKnown()
      ensures forall k :: k in ids ==> k in tasks && !tasks[k].done
      ensures forall k :: k in ids ==> last in entries && k in entries[last].tasks
    {
      if |entries| == 0 || last !in entries then {}
      else set k | k in entries[last].tasks && !tasks[k].done
    }

    /** NewEntry: the identifier of today's entry. If there is none yet it
        is made, dated now, listing each unfinished task of the most recent
        entry once (in no particular order), and becomes the most recent. */
    method NewEntry(now: Time) returns (id: uint64)
      requires LastEntryKnown()
      modifies this
      ensures id == EntryId(now)
      ensures old(id in entries) ==> unchanged(this)
      ensures !old(id in entries) ==>
        && id in entries && last == id
        && entries == old(entries)[id := entries[id]]
        && entries[id].date == now
        && NoDuplicates(entries[id].tasks)
        && (forall k :: k in entries[id].tasks <==> k in old(CarriedOver()))
      ensures name == old(name) && tasks == old(tasks) && tags == old(tags)
      ensures old(Valid()) ==> Valid()
    {
      id := EntryId(now);
      if id in entries {
        return;
      }
      ghost var carried := CarriedOver();
      var ids: seq<uint64> := [];
      if |entries| != 0 {
        var previous := EntryTasks(last);
        var pending: set<uint64> := {};
        if previous.Some? {
          pending := Unfinished(previous.value).Keys;
        }
        assert pending == carried;
        while pending != {}
          invariant NoDuplicates(ids)
          invariant forall k :: k in carried <==> k in ids || k in pending
          invariant forall k :: k in ids ==> k !in pending
          decreases |pending|
        {
          var k :| k in pending;
          ids := ids + [k];
          pending := pending - {k};
        }
      }
      last := id;
      entries := entries[id := Entry(now, ids)];
    }

    /** Tag: adds the tag to the task and the task to the tag's list, as
        TagTask says; false for an unknown task. */
    method Tag(id: uint64, tag: string) returns (ok: bool)
      modifies this
      ensures TagTask(old(tasks), old(tags), id, tag) == TagOutcome(ok, tasks, tags)
      ensures name == old(name) && last == old(last) && entries == old(entries)
      ensures old(Valid()) ==> Valid()
    {
      if id !in tasks {
        return false;
      }
      var task := tasks[id];
      var carries := Contains(tag, task.tags);
      if carries {
        return true;
      }
      if tag in tags {
        var listed := tags[tag];
        for i := 0 to |listed|
          invariant id !in listed[..i]
        {
          if listed[i] == id {
            return true;
          }
        }
        assert listed[..|listed|] == listed;
      }
      var listed := if tag in tags then tags[tag] else [];
      tags := tags[tag := listed + [id]];
      task := task.(tags := SortStrings(task.tags + [tag]));
      tasks := tasks[id := task];
      return true;
    }
  }
}
