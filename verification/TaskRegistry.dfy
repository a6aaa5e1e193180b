/** The bookkeeping of a task manager under its lock: tasks by id and by group, and which finished ones are still kept. */
module TaskRegistry {

  /** Group 0 is no group at all; with `maxFinished` 0 every finished task is kept. */
  datatype Registry = Registry(tasks: set<nat>, byGroup: map<nat, set<nat>>, finishedOrder: seq<nat>, maxFinished: nat)

  function Group(r: Registry, group: nat): set<nat> {
    if group in r.byGroup then r.byGroup[group] else {}
  }

  function Registered(r: Registry, id: nat, group: nat): Registry {
    r.(tasks := r.tasks + {id}, byGroup := if group == 0 then r.byGroup else r.byGroup[group := Group(r, group) + {id}])
  }

  /** A group without tasks is forgotten. */
  function Ungrouped(r: Registry, id: nat, group: nat): Registry {
    if group == 0 || group !in r.byGroup then r
    else if r.byGroup[group] - {id} == {} then r.(byGroup := r.byGroup - {group})
    else r.(byGroup := r.byGroup[group := r.byGroup[group] - {id}])
  }

  /** A thread that does not start takes its task back out. */
  function Unregistered(r: Registry, id: nat, group: nat): Registry {
    Ungrouped(r.(tasks := r.tasks - {id}), id, group)
  }

  /** `_evict_finished_locked`. */
  function EvictedFinished(r: Registry): Registry
    decreases |r.finishedOrder|
  {
    if r.maxFinished == 0 || |r.finishedOrder| <= r.maxFinished then r
    else EvictedFinished(r.(tasks := r.tasks - {r.finishedOrder[0]}, finishedOrder := r.finishedOrder[1..]))
  }

  /** `_finalize_task`. */
  function Finalized(r: Registry, id: nat, group: nat): Registry {
    var r1 := Ungrouped(r, id, group);
    EvictedFinished(r1.(tasks := r1.tasks + {id}, finishedOrder := r1.finishedOrder + [id]))
  }

  // What it amounts to.

  /** The finished tasks that are kept: the latest ones. */
  function Kept(log: seq<nat>, maxFinished: nat): seq<nat> {
    if maxFinished == 0 || |log| <= maxFinished then log else log[|log| - maxFinished..]
  }

  ghost predicate NoRepeats(s: seq<nat>) {
    forall i, j :: 0 <= i < j < |s| ==> s[i] != s[j]
  }

  function Elements(s: seq<nat>): set<nat> {
    set x | x in s
  }

  /** Eviction leaves the latest finished tasks and every unfinished one. */
  lemma {:induction false} EvictionKeepsLatest(r: Registry, unfinished: set<nat>)
    requires r.tasks == unfinished + Elements(r.finishedOrder) && NoRepeats(r.finishedOrder) && unfinished !! Elements(r.finishedOrder)
    ensures var r' := EvictedFinished(r);
            r'.finishedOrder == Kept(r.finishedOrder, r.maxFinished) && r'.tasks == unfinished + Elements(r'.finishedOrder) &&
            r'.byGroup == r.byGroup && r'.maxFinished == r.maxFinished
    decreases |r.finishedOrder|
  {
    if r.maxFinished != 0 && |r.finishedOrder| > r.maxFinished {
      var first, rest := r.finishedOrder[0], r.finishedOrder[1..];
      assert r.finishedOrder == [first] + rest;
      forall x
        ensures x in Elements(rest) <==> x in Elements(r.finishedOrder) && x != first
      {
        if x in rest {
          var j :| 0 <= j < |rest| && rest[j] == x;
          assert r.finishedOrder[j + 1] == x;
        }
      }
      assert first in r.finishedOrder;
      EvictionKeepsLatest(r.(tasks := r.tasks - {first}, finishedOrder := rest), unfinished);
      assert Kept(rest, r.maxFinished) == Kept(r.finishedOrder, r.maxFinished);
    }
  }

  class Manager {
    var tasks: set<nat>
    var byGroup: map<nat, set<nat>>
    var finishedOrder: seq<nat>
    var maxFinished: nat
    var evictedFinishedTotal: nat

    function Value(): Registry
      reads this
    {
      Registry(tasks, byGroup, finishedOrder, maxFinished)
    }

    constructor (maxFinished: nat)
      ensures Value() == Registry({}, map[], [], maxFinished) && evictedFinishedTotal == 0
    {
      tasks, byGroup, finishedOrder, this.maxFinished, evictedFinishedTotal := {}, map[], [], maxFinished, 0;
    }

    method Register(id: nat, group: nat)
      modifies this
      ensures Value() == Registered(old(Value()), id, group)
    {
      tasks := tasks + {id};
      if group != 0 {
        byGroup := byGroup[group := (if group in byGroup then byGroup[group] else {}) + {id}];
      }
    }

    method LeaveGroup(id: nat, group: nat)
      modifies this`byGroup
      ensures Value() == Ungrouped(old(Value()), id, group)
    {
      if group != 0 && group in byGroup {
        var ids := byGroup[group] - {id};
        byGroup := if ids == {} then byGroup - {group} else byGroup[group := ids];
      }
    }

    method FinalizeTask(id: nat, group: nat)
      modifies this
      ensures Value() == Finalized(old(Value()), id, group)
      ensures evictedFinishedTotal == old(evictedFinishedTotal) + |old(tasks) + {id}| - |tasks|
    {
      LeaveGroup(id, group);
      tasks := tasks + {id};
      finishedOrder := finishedOrder + [id];
      EvictFinished();
    }

    method EvictFinished()
      modifies this
      ensures Value() == EvictedFinished(old(Value()))
      ensures tasks <= old(tasks) && evictedFinishedTotal == old(evictedFinishedTotal) + |old(tasks)| - |tasks|
    {
      if maxFinished == 0 {
        return;
      }
      while |finishedOrder| > maxFinished
        invariant maxFinished == old(maxFinished) != 0 && EvictedFinished(Value()) == EvictedFinished(old(Value()))
        invariant tasks <= old(tasks) && evictedFinishedTotal == old(evictedFinishedTotal) + |old(tasks)| - |tasks|
        decreases |finishedOrder|
      {
        var evicted := finishedOrder[0];
        finishedOrder := finishedOrder[1..];
        if evicted in tasks {
          evictedFinishedTotal := evictedFinishedTotal + 1;
        }
        tasks := tasks - {evicted};
      }
    }
  }
}
