/** The adopted-child reaper (cmd/courier-executor/reaper.go:148-259): orphans of
    the model child are collected without taking an exit status that belongs to
    a supervised child. */
module Reaper {
  import opened Options

  /** The executor's own process group. Pids and other groups are positive. */
  const OWN_GROUP: nat := 0

  type Pid = p: nat | p > 0 witness 1

  /** Who will ask for the child's exit status: a supervised run, some other
      command of this process, or nobody because it was adopted. */
  datatype Owner = Run(id: nat) | Command | Orphan

  datatype Kid = Kid(group: nat, dead: bool, owner: Owner)

  // ---- one drain against a quiet kernel ----

  /** Dead children that the reaper may collect: not supervised, and in a group
      that a supervised child led. */
  function Collectable(kids: map<Pid, Kid>, supervised: set<Pid>, groups: set<nat>): set<Pid> {
    set pid | pid in kids && kids[pid].dead && kids[pid].group in groups && pid !in supervised
  }

  lemma {:induction false} RemovalShrinks(kids: map<Pid, Kid>, supervised: set<Pid>, groups: set<nat>, gone: set<Pid>)
    ensures Collectable(kids - gone, supervised, groups) == Collectable(kids, supervised, groups) - gone
  {
  }

  lemma {:induction false} CountRemoved<T>(s: set<T>, gone: set<T>)
    requires gone <= s
    ensures |s - gone| == |s| - |gone|
  {
    assert s == (s - gone) + gone;
  }

  /** The kernel's children of this process and the reaper's two maps. */
  class ChildReaper {
    var kids: map<Pid, Kid>
    var supervised: set<Pid>
    var groups: set<nat>
    var reaped: nat

    function Left(): set<Pid>
      reads this
    {
      Collectable(kids, supervised, groups)
    }

    method Wait4(pid: Pid) returns (collected: bool)
      modifies this`kids
      ensures collected <==> pid in old(kids) && old(kids)[pid].dead
      ensures kids == if collected then old(kids) - {pid} else old(kids)
    {
      collected := pid in kids && kids[pid].dead;
      if collected {
        kids := kids - {pid};
      }
    }

    /** One pass over a listing, however incomplete or stale it is. */
    method Pass(pids: seq<Pid>) returns (collected: bool, ghost gone: set<Pid>)
      modifies this`kids, this`reaped
      ensures forall p :: p in gone <==>
                p in pids && p in old(kids) && old(kids)[p].dead && old(kids)[p].group in groups && p !in supervised
      ensures kids == old(kids) - gone && reaped == old(reaped) + |gone| && (collected <==> gone != {})
    {
      collected := false;
      gone := {};
      for i := 0 to |pids|
        invariant gone == set p | p in pids[..i] && p in old(Left())
        invariant kids == old(kids) - gone && reaped == old(reaped) + |gone| && (collected <==> gone != {})
      {
        var pid := pids[i];
        assert pids[..i + 1] == pids[..i] + [pid];
        if pid in supervised {
          continue;
        }
        if pid !in kids || kids[pid].group !in groups {
          continue;
        }
        var got := Wait4(pid);
        if !got {
          continue;
        }
        reaped := reaped + 1;
        collected := true;
        gone := gone + {pid};
      }
      assert pids[..|pids|] == pids;
    }

    /** The drain loop: `listing` answers each enumeration, or fails. It ends
        after any answers, collects only collectable children, and a complete
        last answer leaves none behind. */
    method Drain(listing: nat -> Option<seq<Pid>>) returns (passes: nat, ghost gone: set<Pid>)
      modifies this`kids, this`reaped
      ensures gone <= old(Left()) && kids == old(kids) - gone && Left() == old(Left()) - gone
      ensures reaped == old(reaped) + |gone| && passes <= |gone|
      ensures forall pid | pid in gone :: old(kids)[pid].dead && old(kids)[pid].group in groups && pid !in supervised
      ensures listing(passes).Some? && (forall pid | pid in kids :: pid in listing(passes).value) ==>
                forall pid | pid in kids && kids[pid].dead && kids[pid].group in groups :: pid in supervised
    {
      passes := 0;
      gone := {};
      ghost var all, before := Left(), kids;
      assert kids - gone == kids;
      while true
        invariant gone <= all && kids == before - gone && Left() == all - gone
        invariant reaped == old(reaped) + |gone| && passes <= |gone|
        decreases |all - gone|
      {
        var pids := listing(passes);
        if pids.None? {
          return;
        }
        ghost var left := Left();
        var collected, now := Pass(pids.value);
        RemovalShrinks(before - gone, supervised, groups, now);
        if !collected {
          assert before - gone - now == before - gone;
          return;
        }
        Merge(before, all, gone, now);
        gone := gone + now;
        passes := passes + 1;
      }
    }
  }

  lemma {:induction false} Merge(kids: map<Pid, Kid>, all: set<Pid>, gone: set<Pid>, now: set<Pid>)
    requires gone <= all && now <= all - gone && now != {}
    ensures kids - gone - now == kids - (gone + now) && all - gone - now == all - (gone + now)
    ensures |gone + now| == |gone| + |now| && |now| > 0 && |all - (gone + now)| < |all - gone|
  {
    CountRemoved(gone + now, now);
    assert gone + now - now == gone;
    CountRemoved(all - gone, now);
    assert all - gone - now == all - (gone + now);
  }
}
