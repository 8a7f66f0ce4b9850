/** The process table (ProcessStatuses in fuzzer/commander.cpp) called by one thread, and the tie to the single
    accesses that the pipeline interleaves. */
module ProcessTable {
  import opened Pipeline

  datatype Table = Table(statuses: map<Pid, Status>, timers: set<Pid>, allPids: set<Pid>)

  function Inserted(t: Table, pid: Pid, status: Status): Table {
    Table(if pid in t.statuses then t.statuses else t.statuses[pid := status],
          if status.Running? then t.timers + {pid} else t.timers,
          t.allPids + {pid})
  }

  function Removed(t: Table, pid: Pid): Table {
    if pid in t.statuses then Table(t.statuses - {pid}, t.timers - {pid}, t.allPids - {pid}) else t
  }

  /** Removing a set of pids; those without a status stay in the list of all pids. */
  function RemovedAll(t: Table, pids: set<Pid>): Table {
    var gone := pids * t.statuses.Keys;
    Table(t.statuses - gone, t.timers - gone, t.allPids - gone)
  }

  /** The pids with a final status, with that status. */
  function Finished(t: Table): map<Pid, Status> {
    map p | p in t.allPids && p in t.statuses && !t.statuses[p].Running? :: t.statuses[p]
  }

  lemma RemoveOneMore(t: Table, done: set<Pid>, pid: Pid)
    ensures Removed(RemovedAll(t, done), pid) == RemovedAll(t, done + {pid})
  {
    var r := RemovedAll(t, done);
    if pid in r.statuses {
      assert (done + {pid}) * t.statuses.Keys == done * t.statuses.Keys + {pid};
    } else {
      assert (done + {pid}) * t.statuses.Keys == done * t.statuses.Keys;
    }
  }

  class ProcessStatuses {
    var statuses: map<Pid, Status>
    var timers: set<Pid>
    var allPids: set<Pid>

    ghost function State(): Table
      reads this
    {
      Table(statuses, timers, allPids)
    }

    constructor ()
      ensures State() == Table(map[], {}, {})
    {
      statuses, timers, allPids := map[], {}, {};
    }

    method Insert(pid: Pid, status: Status)
      modifies this
      ensures State() == Inserted(old(State()), pid, status)
    {
      if pid !in statuses { statuses := statuses[pid := status]; }
      if status.Running? { timers := timers + {pid}; }
      allPids := allPids + {pid};
    }

    method Update(pid: Pid, status: Status)
      modifies this`statuses
      ensures statuses == if pid in old(statuses) then old(statuses)[pid := status] else old(statuses)
    {
      if pid in statuses { statuses := statuses[pid := status]; }
    }

    method Remove(pid: Pid)
      modifies this
      ensures State() == Removed(old(State()), pid)
    {
      if pid !in statuses { return; }
      statuses := statuses - {pid};
      timers := timers - {pid};
      allPids := allPids - {pid};
    }

    method RemoveEach(pids: set<Pid>)
      modifies this
      ensures State() == RemovedAll(old(State()), pids)
    {
      var todo := pids;
      while todo != {}
        invariant todo <= pids && State() == RemovedAll(old(State()), pids - todo)
        decreases todo
      {
        var pid :| pid in todo;
        RemoveOneMore(old(State()), pids - todo, pid);
        assert pids - (todo - {pid}) == (pids - todo) + {pid};
        Remove(pid);
        todo := todo - {pid};
      }
      assert pids - todo == pids;
    }

    method GetTerminatedProcesses() returns (terminated: map<Pid, Status>)
      modifies this
      ensures terminated == Finished(old(State()))
      ensures State() == RemovedAll(old(State()), terminated.Keys)
    {
      var todo := allPids;
      terminated := map[];
      while todo != {}
        invariant todo <= allPids && State() == old(State())
        invariant terminated == Finished(State().(allPids := allPids - todo))
        decreases todo
      {
        var pid :| pid in todo;
        if pid in statuses && !statuses[pid].Running? { terminated := terminated[pid := statuses[pid]]; }
        todo := todo - {pid};
      }
      assert allPids - todo == allPids;
      RemoveEach(terminated.Keys);
    }

    method Clear()
      modifies this
      ensures State() == RemovedAll(old(State()), old(allPids)).(allPids := {})
      ensures statuses == old(statuses) - old(allPids)
    {
      RemoveEach(allPids);
      assert statuses == old(statuses) - old(allPids);
      allPids := {};
    }
  }

  // ---------------------------------------------------------------- properties of the table

  /** Every pid has a status and is listed; running ones have a timer. */
  ghost predicate Consistent(t: Table) {
    && t.allPids == t.statuses.Keys && t.timers <= t.allPids
    && forall p :: p in t.statuses && t.statuses[p].Running? ==> p in t.timers
  }

  /** Taking out the finished processes splits the table: each pid is either reported, once, with its final
      status, or still tracked and running; and nothing is left to report. */
  lemma TerminatedSplitTheTable(t: Table)
    requires Consistent(t)
    ensures var left := RemovedAll(t, Finished(t).Keys);
            && Consistent(left) && left.statuses.Keys !! Finished(t).Keys
            && left.statuses + Finished(t) == t.statuses
            && (forall p :: p in left.statuses ==> left.statuses[p].Running?) && Finished(left) == map[]
  {
  }

  /** Insertion and removal keep the table consistent (a removed pid may come back with a new status); an insertion
      of a pid that is not tracked is undone by its removal. */
  lemma TableStaysConsistent(t: Table, pid: Pid, status: Status)
    requires Consistent(t)
    ensures Consistent(Removed(t, pid))
    ensures pid !in t.statuses ==> Consistent(Inserted(t, pid, status)) && Removed(Inserted(t, pid, status), pid) == t
  {
    if pid !in t.statuses {
      assert t.statuses[pid := status] - {pid} == t.statuses;
      assert t.allPids + {pid} - {pid} == t.allPids;
    }
  }

  // ---------------------------------------------------------------- the same accesses, one at a time

  function Tracked(s: State): Table { Table(s.statuses, s.timers, s.allPids) }

  /** Uninterrupted, the three accesses that insert a launched process make one insertion ... */
  lemma InsertIsThreeSteps(s: State)
    requires s.main.Mapped?
    ensures Legal(s, [Main(InsertStatus), Main(InsertTimer), Main(InsertPid)])
    ensures Tracked(After(s, [Main(InsertStatus), Main(InsertTimer), Main(InsertPid)])) == Inserted(Tracked(s), s.main.pid, Running)
  {
    var pid, left := s.main.pid, s.main.left;
    var t := s.(main := StatusIn(left, pid), statuses := if pid in s.statuses then s.statuses else s.statuses[pid := Running]);
    assert DoMain(s, InsertStatus) == t;
    assert DoMain(t, InsertTimer) == t.(main := TimerIn(left, pid), timers := t.timers + {pid});
    hide Legal, After;
    ThreeSteps(s, Main(InsertStatus), Main(InsertTimer), Main(InsertPid));
  }

  /** ... and the three that take out a finished one make one removal. */
  lemma RemoveIsThreeSteps(s: State, pid: Pid)
    requires s.monitor.Remove? && pid in s.monitor.todo && pid in s.statuses
    ensures Legal(s, [Monitor(EraseStatus(pid)), Monitor(EraseTheTimer), Monitor(EraseThePid)])
    ensures Tracked(After(s, [Monitor(EraseStatus(pid)), Monitor(EraseTheTimer), Monitor(EraseThePid)])) == Removed(Tracked(s), pid)
  {
    ThreeSteps(s, Monitor(EraseStatus(pid)), Monitor(EraseTheTimer), Monitor(EraseThePid));
  }
}
