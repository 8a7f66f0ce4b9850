/** The generation pipeline (fuzzer/handler.cpp, fuzzer/commander.cpp) as an interleaving of four threads:
    the main loop, the timeout watcher, the process monitor and the trace retriever.

    A step is one access to shared state; a run is any sequence of enabled steps. The sets `launched`,
    `done`, `dropped`, `late` and `traced` are history: no step is guarded by them. */
module Pipeline {
  import opened Prelude

  type Pid = nat
  type Id = nat

  datatype Status = Running | Terminated | Crashed | TimedOut | Unknown

  datatype MainPc =
    | Evolve                        // inside one_generation
    | Reset                         // inside reset_scores
    | ClearTable(todo: set<Pid>)    // inside Commander::clear
    | ClearSent | ClearReceived     // inside FuzzerProcessMonitor::clear
    | ClearCount                    // inside FuzzerTraceRetriever::clear
    | Launch(left: nat)             // individuals still to be called
    | Mapped(left: nat, pid: Pid)   // testcase_pids has the pid, the process table not yet
    | StatusIn(left: nat, pid: Pid)
    | TimerIn(left: nat, pid: Pid)
    | WaitSent
    | WaitProcessed

  datatype MonitorPc =
    | Top
    | SawEmpty                      // processes.empty() was true; the flags are read next
    | SawReceived                   // the first flag was set
    | SetSent                       // and the second was not
    | SawPids
    | Scan(todo: set<Pid>, term: map<Pid, Status>)
    | Remove(todo: set<Pid>, term: map<Pid, Status>)
    | EraseTimer(pid: Pid, todo: set<Pid>, term: map<Pid, Status>)
    | ErasePid(pid: Pid, todo: set<Pid>, term: map<Pid, Status>)
    | Deliver(term: map<Pid, Status>)
    | Looked(pid: Pid, status: Status, id: Id, term: map<Pid, Status>)
    | Pushed(pid: Pid, term: map<Pid, Status>)

  datatype RetrieverPc =
    | PollReady
    | Process(id: Id)
    | Adding(id: Id)                // inside ProgramKnowledge::add_trace
    | Count(id: Id)
    | PollTimedOut
    | CountTimedOut(id: Id)

  datatype State = State(
    cap: nat,
    main: MainPc, currentId: Id, toProcess: nat,
    statuses: map<Pid, Status>, timers: set<Pid>, allPids: set<Pid>, testcasePids: map<Pid, Id>,
    monitor: MonitorPc, received: bool, sent: bool,
    ready: seq<Id>, timedOut: seq<Id>,
    retriever: RetrieverPc, processed: nat,
    launched: set<Id>, done: set<Id>, dropped: set<Id>,
    late: set<Id>,                  // their process had timed out when the monitor found it finished
    traced: set<Id>)                // their trace was added to the knowledge

  datatype MainStep =
    | EndEvolve | EndReset | ClearOne(pid: Pid) | EndClear | StoreSent | StoreReceived
    | ResetCount(individuals: nat)
    | CallFails | CallSucceeds(pid: Pid) | InsertStatus | InsertTimer | InsertPid
    | AllCalled | SeeSent | LeaveWait

  datatype MonitorStep =
    | TestEmpty | ReadReceived | ReadSent | StoreAllSent | CopyPids | ScanOne(pid: Pid) | EndScan
    | EraseStatus(pid: Pid) | EraseTheTimer | EraseThePid | EndRemove | LookUp(pid: Pid) | Push | Unmap | EndDeliver

  datatype RetrieverStep =
    | PopReady | ReadyEmpty | TraceFound | TraceMissing | Added | AddThrows | Counted
    | PopTimedOut | TimedOutEmpty | TimedOutCounted

  /** The watcher's only write is Update; which pid and what it found about it are up to the system. */
  datatype Step =
    | Main(m: MainStep)
    | Update(pid: Pid, status: Status)
    | Monitor(w: MonitorStep)
    | Retriever(r: RetrieverStep)

  /** The flags are first stored to when main clears, so they start with any values. */
  function Init(cap: nat, received: bool, sent: bool): State {
    State(cap, Evolve, 0, 0, map[], {}, {}, map[], Top, received, sent, [], [], PollReady, 0, {}, {}, {}, {}, {})
  }

  /** When a step may be taken. A pid handed out by the system is not one that is still mapped. */
  predicate MainEnabled(s: State, a: MainStep) {
    match a
    case EndEvolve => s.main.Evolve?
    case EndReset => s.main.Reset?
    case ClearOne(pid) => s.main.ClearTable? && pid in s.main.todo
    case EndClear => s.main.ClearTable? && s.main.todo == {}
    case StoreSent => s.main.ClearSent?
    case StoreReceived => s.main.ClearReceived?
    case ResetCount(_) => s.main.ClearCount?
    case CallFails => s.main.Launch? && s.main.left > 0 && |s.allPids| < s.cap
    case CallSucceeds(pid) =>
      s.main.Launch? && s.main.left > 0 && |s.allPids| < s.cap && pid !in s.testcasePids
    case InsertStatus => s.main.Mapped?
    case InsertTimer => s.main.StatusIn?
    case InsertPid => s.main.TimerIn?
    case AllCalled => s.main.Launch? && s.main.left == 0
    case SeeSent => s.main.WaitSent? && s.sent
    case LeaveWait => s.main.WaitProcessed? && s.processed >= s.toProcess
  }

  predicate MonitorEnabled(s: State, a: MonitorStep) {
    match a
    case TestEmpty => s.monitor.Top?
    case ReadReceived => s.monitor.SawEmpty?
    case ReadSent => s.monitor.SawReceived?
    case StoreAllSent => s.monitor.SetSent?
    case CopyPids => s.monitor.SawPids?
    case ScanOne(pid) => s.monitor.Scan? && pid in s.monitor.todo
    case EndScan => s.monitor.Scan? && s.monitor.todo == {}
    case EraseStatus(pid) => s.monitor.Remove? && pid in s.monitor.todo
    case EraseTheTimer => s.monitor.EraseTimer?
    case EraseThePid => s.monitor.ErasePid?
    case EndRemove => s.monitor.Remove? && s.monitor.todo == {}
    case LookUp(pid) => s.monitor.Deliver? && pid in s.monitor.term
    case Push => s.monitor.Looked?
    case Unmap => s.monitor.Pushed?
    case EndDeliver => s.monitor.Deliver? && s.monitor.term == map[]
  }

  predicate RetrieverEnabled(s: State, a: RetrieverStep) {
    match a
    case PopReady => s.retriever.PollReady? && s.ready != []
    case ReadyEmpty => s.retriever.PollReady? && s.ready == []
    case TraceFound => s.retriever.Process? && s.retriever.id >= 1
    case TraceMissing => s.retriever.Process?
    case Added => s.retriever.Adding?
    case AddThrows => s.retriever.Adding?
    case Counted => s.retriever.Count?
    case PopTimedOut => s.retriever.PollTimedOut? && s.timedOut != []
    case TimedOutEmpty => s.retriever.PollTimedOut? && s.timedOut == []
    case TimedOutCounted => s.retriever.CountTimedOut?
  }

  function DoMain(s: State, a: MainStep): State
    requires MainEnabled(s, a)
  {
    match a
    case EndEvolve => s.(main := Reset)
    case EndReset => s.(main := ClearTable(s.allPids))
    case ClearOne(pid) =>
      var s1 := s.(main := ClearTable(s.main.todo - {pid}));
      if pid in s.statuses then
        s1.(statuses := s.statuses - {pid}, timers := s.timers - {pid}, allPids := s.allPids - {pid})
      else s1
    case EndClear => s.(allPids := {}, main := ClearSent)
    case StoreSent => s.(sent := false, main := ClearReceived)
    case StoreReceived => s.(received := false, main := ClearCount)
    case ResetCount(n) =>
      s.(processed := 0, main := Launch(n), toProcess := n, launched := {}, done := {}, dropped := {}, late := {},
         traced := {})
    case CallFails =>
      s.(main := Launch(s.main.left - 1), currentId := s.currentId + 1,
         toProcess := if s.toProcess > 0 then s.toProcess - 1 else 0)
    case CallSucceeds(pid) =>
      var id := s.currentId + 1;
      s.(main := Mapped(s.main.left - 1, pid), currentId := id,
         testcasePids := s.testcasePids[pid := id], launched := s.launched + {id})
    case InsertStatus =>
      var pid := s.main.pid;
      s.(main := StatusIn(s.main.left, pid),
         statuses := if pid in s.statuses then s.statuses else s.statuses[pid := Running])
    case InsertTimer => s.(main := TimerIn(s.main.left, s.main.pid), timers := s.timers + {s.main.pid})
    case InsertPid => s.(main := Launch(s.main.left), allPids := s.allPids + {s.main.pid})
    case AllCalled => s.(received := true, main := WaitSent)
    case SeeSent => s.(main := WaitProcessed)
    case LeaveWait => s.(main := Evolve)
  }

  function DoMonitor(s: State, a: MonitorStep): State
    requires MonitorEnabled(s, a)
  {
    match a
    case TestEmpty => s.(monitor := if s.allPids == {} then SawEmpty else SawPids)
    case ReadReceived => s.(monitor := if s.received then SawReceived else Top)
    case ReadSent => s.(monitor := if s.sent then Top else SetSent)
    case StoreAllSent => s.(sent := true, monitor := Top)
    case CopyPids => s.(monitor := Scan(s.allPids, map[]))
    case ScanOne(pid) =>
      var todo, term := s.monitor.todo - {pid}, s.monitor.term;
      if pid !in s.statuses || s.statuses[pid].Running? then s.(monitor := Scan(todo, term))
      else s.(monitor := Scan(todo, term[pid := s.statuses[pid]]),
              late := if s.statuses[pid].TimedOut? && pid in s.testcasePids then s.late + {s.testcasePids[pid]} else s.late)
    case EndScan =>
      s.(monitor := if s.monitor.term == map[] then Top else Remove(s.monitor.term.Keys, s.monitor.term))
    case EraseStatus(pid) =>
      var todo := s.monitor.todo - {pid};
      if pid in s.statuses then
        s.(statuses := s.statuses - {pid}, monitor := EraseTimer(pid, todo, s.monitor.term))
      else s.(monitor := Remove(todo, s.monitor.term))
    case EraseTheTimer =>
      s.(timers := s.timers - {s.monitor.pid}, monitor := ErasePid(s.monitor.pid, s.monitor.todo, s.monitor.term))
    case EraseThePid =>
      s.(allPids := s.allPids - {s.monitor.pid}, monitor := Remove(s.monitor.todo, s.monitor.term))
    case EndRemove => s.(monitor := Deliver(s.monitor.term))
    case LookUp(pid) =>
      var rest := s.monitor.term - {pid};
      if pid !in s.testcasePids || s.testcasePids[pid] < 1 then s.(monitor := Deliver(rest))
      else s.(monitor := Looked(pid, s.monitor.term[pid], s.testcasePids[pid], rest))
    case Push =>
      var t := s.(monitor := Pushed(s.monitor.pid, s.monitor.term));
      if s.monitor.status.TimedOut? then t.(timedOut := s.timedOut + [s.monitor.id])
      else t.(ready := s.ready + [s.monitor.id])
    case Unmap => s.(testcasePids := s.testcasePids - {s.monitor.pid}, monitor := Deliver(s.monitor.term))
    case EndDeliver => s.(monitor := Top)
  }

  function DoRetriever(s: State, a: RetrieverStep): State
    requires RetrieverEnabled(s, a)
  {
    match a
    case PopReady => s.(ready := s.ready[1..], retriever := Process(s.ready[0]))
    case ReadyEmpty => s.(retriever := PollTimedOut)
    case TraceFound => s.(retriever := Adding(s.retriever.id))
    case TraceMissing => s.(retriever := PollTimedOut, dropped := s.dropped + {s.retriever.id})
    case Added => s.(retriever := Count(s.retriever.id), traced := s.traced + {s.retriever.id})
    case AddThrows => s.(retriever := PollTimedOut, dropped := s.dropped + {s.retriever.id})
    case Counted => s.(retriever := PollTimedOut, processed := s.processed + 1, done := s.done + {s.retriever.id})
    case PopTimedOut => s.(timedOut := s.timedOut[1..], retriever := CountTimedOut(s.timedOut[0]))
    case TimedOutEmpty => s.(retriever := PollReady)
    case TimedOutCounted => s.(retriever := PollReady, processed := s.processed + 1, done := s.done + {s.retriever.id})
  }

  /** The watcher's update is lost when the pid is no longer in the table. */
  function DoUpdate(s: State, pid: Pid, status: Status): State {
    if pid in s.statuses then s.(statuses := s.statuses[pid := status]) else s
  }

  predicate Enabled(s: State, a: Step) {
    match a
    case Main(m) => MainEnabled(s, m)
    case Update(_, status) => !status.Running?
    case Monitor(w) => MonitorEnabled(s, w)
    case Retriever(r) => RetrieverEnabled(s, r)
  }

  function Do(s: State, a: Step): State
    requires Enabled(s, a)
  {
    match a
    case Main(m) => DoMain(s, m)
    case Update(pid, status) => DoUpdate(s, pid, status)
    case Monitor(w) => DoMonitor(s, w)
    case Retriever(r) => DoRetriever(s, r)
  }

  /** A run is any list of steps each of which is enabled where it is taken. */
  predicate Legal(s: State, run: seq<Step>)
    decreases |run|
  {
    run == [] || (Enabled(s, run[0]) && Legal(Do(s, run[0]), run[1..]))
  }

  function After(s: State, run: seq<Step>): State
    requires Legal(s, run)
    decreases |run|
  {
    if run == [] then s else After(Do(s, run[0]), run[1..])
  }

  // ---------------------------------------------------------------- where a testcase is

  /** Pids whose testcase the monitor has not queued yet. */
  function Pending(s: State): map<Pid, Id> {
    if s.monitor.Pushed? then s.testcasePids - {s.monitor.pid} else s.testcasePids
  }

  predicate WithMain(s: State, p: Pid) {
    (s.main.Mapped? || s.main.StatusIn? || s.main.TimerIn?) && s.main.pid == p
  }

  /** Taken out of the table by get_terminated_processes, or being taken out. */
  predicate WithMonitor(s: State, p: Pid) {
    match s.monitor
    case Remove(_, term) => p in term
    case EraseTimer(_, _, term) => p in term
    case ErasePid(_, _, term) => p in term
    case Deliver(term) => p in term
    case Looked(pid, _, _, term) => p == pid || p in term
    case Pushed(_, term) => p in term
    case _ => false
  }

  predicate InTable(s: State, p: Pid) { p in s.allPids && !WithMonitor(s, p) }

  predicate WithRetriever(s: State, id: Id) {
    !s.retriever.PollReady? && !s.retriever.PollTimedOut? && s.retriever.id == id
  }

  function One(b: bool): nat { if b then 1 else 0 }

  ghost predicate Awaits(m: map<Pid, Id>, id: Id) {
    exists p :: p in m && m[p] == id
  }

  ghost predicate InMainsHand(s: State, id: Id) {
    exists p :: p in Pending(s) && Pending(s)[p] == id && WithMain(s, p)
  }

  ghost predicate InProcessTable(s: State, id: Id) {
    exists p :: p in Pending(s) && Pending(s)[p] == id && InTable(s, p)
  }

  ghost predicate InMonitorsHand(s: State, id: Id) {
    exists p :: p in Pending(s) && Pending(s)[p] == id && WithMonitor(s, p)
  }

  /** In how many places the testcase is: with main, in the process table, with the monitor, in each queue, with the
      retriever, counted, dropped. */
  ghost function Places(s: State, id: Id): nat {
    One(InMainsHand(s, id)) + One(InProcessTable(s, id)) + One(InMonitorsHand(s, id))
    + multiset(s.ready)[id] + multiset(s.timedOut)[id]
    + One(WithRetriever(s, id)) + One(id in s.done) + One(id in s.dropped)
  }

  /** The same with the first three places taken together. */
  ghost function Copies(s: State, id: Id): nat {
    One(Awaits(Pending(s), id))
    + multiset(s.ready)[id] + multiset(s.timedOut)[id]
    + One(WithRetriever(s, id)) + One(id in s.done) + One(id in s.dropped)
  }

  /** Main is between two generations: evolving, resetting scores or clearing. */
  predicate BetweenGenerations(s: State) {
    s.main.Evolve? || s.main.Reset? || s.main.ClearTable? || s.main.ClearSent? || s.main.ClearReceived? ||
    s.main.ClearCount?
  }

  /** Nothing of the generation is left anywhere; the monitor may still owe the unmapping of a queued pid. */
  predicate Quiet(s: State) {
    && Pending(s) == map[] && s.allPids == {} && s.statuses == map[]
    && s.ready == [] && s.timedOut == []
    && (s.retriever.PollReady? || s.retriever.PollTimedOut?)
    && s.done == s.launched && s.dropped == {}
  }

  // ---------------------------------------------------------------- invariant

  ghost predicate IdOk(s: State, id: Id) {
    Copies(s, id) == One(id in s.launched)
  }

  /** A pid not yet queued is in exactly one of three hands, and the process table knows what it tracks. */
  predicate PidOk(s: State, p: Pid) {
    && One(WithMain(s, p)) + One(InTable(s, p)) + One(WithMonitor(s, p)) == One(p in Pending(s))
    && (p in s.statuses ==> p in Pending(s))
    && (InTable(s, p) ==> p in s.statuses && p in s.timers)
    && (WithMain(s, p) ==> p !in s.allPids && (p in s.statuses) == !s.main.Mapped? && (s.main.TimerIn? ==> p in s.timers))
    && (match s.monitor
        case Scan(todo, term) =>
          ((p in todo || p in term) ==> p in s.allPids) && (p in term ==> p !in todo && !term[p].Running?)
        case Remove(todo, term) =>
          (p in todo ==> p in term) && (p in term ==> (p in todo) == (p in s.allPids) == (p in s.statuses) && !term[p].Running?)
        case EraseTimer(pid, todo, term) => MidRemoval(s, p, pid, todo, term)
        case ErasePid(pid, todo, term) => MidRemoval(s, p, pid, todo, term)
        case Deliver(term) => p in term ==> p !in s.allPids && p !in s.statuses && !term[p].Running?
        case Looked(pid, status, id, term) =>
          (p in term ==> p !in s.allPids && p !in s.statuses && !term[p].Running?)
          && (p == pid ==> p in s.testcasePids && s.testcasePids[p] == id && p !in s.allPids && p !in s.statuses && p !in term)
        case Pushed(pid, term) =>
          (p in term ==> p !in s.allPids && p !in s.statuses && !term[p].Running?)
          && (p == pid ==> p in s.testcasePids && p !in s.allPids && p !in term)
        case _ => true)
  }

  predicate MidRemoval(s: State, p: Pid, pid: Pid, todo: set<Pid>, term: map<Pid, Status>) {
    && (p in todo ==> p in term && p != pid)
    && (p == pid ==> p in term && p in s.allPids && p !in s.statuses)
    && (p in term && p != pid ==> (p in todo) == (p in s.allPids) == (p in s.statuses))
    && (p in term ==> !term[p].Running?)
  }

  ghost predicate IdsFresh(pids: map<Pid, Id>, currentId: Id, launched: set<Id>) {
    && (forall p :: p in pids ==> 1 <= pids[p] <= currentId)
    && (forall p, q :: p in pids && q in pids && p != q ==> pids[p] != pids[q])
    && (forall id :: id in launched ==> 1 <= id <= currentId)
  }

  function Left(s: State): nat {
    if s.main.Launch? || s.main.Mapped? || s.main.StatusIn? || s.main.TimerIn? then s.main.left else 0
  }

  predicate Tallied(s: State) {
    && s.processed == |s.done|
    && (s.main.ClearTable? ==> s.main.todo == {})
    && (if BetweenGenerations(s) then s.done == s.launched else s.toProcess == |s.launched| + Left(s))
    && |s.allPids| + One(s.main.Mapped? || s.main.StatusIn? || s.main.TimerIn?) <= s.cap
    && (s.main.WaitSent? ==> s.received)
  }

  ghost predicate Inv(s: State) {
    && (forall p :: PidOk(s, p))
    && (forall id :: IdOk(s, id))
    && IdsFresh(s.testcasePids, s.currentId, s.launched)
    && Tallied(s)
  }

  // ---- facts about each component

  lemma AwaitsAdd(m: map<Pid, Id>, p: Pid, v: Id, id: Id)
    requires p !in m
    ensures Awaits(m[p := v], id) == (Awaits(m, id) || id == v)
  {
    var m' := m[p := v];
    assert p in m' && m'[p] == v;
    if Awaits(m, id) { var q :| q in m && m[q] == id; assert q in m' && m'[q] == id; }
  }

  lemma AwaitsRemove(m: map<Pid, Id>, p: Pid, id: Id)
    requires p in m
    requires forall q, r :: q in m && r in m && q != r ==> m[q] != m[r]
    ensures Awaits(m - {p}, id) == (Awaits(m, id) && id != m[p])
  {
    if Awaits(m, id) && id != m[p] { var q :| q in m && m[q] == id; assert q in m - {p}; }
  }

  lemma PopCounts(q: seq<Id>, id: Id)
    requires q != []
    ensures multiset(q)[id] == multiset(q[1..])[id] + One(q[0] == id)
  {
    assert q == [q[0]] + q[1..];
  }

  // ---- pids

  lemma PidClear(s: State, a: MainStep, p: Pid)
    requires MainEnabled(s, a) && (BetweenGenerations(s) || s.main.WaitSent? || s.main.WaitProcessed?)
    requires PidOk(s, p) && (BetweenGenerations(s) ==> p !in Pending(s))
    ensures PidOk(DoMain(s, a), p)
  {
  }

  lemma PidLaunch(s: State, a: MainStep, p: Pid)
    requires MainEnabled(s, a) && !BetweenGenerations(s)
    requires PidOk(s, p)
    ensures PidOk(DoMain(s, a), p)
  {
  }

  lemma PidScan(s: State, a: MonitorStep, p: Pid)
    requires MonitorEnabled(s, a) && !s.monitor.Remove? && !s.monitor.EraseTimer? && !s.monitor.ErasePid?
    requires !s.monitor.Deliver? && !s.monitor.Looked? && !s.monitor.Pushed?
    requires PidOk(s, p)
    ensures PidOk(DoMonitor(s, a), p)
  {
  }

  lemma PidRemove(s: State, a: MonitorStep, p: Pid)
    requires MonitorEnabled(s, a) && (s.monitor.Remove? || s.monitor.EraseTimer? || s.monitor.ErasePid?)
    requires PidOk(s, p)
    ensures PidOk(DoMonitor(s, a), p)
  {
  }

  lemma PidDeliver(s: State, a: MonitorStep, p: Pid)
    requires MonitorEnabled(s, a) && s.monitor.Deliver?
    requires PidOk(s, p)
    requires forall q :: q in s.testcasePids ==> s.testcasePids[q] >= 1
    ensures PidOk(DoMonitor(s, a), p)
  {
  }

  lemma PidPush(s: State, a: MonitorStep, p: Pid)
    requires MonitorEnabled(s, a) && (s.monitor.Looked? || s.monitor.Pushed?)
    requires PidOk(s, p)
    ensures PidOk(DoMonitor(s, a), p)
  {
  }

  lemma PidRetriever(s: State, a: RetrieverStep, p: Pid)
    requires RetrieverEnabled(s, a)
    requires PidOk(s, p)
    ensures PidOk(DoRetriever(s, a), p)
  {
  }

  lemma PidUpdate(s: State, pid: Pid, status: Status, p: Pid)
    requires !status.Running? && PidOk(s, p)
    ensures PidOk(DoUpdate(s, pid, status), p)
  {
  }

  // ---- testcase ids

  lemma PushCounts(q: seq<Id>, x: Id, id: Id)
    ensures multiset(q + [x])[id] == multiset(q)[id] + One(x == id)
  {
  }

  lemma IdCall(s: State, a: MainStep, id: Id)
    requires MainEnabled(s, a) && a.CallSucceeds?
    requires IdOk(s, id) && (s.monitor.Pushed? ==> s.monitor.pid in s.testcasePids)
    requires forall i :: i in s.launched ==> i <= s.currentId
    ensures IdOk(DoMain(s, a), id)
  {
    assert Pending(DoMain(s, a)) == Pending(s)[a.pid := s.currentId + 1];
    AwaitsAdd(Pending(s), a.pid, s.currentId + 1, id);
  }

  predicate SameIds(s: State, t: State) {
    && Pending(t) == Pending(s) && t.ready == s.ready && t.timedOut == s.timedOut && t.retriever == s.retriever
    && t.done == s.done && t.dropped == s.dropped && t.launched == s.launched
  }

  lemma MainKeepsIds(s: State, a: MainStep)
    requires MainEnabled(s, a) && !a.CallSucceeds? && !a.ResetCount?
    ensures SameIds(s, DoMain(s, a))
  {
    assert DoMain(s, a).testcasePids == s.testcasePids && DoMain(s, a).monitor == s.monitor;
  }

  lemma MonitorKeepsQueues(s: State, a: MonitorStep)
    requires MonitorEnabled(s, a) && !a.Push?
    ensures var t := DoMonitor(s, a);
            && t.ready == s.ready && t.timedOut == s.timedOut && t.retriever == s.retriever
            && t.done == s.done && t.dropped == s.dropped && t.launched == s.launched && !t.monitor.Pushed?
            && (if a.Unmap? then t.testcasePids == s.testcasePids - {s.monitor.pid} else t.testcasePids == s.testcasePids)
  {
  }

  lemma MonitorKeepsIds(s: State, a: MonitorStep)
    requires MonitorEnabled(s, a) && !a.Push?
    ensures SameIds(s, DoMonitor(s, a))
  {
    MonitorKeepsQueues(s, a);
    hide DoMonitor;
  }

  lemma IdKept(s: State, t: State, id: Id)
    requires SameIds(s, t) && IdOk(s, id)
    ensures IdOk(t, id)
  {
  }

  lemma IdReset(s: State, a: MainStep, id: Id)
    requires MainEnabled(s, a) && a.ResetCount? && IdOk(s, id) && s.done == s.launched
    ensures IdOk(DoMain(s, a), id)
  {
    assert Pending(DoMain(s, a)) == Pending(s);
  }

  lemma PushFields(s: State, a: MonitorStep)
    requires MonitorEnabled(s, a) && a.Push?
    ensures var t, x := DoMonitor(s, a), s.monitor.id;
            && Pending(s) == s.testcasePids && Pending(t) == s.testcasePids - {s.monitor.pid} && t.retriever == s.retriever
            && t.launched == s.launched && t.done == s.done && t.dropped == s.dropped
            && (if s.monitor.status.TimedOut? then t.timedOut == s.timedOut + [x] && t.ready == s.ready
                else t.ready == s.ready + [x] && t.timedOut == s.timedOut)
  {
  }

  lemma IdPush(s: State, a: MonitorStep, id: Id)
    requires MonitorEnabled(s, a) && a.Push? && IdOk(s, id)
    requires Awaits(s.testcasePids - {s.monitor.pid}, id) == (Awaits(s.testcasePids, id) && id != s.monitor.id)
    requires Awaits(s.testcasePids, s.monitor.id)
    ensures IdOk(DoMonitor(s, a), id)
  {
    PushFields(s, a);
    hide DoMonitor, Pending, Awaits;
    PushCounts(s.timedOut, s.monitor.id, id);
    PushCounts(s.ready, s.monitor.id, id);
  }

  lemma IdPop(s: State, a: RetrieverStep, id: Id)
    requires RetrieverEnabled(s, a) && (a.PopReady? || a.PopTimedOut?)
    requires IdOk(s, id)
    ensures IdOk(DoRetriever(s, a), id)
  {
    assert Pending(DoRetriever(s, a)) == Pending(s);
    if a.PopReady? { PopCounts(s.ready, id); } else { PopCounts(s.timedOut, id); }
  }

  lemma IdRetriever(s: State, a: RetrieverStep, id: Id)
    requires RetrieverEnabled(s, a) && !a.PopReady? && !a.PopTimedOut?
    requires IdOk(s, id)
    ensures IdOk(DoRetriever(s, a), id)
  {
    assert Pending(DoRetriever(s, a)) == Pending(s);
  }

  // ---- counters

  lemma TallyMain(s: State, a: MainStep)
    requires MainEnabled(s, a) && Tallied(s)
    requires forall i :: i in s.launched ==> i <= s.currentId
    requires BetweenGenerations(s) ==> s.allPids == {}
    requires s.main.WaitProcessed? ==> s.done <= s.launched
    ensures Tallied(DoMain(s, a))
  {
    if BetweenGenerations(s) || s.main.WaitSent? || s.main.WaitProcessed? {
      if a.LeaveWait? { SubsetOfSameSize(s.done, s.launched); }
      TallyClear(s, a);
    } else {
      TallyLaunch(s, a);
    }
  }

  lemma TallyClear(s: State, a: MainStep)
    requires MainEnabled(s, a) && Tallied(s) && (BetweenGenerations(s) || s.main.WaitSent? || s.main.WaitProcessed?)
    requires BetweenGenerations(s) ==> s.allPids == {}
    requires a.LeaveWait? ==> s.done == s.launched
    ensures Tallied(DoMain(s, a))
  {
  }

  lemma TallyLaunch(s: State, a: MainStep)
    requires MainEnabled(s, a) && Tallied(s) && !BetweenGenerations(s) && !s.main.WaitSent? && !s.main.WaitProcessed?
    requires forall i :: i in s.launched ==> i <= s.currentId
    ensures Tallied(DoMain(s, a))
  {
  }

  lemma SubsetOfSameSize(a: set<Id>, b: set<Id>)
    requires a <= b && |b| <= |a|
    ensures a == b
  {
    assert b == a + (b - a);
  }

  /** What the monitor never touches. */
  predicate MonitorFrame(s: State, t: State) {
    && t.cap == s.cap && t.main == s.main && t.received == s.received && t.toProcess == s.toProcess && t.currentId == s.currentId
    && t.retriever == s.retriever && t.processed == s.processed
    && t.launched == s.launched && t.done == s.done && t.dropped == s.dropped
    && t.allPids <= s.allPids
  }

  lemma MonitorKeepsFrame(s: State, a: MonitorStep)
    requires MonitorEnabled(s, a)
    ensures MonitorFrame(s, DoMonitor(s, a))
  {
  }

  lemma TallyMonitor(s: State, t: State)
    requires MonitorFrame(s, t) && Tallied(s)
    ensures Tallied(t)
  {
    SmallerSubset(t.allPids, s.allPids);
  }

  lemma TallyRetriever(s: State, a: RetrieverStep)
    requires RetrieverEnabled(s, a) && Tallied(s)
    requires forall id :: WithRetriever(s, id) ==> id !in s.done
    requires BetweenGenerations(s) ==> s.retriever.PollReady? || s.retriever.PollTimedOut?
    ensures Tallied(DoRetriever(s, a))
  {
  }

  lemma FreshMain(s: State, a: MainStep)
    requires MainEnabled(s, a) && IdsFresh(s.testcasePids, s.currentId, s.launched)
    ensures IdsFresh(DoMain(s, a).testcasePids, DoMain(s, a).currentId, DoMain(s, a).launched)
  {
    if !a.CallFails? && !a.CallSucceeds? && !a.ResetCount? {
      var t := DoMain(s, a);
      assert t.testcasePids == s.testcasePids && t.currentId == s.currentId && t.launched == s.launched;
    }
  }

  /** Between generations nothing is left anywhere. */
  lemma QuietBetween(s: State)
    requires Inv(s) && BetweenGenerations(s)
    ensures Quiet(s)
  {
    forall id
      ensures !Awaits(Pending(s), id) && multiset(s.ready)[id] == 0 && multiset(s.timedOut)[id] == 0
      ensures !WithRetriever(s, id) && id !in s.dropped
    {
      assert IdOk(s, id);
    }
    forall p ensures p !in Pending(s) && p !in s.allPids && p !in s.statuses {
      assert PidOk(s, p);
      assert p in Pending(s) ==> Awaits(Pending(s), Pending(s)[p]);
    }
    assert multiset(s.ready) == multiset{} && multiset(s.timedOut) == multiset{};
    assert |s.ready| == |multiset(s.ready)| && |s.timedOut| == |multiset(s.timedOut)|;
    assert s.retriever.PollReady? || s.retriever.PollTimedOut? || WithRetriever(s, s.retriever.id);
  }

  lemma CountedWereLaunched(s: State)
    requires Inv(s)
    ensures s.done <= s.launched && s.dropped <= s.launched && s.done !! s.dropped
  {
    forall id ensures (id in s.done || id in s.dropped ==> id in s.launched) && !(id in s.done && id in s.dropped) {
      assert IdOk(s, id);
    }
  }

  // ---- the invariant over steps and runs

  lemma InvMain(s: State, a: MainStep)
    requires Inv(s) && MainEnabled(s, a)
    ensures Inv(DoMain(s, a))
  {
    if BetweenGenerations(s) { QuietBetween(s); }
    forall p ensures PidOk(DoMain(s, a), p) {
      assert PidOk(s, p);
      if BetweenGenerations(s) || s.main.WaitSent? || s.main.WaitProcessed? { PidClear(s, a, p); } else { PidLaunch(s, a, p); }
    }
    assert s.monitor.Pushed? ==> PidOk(s, s.monitor.pid);
    if !a.CallSucceeds? && !a.ResetCount? { MainKeepsIds(s, a); }
    forall id ensures IdOk(DoMain(s, a), id) {
      assert IdOk(s, id);
      if a.CallSucceeds? { IdCall(s, a, id); } else if a.ResetCount? { IdReset(s, a, id); } else { IdKept(s, DoMain(s, a), id); }
    }
    FreshMain(s, a);
    CountedWereLaunched(s);
    TallyMain(s, a);
  }

  lemma InvMonitor(s: State, a: MonitorStep)
    requires Inv(s) && MonitorEnabled(s, a)
    ensures Inv(DoMonitor(s, a))
  {
    forall p ensures PidOk(DoMonitor(s, a), p) {
      assert PidOk(s, p);
      if s.monitor.Remove? || s.monitor.EraseTimer? || s.monitor.ErasePid? { PidRemove(s, a, p); }
      else if s.monitor.Deliver? { PidDeliver(s, a, p); }
      else if s.monitor.Looked? || s.monitor.Pushed? { PidPush(s, a, p); }
      else { PidScan(s, a, p); }
    }
    if a.Push? { assert PidOk(s, s.monitor.pid); } else { MonitorKeepsIds(s, a); }
    forall id ensures IdOk(DoMonitor(s, a), id) {
      assert IdOk(s, id);
      if a.Push? {
        AwaitsRemove(s.testcasePids, s.monitor.pid, id);
        IdPush(s, a, id);
      } else {
        IdKept(s, DoMonitor(s, a), id);
      }
    }
    MonitorKeepsFrame(s, a);
    TallyMonitor(s, DoMonitor(s, a));
  }

  lemma InvRetriever(s: State, a: RetrieverStep)
    requires Inv(s) && RetrieverEnabled(s, a)
    ensures Inv(DoRetriever(s, a))
  {
    forall p ensures PidOk(DoRetriever(s, a), p) {
      assert PidOk(s, p);
      PidRetriever(s, a, p);
    }
    forall id ensures IdOk(DoRetriever(s, a), id) && (WithRetriever(s, id) ==> id !in s.done) {
      assert IdOk(s, id);
      if a.PopReady? || a.PopTimedOut? { IdPop(s, a, id); } else { IdRetriever(s, a, id); }
    }
    if BetweenGenerations(s) { QuietBetween(s); }
    TallyRetriever(s, a);
  }

  lemma InvUpdate(s: State, pid: Pid, status: Status)
    requires Inv(s) && !status.Running?
    ensures Inv(DoUpdate(s, pid, status))
  {
    var t := DoUpdate(s, pid, status);
    forall p ensures PidOk(t, p) {
      assert PidOk(s, p);
      PidUpdate(s, pid, status, p);
    }
    forall id ensures IdOk(t, id) {
      assert IdOk(s, id);
      IdKept(s, t, id);
    }
  }

  lemma InvStep(s: State, a: Step)
    requires Inv(s) && Enabled(s, a)
    ensures Inv(Do(s, a))
  {
    match a
    case Main(m) => InvMain(s, m);
    case Update(pid, status) => InvUpdate(s, pid, status);
    case Monitor(w) => InvMonitor(s, w);
    case Retriever(r) => InvRetriever(s, r);
  }

  lemma {:induction false} InvRun(s: State, run: seq<Step>)
    requires Inv(s) && Legal(s, run)
    ensures Inv(After(s, run))
    decreases |run|
  {
    if run != [] {
      InvStep(s, run[0]);
      InvRun(Do(s, run[0]), run[1..]);
    }
  }

  lemma InvInit(cap: nat, received: bool, sent: bool)
    ensures Inv(Init(cap, received, sent))
  {
  }

  // ---------------------------------------------------------------- main results

  /** A pid that is mapped and not yet queued is with exactly one of main, the process table and the monitor, and no
      other pid is with any. */
  lemma EachPidInOneHand(cap: nat, received: bool, sent: bool, run: seq<Step>, p: Pid)
    requires Legal(Init(cap, received, sent), run)
    ensures var s := After(Init(cap, received, sent), run);
            One(WithMain(s, p)) + One(InTable(s, p)) + One(WithMonitor(s, p)) == One(p in Pending(s))
  {
    InvInit(cap, received, sent);
    InvRun(Init(cap, received, sent), run);
    assert PidOk(After(Init(cap, received, sent), run), p);
  }

  /** Mapped pids carry different testcases, so the one pid that carries this one tells where it is. */
  lemma PlacesApart(s: State, id: Id)
    requires Inv(s)
    ensures One(InMainsHand(s, id)) + One(InProcessTable(s, id)) + One(InMonitorsHand(s, id)) == One(Awaits(Pending(s), id))
  {
    if Awaits(Pending(s), id) {
      var p :| p in Pending(s) && Pending(s)[p] == id;
      assert PidOk(s, p);
      assert forall q :: q in Pending(s) && Pending(s)[q] == id ==> q == p;
    }
  }

  /** In every interleaving a launched testcase is in exactly one place, and nothing else is anywhere; the counter
      counts each testcase once. */
  lemma EachTestcaseInOnePlace(cap: nat, received: bool, sent: bool, run: seq<Step>, id: Id)
    requires Legal(Init(cap, received, sent), run)
    ensures var s := After(Init(cap, received, sent), run);
            Places(s, id) == (if id in s.launched then 1 else 0) && s.processed == |s.done|
  {
    InvInit(cap, received, sent);
    InvRun(Init(cap, received, sent), run);
    assert IdOk(After(Init(cap, received, sent), run), id);
    PlacesApart(After(Init(cap, received, sent), run), id);
  }

  /** Main never tracks more processes than max-num-processes, and every tracked one can still be found. */
  lemma TableBounded(cap: nat, received: bool, sent: bool, run: seq<Step>, pid: Pid)
    requires Legal(Init(cap, received, sent), run)
    ensures var s := After(Init(cap, received, sent), run);
            |s.allPids| <= cap && (InTable(s, pid) ==> pid in s.statuses && pid in s.timers && pid in s.testcasePids)
  {
    InvInit(cap, received, sent);
    InvRun(Init(cap, received, sent), run);
    CapKept(Init(cap, received, sent), run);
    assert PidOk(After(Init(cap, received, sent), run), pid);
  }

  lemma {:induction false} CapKept(s: State, run: seq<Step>)
    requires Legal(s, run)
    ensures After(s, run).cap == s.cap
    decreases |run|
  {
    if run != [] { CapKept(Do(s, run[0]), run[1..]); }
  }

  /** Over any number of generations: while main evolves, resets or clears, no testcase is left in any
      table, hand or queue, so no trace is being added. */
  lemma GenerationBarrier(cap: nat, received: bool, sent: bool, run: seq<Step>)
    requires Legal(Init(cap, received, sent), run)
    ensures var s := After(Init(cap, received, sent), run); BetweenGenerations(s) ==> Quiet(s) && !s.retriever.Adding?
  {
    InvInit(cap, received, sent);
    InvRun(Init(cap, received, sent), run);
    if BetweenGenerations(After(Init(cap, received, sent), run)) { QuietBetween(After(Init(cap, received, sent), run)); }
  }

  /** The counter is an exact barrier: main can leave its last wait if and only if every testcase that was
      launched has been counted. */
  lemma CounterIsExact(cap: nat, received: bool, sent: bool, run: seq<Step>)
    requires Legal(Init(cap, received, sent), run)
    ensures var s := After(Init(cap, received, sent), run);
            MainEnabled(s, LeaveWait) <==> s.main.WaitProcessed? && s.done == s.launched
  {
    InvInit(cap, received, sent);
    InvRun(Init(cap, received, sent), run);
    var s := After(Init(cap, received, sent), run);
    CountedWereLaunched(s);
    if s.main.WaitProcessed? && s.processed >= s.toProcess { SubsetOfSameSize(s.done, s.launched); }
  }

  lemma FinalStays(s: State, a: Step, pid: Pid)
    requires Enabled(s, a)
    requires pid in s.statuses && !s.statuses[pid].Running? && pid in Do(s, a).statuses
    ensures !Do(s, a).statuses[pid].Running?
  {
    match a
    case Main(m) => MainKeepsStatus(s, m, pid);
    case Monitor(w) => MonitorKeepsStatus(s, w, pid);
    case _ =>
  }

  predicate StaysTracked(s: State, run: seq<Step>, pid: Pid)
    requires Legal(s, run)
    decreases |run|
  {
    pid in s.statuses && (run == [] || StaysTracked(Do(s, run[0]), run[1..], pid))
  }

  /** Over every run a final status never becomes Running again, as long as the pid stays tracked. */
  lemma {:induction false} NeverRunningAgain(s: State, run: seq<Step>, pid: Pid)
    requires Legal(s, run) && StaysTracked(s, run, pid) && !s.statuses[pid].Running?
    ensures pid in After(s, run).statuses && !After(s, run).statuses[pid].Running?
    decreases |run|
  {
    if run != [] {
      FinalStays(s, run[0], pid);
      NeverRunningAgain(Do(s, run[0]), run[1..], pid);
    }
  }

  /** The status that the watcher gave a pid last, if it gave any. */
  function LastGiven(run: seq<Step>, pid: Pid, was: Status): Status
    decreases |run|
  {
    if run == [] then was
    else LastGiven(run[1..], pid, if run[0].Update? && run[0].pid == pid then run[0].status else was)
  }

  /** Over every run, as long as a pid stays tracked its status is the one the watcher gave it last. */
  lemma {:induction false} StatusIsLastGiven(s: State, run: seq<Step>, pid: Pid)
    requires Legal(s, run) && StaysTracked(s, run, pid)
    ensures pid in After(s, run).statuses && After(s, run).statuses[pid] == LastGiven(run, pid, s.statuses[pid])
    decreases |run|
  {
    if run != [] {
      match run[0] {
        case Main(m) => MainKeepsStatus(s, m, pid);
        case Monitor(w) => MonitorKeepsStatus(s, w, pid);
        case _ =>
      }
      StatusIsLastGiven(Do(s, run[0]), run[1..], pid);
    }
  }

  lemma MainKeepsStatus(s: State, a: MainStep, pid: Pid)
    requires MainEnabled(s, a) && pid in s.statuses && pid in DoMain(s, a).statuses
    ensures DoMain(s, a).statuses[pid] == s.statuses[pid]
  {
  }

  lemma MonitorKeepsStatus(s: State, a: MonitorStep, pid: Pid)
    requires MonitorEnabled(s, a) && pid in s.statuses && pid in DoMonitor(s, a).statuses
    ensures DoMonitor(s, a).statuses[pid] == s.statuses[pid]
  {
  }

  lemma DroppedStays(s: State, a: Step, lost: Id)
    requires Inv(s) && Enabled(s, a) && !BetweenGenerations(s) && lost in s.dropped
    ensures !BetweenGenerations(Do(s, a)) && lost in Do(s, a).dropped
  {
    CountedWereLaunched(s);
    SmallerSubset(s.done, s.launched - {lost});
    match a
    case Main(_) =>
    case Monitor(w) => MonitorKeepsFrame(s, w);
    case Retriever(r) => RetrieverKeepsDropped(s, r);
    case Update(_, _) =>
  }

  lemma RetrieverKeepsDropped(s: State, a: RetrieverStep)
    requires RetrieverEnabled(s, a)
    ensures DoRetriever(s, a).main == s.main && s.dropped <= DoRetriever(s, a).dropped
  {
  }

  lemma {:induction false} DroppedBlocks(s: State, run: seq<Step>, lost: Id)
    requires Inv(s) && Legal(s, run) && !BetweenGenerations(s) && lost in s.dropped
    ensures !BetweenGenerations(After(s, run)) && !MainEnabled(After(s, run), LeaveWait)
    decreases |run|
  {
    if run == [] {
      CountedWereLaunched(s);
      SmallerSubset(s.done, s.launched - {lost});
    } else {
      InvStep(s, run[0]);
      DroppedStays(s, run[0], lost);
      DroppedBlocks(Do(s, run[0]), run[1..], lost);
    }
  }

  /** One dropped trace blocks the loop for good: whatever the threads do next, the generation does not end. */
  lemma DroppedBlocksForever(cap: nat, received: bool, sent: bool, run: seq<Step>, more: seq<Step>)
    requires Legal(Init(cap, received, sent), run) && After(Init(cap, received, sent), run).dropped != {}
    requires Legal(After(Init(cap, received, sent), run), more)
    ensures var t := After(After(Init(cap, received, sent), run), more); !BetweenGenerations(t) && !MainEnabled(t, LeaveWait)
  {
    InvInit(cap, received, sent);
    InvRun(Init(cap, received, sent), run);
    var s := After(Init(cap, received, sent), run);
    if BetweenGenerations(s) { QuietBetween(s); }
    var lost :| lost in s.dropped;
    DroppedBlocks(s, more, lost);
  }

  // ---- which queue a testcase goes through, and whose trace is added

  /** The monitor holds the pid as one that timed out. */
  predicate HeldLate(s: State, p: Pid) {
    match s.monitor
    case Scan(_, term) => p in term && term[p].TimedOut?
    case Remove(_, term) => p in term && term[p].TimedOut?
    case EraseTimer(_, _, term) => p in term && term[p].TimedOut?
    case ErasePid(_, _, term) => p in term && term[p].TimedOut?
    case Deliver(term) => p in term && term[p].TimedOut?
    case Looked(pid, status, _, term) => if p == pid then status.TimedOut? else p in term && term[p].TimedOut?
    case Pushed(_, term) => p in term && term[p].TimedOut?
    case _ => false
  }

  predicate PidRouted(s: State, p: Pid) {
    p in Pending(s) ==> Pending(s)[p] !in s.traced && (Pending(s)[p] in s.late <==> HeldLate(s, p))
  }

  predicate IdRouted(s: State, id: Id) {
    && (id in s.timedOut || s.retriever == CountTimedOut(id) ==> id in s.late && id !in s.traced)
    && (id in s.ready || s.retriever == Process(id) || s.retriever == Adding(id) || id in s.dropped ==>
          id !in s.late && id !in s.traced)
    && (s.retriever == Count(id) ==> id !in s.late && id in s.traced)
    && (id in s.done ==> (id in s.traced <==> id !in s.late))
    && (id in s.traced ==> id in s.done || s.retriever == Count(id))
    && (id in s.late ==> id in s.launched)
  }

  ghost predicate Routed(s: State) {
    (forall p :: PidRouted(s, p)) && (forall id :: IdRouted(s, id))
  }

  lemma AwaitedIsNowhereElse(s: State, p: Pid)
    requires Inv(s) && p in Pending(s)
    ensures var id := Pending(s)[p];
            && id !in s.ready && id !in s.timedOut && !WithRetriever(s, id) && id !in s.done && id !in s.dropped
            && id in s.launched
  {
    var id := Pending(s)[p];
    assert Awaits(Pending(s), id) && IdOk(s, id);
  }

  lemma NewIdUnknown(s: State)
    requires Inv(s) && Routed(s)
    ensures s.currentId + 1 !in s.late && s.currentId + 1 !in s.traced
  {
    assert IdOk(s, s.currentId + 1) && IdRouted(s, s.currentId + 1);
  }

  /** What decides the routes, apart from the monitor. */
  predicate SameRoutes(s: State, t: State) {
    && Pending(t) == Pending(s) && t.ready == s.ready && t.timedOut == s.timedOut && t.retriever == s.retriever
    && t.done == s.done && t.dropped == s.dropped && t.launched == s.launched && t.late == s.late && t.traced == s.traced
  }

  lemma RoutesKept(s: State, t: State)
    requires Routed(s) && SameRoutes(s, t) && forall p :: p in Pending(s) ==> HeldLate(t, p) == HeldLate(s, p)
    ensures Routed(t)
  {
    hide Pending, HeldLate;
    forall p ensures PidRouted(t, p) { assert PidRouted(s, p); }
    forall id ensures IdRouted(t, id) { assert IdRouted(s, id); }
  }

  lemma RoutedCall(s: State, a: MainStep)
    requires Inv(s) && Routed(s) && MainEnabled(s, a) && a.CallSucceeds?
    ensures Routed(DoMain(s, a))
  {
    var t := DoMain(s, a);
    NewIdUnknown(s);
    forall p ensures PidRouted(t, p) { assert PidRouted(s, p) && PidOk(s, p); }
    forall id ensures IdRouted(t, id) { assert IdRouted(s, id); }
  }

  lemma RoutedReset(s: State, a: MainStep)
    requires Inv(s) && MainEnabled(s, a) && a.ResetCount?
    ensures Routed(DoMain(s, a))
  {
    QuietBetween(s);
    assert Pending(DoMain(s, a)) == Pending(s);
    hide Inv, Pending, HeldLate;
  }

  lemma RoutedMain(s: State, a: MainStep)
    requires Inv(s) && Routed(s) && MainEnabled(s, a)
    ensures Routed(DoMain(s, a))
  {
    if a.CallSucceeds? {
      RoutedCall(s, a);
    } else if a.ResetCount? {
      RoutedReset(s, a);
    } else {
      MainKeepsIds(s, a);
      assert DoMain(s, a).late == s.late && DoMain(s, a).traced == s.traced && DoMain(s, a).monitor == s.monitor;
      hide DoMain, Pending;
      RoutesKept(s, DoMain(s, a));
    }
  }

  lemma RoutedScan(s: State, a: MonitorStep)
    requires Inv(s) && Routed(s) && MonitorEnabled(s, a) && a.ScanOne?
    ensures Routed(DoMonitor(s, a))
  {
    var t := DoMonitor(s, a);
    assert PidOk(s, a.pid) && PidRouted(s, a.pid);
    AwaitedIsNowhereElse(s, a.pid);
    forall p ensures PidRouted(t, p) { assert PidRouted(s, p); }
    assert forall id :: id in t.late <==> id in s.late || (id == s.testcasePids[a.pid] && t.late != s.late);
    hide DoMonitor, Inv, PidOk, Pending;
    forall id ensures IdRouted(t, id) { assert IdRouted(s, id); }
  }

  lemma RoutedPush(s: State, a: MonitorStep)
    requires Inv(s) && Routed(s) && MonitorEnabled(s, a) && a.Push?
    ensures Routed(DoMonitor(s, a))
  {
    var t := DoMonitor(s, a);
    assert PidOk(s, s.monitor.pid) && PidRouted(s, s.monitor.pid);
    AwaitedIsNowhereElse(s, s.monitor.pid);
    forall p ensures PidRouted(t, p) { assert PidRouted(s, p); }
    forall id ensures IdRouted(t, id) { assert IdRouted(s, id); }
  }

  lemma MonitorKeepsHeld(s: State, a: MonitorStep, p: Pid)
    requires MonitorEnabled(s, a) && !a.Push? && !a.ScanOne? && PidOk(s, p) && p in Pending(s)
    requires forall q :: q in s.testcasePids ==> s.testcasePids[q] >= 1
    ensures HeldLate(DoMonitor(s, a), p) == HeldLate(s, p)
  {
  }

  lemma RoutedMonitor(s: State, a: MonitorStep)
    requires Inv(s) && Routed(s) && MonitorEnabled(s, a)
    ensures Routed(DoMonitor(s, a))
  {
    if a.ScanOne? {
      RoutedScan(s, a);
    } else if a.Push? {
      RoutedPush(s, a);
    } else {
      MonitorKeepsIds(s, a);
      assert DoMonitor(s, a).late == s.late && DoMonitor(s, a).traced == s.traced;
      forall p | p in Pending(s) ensures HeldLate(DoMonitor(s, a), p) == HeldLate(s, p) {
        assert PidOk(s, p);
        MonitorKeepsHeld(s, a, p);
      }
      hide DoMonitor, Pending, HeldLate;
      RoutesKept(s, DoMonitor(s, a));
    }
  }

  lemma RoutedRetriever(s: State, a: RetrieverStep)
    requires Inv(s) && Routed(s) && RetrieverEnabled(s, a)
    ensures Routed(DoRetriever(s, a))
  {
    var t := DoRetriever(s, a);
    RetrieverKeeps(s, a);
    assert t.monitor == s.monitor;
    forall p ensures PidRouted(t, p) {
      assert PidRouted(s, p);
      if p in Pending(s) { AwaitedIsNowhereElse(s, p); }
    }
    forall id ensures IdRouted(t, id) {
      assert IdRouted(s, id) && IdOk(s, id);
      if a.PopReady? || a.PopTimedOut? { RoutedPop(s, a, id); } else { RoutedOn(s, a, id); }
    }
  }

  lemma RoutedPop(s: State, a: RetrieverStep, id: Id)
    requires RetrieverEnabled(s, a) && (a.PopReady? || a.PopTimedOut?) && IdRouted(s, id)
    ensures IdRouted(DoRetriever(s, a), id)
  {
  }

  lemma RoutedOn(s: State, a: RetrieverStep, id: Id)
    requires RetrieverEnabled(s, a) && !a.PopReady? && !a.PopTimedOut? && IdRouted(s, id)
    requires WithRetriever(s, id) ==> id !in s.ready && id !in s.timedOut && id !in s.done && id !in s.dropped
    ensures IdRouted(DoRetriever(s, a), id)
  {
  }

  lemma RoutedStep(s: State, a: Step)
    requires Inv(s) && Routed(s) && Enabled(s, a)
    ensures Routed(Do(s, a))
  {
    match a
    case Main(m) => RoutedMain(s, m);
    case Update(pid, status) => RoutesKept(s, DoUpdate(s, pid, status));
    case Monitor(w) => RoutedMonitor(s, w);
    case Retriever(r) => RoutedRetriever(s, r);
  }

  lemma {:induction false} RoutedRun(s: State, run: seq<Step>)
    requires Inv(s) && Routed(s) && Legal(s, run)
    ensures Routed(After(s, run))
    decreases |run|
  {
    if run != [] {
      InvStep(s, run[0]);
      RoutedStep(s, run[0]);
      RoutedRun(Do(s, run[0]), run[1..]);
    }
  }

  /** In every interleaving: a testcase goes through the queue of timed-out ones exactly when its process had timed out
      when the monitor found it finished; a counted testcase has had its trace added exactly when it had not. */
  lemma RoutedByStatus(cap: nat, received: bool, sent: bool, run: seq<Step>, id: Id)
    requires Legal(Init(cap, received, sent), run)
    ensures var s := After(Init(cap, received, sent), run);
            && (id in s.timedOut || s.retriever == CountTimedOut(id) ==> id in s.late)
            && (id in s.ready || s.retriever == Process(id) || s.retriever == Adding(id) ==> id !in s.late)
            && (id in s.done ==> (id in s.traced <==> id !in s.late))
  {
    var s := After(Init(cap, received, sent), run);
    InvInit(cap, received, sent);
    RoutedRun(Init(cap, received, sent), run);
    assert IdRouted(s, id);
  }

  /** Between generations the knowledge has taken in the traces of exactly the launched testcases that had not timed
      out. */
  lemma KnowledgeComplete(cap: nat, received: bool, sent: bool, run: seq<Step>)
    requires Legal(Init(cap, received, sent), run)
    ensures var s := After(Init(cap, received, sent), run);
            BetweenGenerations(s) ==> s.late <= s.launched && s.traced == s.launched - s.late
  {
    var s := After(Init(cap, received, sent), run);
    InvInit(cap, received, sent);
    InvRun(Init(cap, received, sent), run);
    RoutedRun(Init(cap, received, sent), run);
    if BetweenGenerations(s) {
      QuietBetween(s);
      forall id ensures (id in s.traced <==> id in s.launched - s.late) && (id in s.late ==> id in s.launched) {
        assert IdRouted(s, id);
      }
    }
  }

  // ---- why the barrier cannot rest on the `sent` flag

  lemma Steps(s: State, a: Step, rest: seq<Step>)
    requires Enabled(s, a) && Legal(Do(s, a), rest)
    ensures Legal(s, [a] + rest) && After(s, [a] + rest) == After(Do(s, a), rest)
  {
    assert ([a] + rest)[1..] == rest;
  }

  lemma {:induction false} Compose(s: State, a: seq<Step>, b: seq<Step>)
    requires Legal(s, a) && Legal(After(s, a), b)
    ensures Legal(s, a + b) && After(s, a + b) == After(After(s, a), b)
    decreases |a|
  {
    if a == [] {
      assert a + b == b;
    } else {
      Compose(Do(s, a[0]), a[1..], b);
      assert a + b == [a[0]] + (a[1..] + b);
      Steps(s, a[0], a[1..] + b);
    }
  }

  function EvolveSteps(): seq<Step> {
    [Main(EndEvolve), Main(EndReset), Main(EndClear)]
  }

  function ClearSteps(): seq<Step> {
    [Main(StoreSent), Main(StoreReceived), Main(ResetCount(1))]
  }

  function CallSteps(pid: Pid): seq<Step> {
    [Main(CallSucceeds(pid)), Main(InsertStatus)]
  }

  function InsertSteps(): seq<Step> {
    [Main(InsertTimer), Main(InsertPid), Main(AllCalled)]
  }

  function FlagSteps(): seq<Step> {
    [Monitor(ReadReceived), Monitor(ReadSent), Monitor(StoreAllSent), Main(SeeSent)]
  }

  lemma TwoSteps(s: State, a: Step, b: Step)
    requires Enabled(s, a) && Enabled(Do(s, a), b)
    ensures Legal(s, [a, b]) && After(s, [a, b]) == Do(Do(s, a), b)
  {
    hide Enabled, Do;
    Steps(Do(s, a), b, []);
    assert [b] + [] == [b];
    Steps(s, a, [b]);
    assert [a] + [b] == [a, b];
  }

  lemma ThreeSteps(s: State, a: Step, b: Step, c: Step)
    requires Enabled(s, a) && Enabled(Do(s, a), b) && Enabled(Do(Do(s, a), b), c)
    ensures Legal(s, [a, b, c]) && After(s, [a, b, c]) == Do(Do(Do(s, a), b), c)
  {
    hide Enabled, Do;
    TwoSteps(Do(s, a), b, c);
    Steps(s, a, [b, c]);
    assert [a] + [b, c] == [a, b, c];
  }

  lemma EvolveRun(s: State)
    requires s.main == Evolve && s.allPids == {}
    ensures Legal(s, EvolveSteps()) && After(s, EvolveSteps()) == s.(main := ClearSent)
  {
    assert DoMain(s, EndEvolve) == s.(main := Reset);
    assert DoMain(s.(main := Reset), EndReset) == s.(main := ClearTable({}));
    ThreeSteps(s, Main(EndEvolve), Main(EndReset), Main(EndClear));
  }

  lemma ClearRun(s: State)
    requires s.main == ClearSent && s.processed == 0 && s.launched == s.done == s.dropped == s.late == s.traced == {}
    ensures Legal(s, ClearSteps())
    ensures After(s, ClearSteps()) == s.(main := Launch(1), toProcess := 1, received := false, sent := false)
  {
    assert DoMain(s, StoreSent) == s.(sent := false, main := ClearReceived);
    assert DoMain(s.(sent := false, main := ClearReceived), StoreReceived) ==
           s.(sent := false, received := false, main := ClearCount);
    ThreeSteps(s, Main(StoreSent), Main(StoreReceived), Main(ResetCount(1)));
  }

  lemma CallRun(s: State, pid: Pid)
    requires s.cap >= 1 && s == Init(s.cap, false, false).(monitor := SawEmpty, main := Launch(1), toProcess := 1)
    ensures Legal(s, CallSteps(pid))
    ensures After(s, CallSteps(pid)) ==
            s.(main := StatusIn(0, pid), currentId := 1, testcasePids := map[pid := 1], launched := {1}, statuses := map[pid := Running])
  {
    TwoSteps(s, Main(CallSucceeds(pid)), Main(InsertStatus));
  }

  lemma InsertRun(s: State)
    requires s.main.StatusIn? && s.main.left == 0
    ensures Legal(s, InsertSteps())
    ensures After(s, InsertSteps()) ==
            s.(main := WaitSent, received := true, timers := s.timers + {s.main.pid}, allPids := s.allPids + {s.main.pid})
  {
    ThreeSteps(s, Main(InsertTimer), Main(InsertPid), Main(AllCalled));
  }

  lemma FlagRun(s: State)
    requires s.monitor == SawEmpty && s.main.WaitSent? && s.received && !s.sent
    ensures Legal(s, FlagSteps()) && After(s, FlagSteps()) == s.(monitor := Top, sent := true, main := WaitProcessed)
  {
    var t := s.(monitor := SawReceived);
    assert DoMonitor(s, ReadReceived) == t && DoMonitor(t, ReadSent) == s.(monitor := SetSent);
    ThreeSteps(t, Monitor(ReadSent), Monitor(StoreAllSent), Main(SeeSent));
    Steps(s, Monitor(ReadReceived), [Monitor(ReadSent), Monitor(StoreAllSent), Main(SeeSent)]);
    assert FlagSteps() == [Monitor(ReadReceived)] + [Monitor(ReadSent), Monitor(StoreAllSent), Main(SeeSent)];
  }

  /** The monitor finds the table empty before anything is launched and reads the flags only later: main
      gets past its wait for "all testcases sent" while the process is still running in the table. */
  lemma SentFlagIsNoBarrier(cap: nat, received: bool, sent: bool, pid: Pid)
    requires cap >= 1
    ensures var run := [Monitor(TestEmpty)] + (EvolveSteps() + (ClearSteps() + (CallSteps(pid) + (InsertSteps() + FlagSteps()))));
            && Legal(Init(cap, received, sent), run)
            && var s := After(Init(cap, received, sent), run);
               s.main.WaitProcessed? && InTable(s, pid) && s.statuses == map[pid := Running]
               && s.ready == [] && s.timedOut == []
  {
    var s1 := Do(Init(cap, received, sent), Monitor(TestEmpty));
    EvolveRun(s1);
    var s2 := After(s1, EvolveSteps());
    ClearRun(s2);
    var s3 := After(s2, ClearSteps());
    CallRun(s3, pid);
    var s4 := After(s3, CallSteps(pid));
    InsertRun(s4);
    var s5 := After(s4, InsertSteps());
    FlagRun(s5);
    Compose(s4, InsertSteps(), FlagSteps());
    Compose(s3, CallSteps(pid), InsertSteps() + FlagSteps());
    Compose(s2, ClearSteps(), CallSteps(pid) + (InsertSteps() + FlagSteps()));
    Compose(s1, EvolveSteps(), ClearSteps() + (CallSteps(pid) + (InsertSteps() + FlagSteps())));
    Steps(Init(cap, received, sent), Monitor(TestEmpty), EvolveSteps() + (ClearSteps() + (CallSteps(pid) + (InsertSteps() + FlagSteps()))));
  }

  // ---- when the `sent` flag is sound, and when the loop goes on

  predicate NoMain(run: seq<Step>) {
    forall i :: 0 <= i < |run| ==> !run[i].Main?
  }

  /** Main may trust the flag: whenever it can pass it, every launched testcase has been queued. */
  ghost predicate FlagSound(t: State) {
    forall more :: Legal(t, more) && NoMain(more) && MainEnabled(After(t, more), SeeSent) ==> Pending(After(t, more)) == map[]
  }

  /** What decides it when main stores `received`: nothing is left to queue, or the flag is not set and the monitor is
      not between its look at the table and the store of the flag. */
  predicate SetInTime(t: State) {
    Pending(t) == map[] || (!t.sent && !t.monitor.SawEmpty? && !t.monitor.SawReceived? && !t.monitor.SetSent?)
  }

  /** Main has no new pid in its hand. */
  predicate Resting(s: State) { s.main.Launch? || s.main.WaitSent? || s.main.WaitProcessed? }

  lemma EmptyTable(s: State)
    requires Inv(s) && s.monitor.Top? && s.allPids == {} && Resting(s)
    ensures Pending(s) == map[]
  {
    forall p ensures p !in Pending(s) { assert PidOk(s, p); }
  }

  lemma IdleMonitor(s: State)
    requires Inv(s) && Pending(s) == map[]
    ensures match s.monitor
            case Scan(todo, term) => todo == {} && term == map[]
            case Remove(todo, term) => todo == {} && term == map[]
            case Deliver(term) => term == map[]
            case _ => !s.monitor.EraseTimer? && !s.monitor.ErasePid? && !s.monitor.Looked?
  {
    assert s.monitor.EraseTimer? || s.monitor.ErasePid? || s.monitor.Looked? ==> PidOk(s, s.monitor.pid);
    forall p ensures !WithMonitor(s, p) && (s.monitor.Scan? ==> p !in s.monitor.todo && p !in s.monitor.term)
                     && (s.monitor.Remove? ==> p !in s.monitor.todo) {
      assert PidOk(s, p);
    }
  }

  lemma PendingStaysEmpty(s: State, a: Step)
    requires Inv(s) && Enabled(s, a) && !a.Main? && Pending(s) == map[]
    ensures Pending(Do(s, a)) == map[]
  {
    match a
    case Monitor(w) =>
      IdleMonitor(s);
      MonitorKeepsIds(s, w);
    case Retriever(r) => assert Pending(DoRetriever(s, r)) == Pending(s);
    case Update(_, _) =>
  }

  lemma FlagStep(s: State, a: Step)
    requires Inv(s) && Enabled(s, a) && !a.Main? && s.main.WaitSent? && SetInTime(s)
    ensures Do(s, a).main.WaitSent? && SetInTime(Do(s, a))
  {
    if Pending(s) == map[] {
      PendingStaysEmpty(s, a);
    } else if a == Monitor(TestEmpty) && s.allPids == {} {
      EmptyTable(s);
    }
  }

  lemma {:induction false} FlagRuns(s: State, more: seq<Step>)
    requires Inv(s) && Legal(s, more) && NoMain(more) && s.main.WaitSent? && SetInTime(s)
    ensures After(s, more).sent ==> Pending(After(s, more)) == map[]
    decreases |more|
  {
    if more != [] {
      assert !more[0].Main? && NoMain(more[1..]);
      InvStep(s, more[0]);
      FlagStep(s, more[0]);
      FlagRuns(Do(s, more[0]), more[1..]);
    }
  }

  /** The run that sets the flag too early. */
  lemma FlagTooEarly(t: State) returns (more: seq<Step>)
    requires t.received && t.main.WaitSent? && !SetInTime(t)
    ensures Legal(t, more) && NoMain(more) && MainEnabled(After(t, more), SeeSent) && Pending(After(t, more)) == Pending(t)
  {
    if t.sent {
      more := [];
    } else if t.monitor.SetSent? {
      more := [Monitor(StoreAllSent)];
      Steps(t, Monitor(StoreAllSent), []);
      assert more == [Monitor(StoreAllSent)] + [];
    } else if t.monitor.SawReceived? {
      more := [Monitor(ReadSent), Monitor(StoreAllSent)];
      TwoSteps(t, Monitor(ReadSent), Monitor(StoreAllSent));
    } else {
      more := [Monitor(ReadReceived), Monitor(ReadSent), Monitor(StoreAllSent)];
      ThreeSteps(t, Monitor(ReadReceived), Monitor(ReadSent), Monitor(StoreAllSent));
    }
  }

  /** The exact condition, for every reachable state in which main has called all individuals: passing the flag is
      sound if and only if, at the store of `received`, nothing is left to queue, or the flag is still clear and
      the monitor is not about to set it. */
  lemma SentFlagSoundExactly(cap: nat, received: bool, sent: bool, run: seq<Step>)
    requires Legal(Init(cap, received, sent), run) && MainEnabled(After(Init(cap, received, sent), run), AllCalled)
    ensures var t := Do(After(Init(cap, received, sent), run), Main(AllCalled));
            FlagSound(t) <==> SetInTime(t)
  {
    InvInit(cap, received, sent);
    InvRun(Init(cap, received, sent), run);
    var s := After(Init(cap, received, sent), run);
    var t := Do(s, Main(AllCalled));
    InvStep(s, Main(AllCalled));
    if SetInTime(t) {
      forall more | Legal(t, more) && NoMain(more) && MainEnabled(After(t, more), SeeSent) ensures Pending(After(t, more)) == map[] {
        FlagRuns(t, more);
      }
    } else {
      var more := FlagTooEarly(t);
    }
  }

  /** What is left of the retriever's work: queued testcases, the one in its hand, and a look at the other queue. */
  function RetrieverWork(s: State): nat {
    8 * (|s.ready| + |s.timedOut|) +
    match s.retriever
    case Process(_) => 5
    case Adding(_) => 4
    case Count(_) => 3
    case CountTimedOut(_) => 2
    case PollReady => One(s.ready == [])
    case PollTimedOut => One(s.timedOut == [])
  }

  function RunningPids(s: State): set<Pid> {
    set p | p in s.statuses && s.statuses[p].Running?
  }

  /** A scan that is going to find something: each tracked pid is found or still to be looked at. */
  predicate Finds(allPids: set<Pid>, todo: set<Pid>, term: map<Pid, Status>) {
    allPids != {} && allPids <= todo + term.Keys
  }

  /** How far the monitor is from its next push. */
  function MonitorPhase(s: State): nat {
    match s.monitor
    case Pushed(_, _) => 13
    case SawEmpty => 12
    case SawReceived => 11
    case SetSent => 10
    case Remove(_, term) => if term == map[] then 9 else 2
    case EraseTimer(_, _, _) => 2
    case ErasePid(_, _, _) => 2
    case Deliver(term) => if term == map[] then 8 else 1
    case Looked(_, _, _, _) => 0
    case SawPids => if s.allPids == {} then 8 else 4
    case Scan(todo, term) => if Finds(s.allPids, todo, term) then 3 else 7
    case Top => 5
  }

  function MonitorLeft(s: State): nat {
    match s.monitor
    case Scan(todo, _) => |todo|
    case Remove(todo, _) => 3 * |todo|
    case EraseTimer(_, todo, _) => 3 * |todo| + 2
    case ErasePid(_, todo, _) => 3 * |todo| + 1
    case _ => 0
  }

  /** The state t is nearer to the end of its generation than s. */
  predicate Nearer(t: State, s: State) {
    var (p', p, w', w, r', r) :=
      (|Pending(t)|, |Pending(s)|, RetrieverWork(t), RetrieverWork(s), |RunningPids(t)|, |RunningPids(s)|);
    p' < p || (p' == p && (w' < w || (w' == w && (r' < r || (r' == r && NearerPush(t, s))))))
  }

  predicate NearerPush(t: State, s: State) {
    MonitorPhase(t) < MonitorPhase(s) || (MonitorPhase(t) == MonitorPhase(s) && MonitorLeft(t) < MonitorLeft(s))
  }

  /** A generation is under way, with nothing dropped. */
  ghost predicate Hopeful(s: State) { Inv(s) && Resting(s) && s.dropped == {} }

  /** Nothing is pending, queued or in the retriever's hand. */
  predicate Settled(s: State) {
    Pending(s) == map[] && s.ready == [] && s.timedOut == [] && (s.retriever.PollReady? || s.retriever.PollTimedOut?)
  }

  predicate KeepsMain(s: State, t: State) { t.main == s.main && t.cap == s.cap && t.dropped == s.dropped }

  function RetrieverNext(s: State): RetrieverStep {
    match s.retriever
    case Process(_) => TraceFound
    case Adding(_) => Added
    case Count(_) => Counted
    case CountTimedOut(_) => TimedOutCounted
    case PollReady => if s.ready == [] then ReadyEmpty else PopReady
    case PollTimedOut => if s.timedOut == [] then TimedOutEmpty else PopTimedOut
  }

  lemma RetrieverWorkFalls(s: State)
    requires s.ready != [] || s.timedOut != [] || !(s.retriever.PollReady? || s.retriever.PollTimedOut?)
    requires s.retriever.Process? ==> s.retriever.id >= 1
    ensures RetrieverEnabled(s, RetrieverNext(s))
    ensures RetrieverWork(DoRetriever(s, RetrieverNext(s))) < RetrieverWork(s)
  {
  }

  lemma RetrieverKeeps(s: State, a: RetrieverStep)
    requires RetrieverEnabled(s, a)
    ensures var t := DoRetriever(s, a);
            Pending(t) == Pending(s) && t.main == s.main && t.cap == s.cap && (!a.TraceMissing? && !a.AddThrows? ==> t.dropped == s.dropped)
  {
  }

  lemma RetrieverNearer(s: State)
    requires Hopeful(s)
    requires s.ready != [] || s.timedOut != [] || !(s.retriever.PollReady? || s.retriever.PollTimedOut?)
    ensures RetrieverEnabled(s, RetrieverNext(s)) && Nearer(DoRetriever(s, RetrieverNext(s)), s)
    ensures KeepsMain(s, DoRetriever(s, RetrieverNext(s)))
  {
    if s.retriever.Process? { assert IdOk(s, s.retriever.id) && WithRetriever(s, s.retriever.id); }
    RetrieverWorkFalls(s);
    hide DoRetriever, RetrieverWork, Pending;
    RetrieverKeeps(s, RetrieverNext(s));
  }

  lemma FewerRunning(s: State, p: Pid)
    requires p in RunningPids(s)
    ensures |RunningPids(DoUpdate(s, p, Terminated))| < |RunningPids(s)|
  {
    assert RunningPids(DoUpdate(s, p, Terminated)) == RunningPids(s) - {p};
  }

  lemma UpdateNearer(s: State, p: Pid)
    requires p in RunningPids(s)
    ensures Nearer(DoUpdate(s, p, Terminated), s)
  {
    FewerRunning(s, p);
    assert Pending(DoUpdate(s, p, Terminated)) == Pending(s);
    assert RetrieverWork(DoUpdate(s, p, Terminated)) == RetrieverWork(s);
    hide DoUpdate, Pending, RetrieverWork, RunningPids;
  }

  lemma PushNearer(s: State)
    requires Inv(s) && s.monitor.Looked?
    ensures |Pending(DoMonitor(s, Push))| < |Pending(s)|
  {
    assert PidOk(s, s.monitor.pid);
    PushFields(s, Push);
    assert Pending(DoMonitor(s, Push)).Keys == Pending(s).Keys - {s.monitor.pid};
    assert |Pending(s)| == |Pending(s).Keys| && |Pending(DoMonitor(s, Push))| == |Pending(DoMonitor(s, Push)).Keys|;
  }

  lemma LookUpNearer(s: State) returns (a: MonitorStep)
    requires Inv(s) && s.monitor.Deliver? && s.monitor.term != map[]
    ensures MonitorEnabled(s, a) && !a.Push? && NearerPush(DoMonitor(s, a), s) && DoMonitor(s, a).statuses == s.statuses
  {
    var p :| p in s.monitor.term;
    a := LookUp(p);
    assert PidOk(s, p);
  }

  /** With no tracked process running, a look at a non-empty table leads to a push. */
  lemma ScanNearer(s: State) returns (a: MonitorStep)
    requires Inv(s) && RunningPids(s) == {} && s.monitor.Scan?
    ensures MonitorEnabled(s, a) && !a.Push? && NearerPush(DoMonitor(s, a), s) && DoMonitor(s, a).statuses == s.statuses
  {
    if s.monitor.todo == {} {
      a := EndScan;
    } else {
      var p :| p in s.monitor.todo;
      a := ScanOne(p);
      assert PidOk(s, p) && p !in RunningPids(s);
    }
  }

  lemma EraseNearer(s: State) returns (a: MonitorStep)
    requires Inv(s) && s.monitor.Remove?
    ensures MonitorEnabled(s, a) && !a.Push? && NearerPush(DoMonitor(s, a), s)
    ensures DoMonitor(s, a).statuses == s.statuses || exists p :: DoMonitor(s, a).statuses == s.statuses - {p}
  {
    if s.monitor.todo == {} {
      a := EndRemove;
    } else {
      var p :| p in s.monitor.todo;
      a := EraseStatus(p);
      assert PidOk(s, p);
      assert DoMonitor(s, a).statuses == s.statuses - {p};
    }
  }

  lemma MidRemovalNearer(s: State) returns (a: MonitorStep)
    requires Inv(s) && (s.monitor.EraseTimer? || s.monitor.ErasePid?)
    ensures MonitorEnabled(s, a) && !a.Push? && NearerPush(DoMonitor(s, a), s) && DoMonitor(s, a).statuses == s.statuses
  {
    assert PidOk(s, s.monitor.pid);
    a := if s.monitor.EraseTimer? then EraseTheTimer else EraseThePid;
  }

  lemma LookNearer(s: State) returns (a: MonitorStep)
    requires Inv(s) && Resting(s) && Pending(s) != map[]
    requires s.monitor.Top? || s.monitor.SawEmpty? || s.monitor.SawReceived? || s.monitor.SetSent? || s.monitor.SawPids? || s.monitor.Pushed?
             || (s.monitor.Deliver? && s.monitor.term == map[])
    ensures MonitorEnabled(s, a) && !a.Push? && NearerPush(DoMonitor(s, a), s) && DoMonitor(s, a).statuses == s.statuses
  {
    if s.monitor.Top? && s.allPids == {} { EmptyTable(s); }
    a := match s.monitor
         case Top => TestEmpty
         case SawEmpty => ReadReceived
         case SawReceived => ReadSent
         case SetSent => StoreAllSent
         case SawPids => CopyPids
         case Pushed(_, _) => Unmap
         case _ => EndDeliver;
  }

  lemma StillNoneRuns(s: State, t: State)
    requires RunningPids(s) == {} && (t.statuses == s.statuses || exists p :: t.statuses == s.statuses - {p})
    ensures RunningPids(t) == {}
  {
    assert forall p :: p in t.statuses ==> p in s.statuses && t.statuses[p] == s.statuses[p];
    assert forall p :: p in s.statuses && s.statuses[p].Running? ==> p in RunningPids(s);
  }

  lemma MonitorNearer(s: State) returns (a: MonitorStep)
    requires Hopeful(s) && RunningPids(s) == {} && Pending(s) != map[]
    ensures MonitorEnabled(s, a) && Nearer(DoMonitor(s, a), s)
    ensures KeepsMain(s, DoMonitor(s, a))
  {
    hide DoMonitor, RunningPids, NearerPush, Pending, Inv;
    if s.monitor.Looked? {
      PushNearer(s);
      a := Push;
    } else {
      if s.monitor.Deliver? && s.monitor.term != map[] { a := LookUpNearer(s); }
      else if s.monitor.Scan? { a := ScanNearer(s); }
      else if s.monitor.Remove? { a := EraseNearer(s); }
      else if s.monitor.EraseTimer? || s.monitor.ErasePid? { a := MidRemovalNearer(s); }
      else { a := LookNearer(s); }
      MonitorKeepsIds(s, a);
      StillNoneRuns(s, DoMonitor(s, a));
    }
    MonitorKeepsFrame(s, a);
  }

  /** With nothing pending, queued or in hand, everything launched has been counted. */
  lemma NothingLeft(s: State)
    requires Hopeful(s) && Settled(s)
    ensures s.main.WaitProcessed? ==> MainEnabled(s, LeaveWait)
  {
    forall id ensures id in s.launched ==> id in s.done { assert IdOk(s, id); }
    SmallerSubset(s.launched, s.done);
  }

  /** No deadlock: as long as something is left, some thread can bring the end nearer. */
  lemma SomeStepHelps(s: State) returns (a: Step)
    requires Hopeful(s) && !Settled(s)
    ensures Enabled(s, a) && !a.Main? && Hopeful(Do(s, a)) && Nearer(Do(s, a), s) && KeepsMain(s, Do(s, a))
  {
    if s.ready != [] || s.timedOut != [] || !(s.retriever.PollReady? || s.retriever.PollTimedOut?) {
      RetrieverNearer(s);
      a := Retriever(RetrieverNext(s));
    } else if RunningPids(s) != {} {
      var p :| p in RunningPids(s);
      UpdateNearer(s, p);
      a := Update(p, Terminated);
    } else {
      var w := MonitorNearer(s);
      a := Monitor(w);
    }
    InvStep(s, a);
  }

  lemma {:induction false} Settle(s: State) returns (more: seq<Step>)
    requires Hopeful(s)
    ensures Legal(s, more) && NoMain(more)
    ensures Hopeful(After(s, more)) && Settled(After(s, more)) && KeepsMain(s, After(s, more))
    decreases |Pending(s)|, RetrieverWork(s), |RunningPids(s)|, MonitorPhase(s), MonitorLeft(s)
  {
    hide Do, Enabled, Inv, Settled, Pending, RetrieverWork, RunningPids, MonitorPhase, MonitorLeft;
    if Settled(s) {
      more := [];
    } else {
      var a := SomeStepHelps(s);
      var rest := Settle(Do(s, a));
      more := [a] + rest;
      Steps(s, a, rest);
    }
  }

  /** Progress, exactly: from every reachable state in the last wait the other threads can still bring its end about
      if and only if no trace was dropped. */
  lemma ProgressUnlessDropped(cap: nat, received: bool, sent: bool, run: seq<Step>)
    requires Legal(Init(cap, received, sent), run) && After(Init(cap, received, sent), run).main.WaitProcessed?
    ensures var s := After(Init(cap, received, sent), run);
            (exists more :: Legal(s, more) && NoMain(more) && MainEnabled(After(s, more), LeaveWait)) <==> s.dropped == {}
  {
    InvInit(cap, received, sent);
    InvRun(Init(cap, received, sent), run);
    var s := After(Init(cap, received, sent), run);
    if s.dropped == {} {
      var more := Settle(s);
      NothingLeft(After(s, more));
    } else {
      forall more | Legal(s, more) ensures !MainEnabled(After(s, more), LeaveWait) {
        DroppedBlocksForever(cap, received, sent, run, more);
      }
    }
  }

  // ---- progress through a whole generation

  /** No individual fails to start. */
  predicate NoFailure(run: seq<Step>) {
    forall i :: 0 <= i < |run| ==> run[i] != Main(CallFails)
  }

  lemma NoFailures(a: seq<Step>, b: seq<Step>)
    requires (NoMain(a) || NoFailure(a)) && NoFailure(b)
    ensures NoFailure(a + b)
  {
    assert forall i :: 0 <= i < |a| ==> !a[i].Main? || a[i] != Main(CallFails);
  }

  /** How far main is from the end of the generation. */
  function MainPhase(s: State): nat {
    match s.main
    case Mapped(left, _) => 4 * left + 6
    case StatusIn(left, _) => 4 * left + 5
    case TimerIn(left, _) => 4 * left + 4
    case Launch(left) => 4 * left + 3
    case WaitSent => 2
    case WaitProcessed => 1
    case _ => 0
  }

  /** The generation can end: it is under way, nothing was dropped, and there is room for what is left to start. */
  ghost predicate CanFinish(s: State) {
    Inv(s) && !BetweenGenerations(s) && s.dropped == {} && (s.cap > 0 || Left(s) == 0)
  }

  /** How far the monitor, with nothing left to queue, is from storing the flag. */
  function FlagPhase(s: State): nat {
    match s.monitor
    case Pushed(_, _) => 9
    case Remove(_, _) => 9
    case Deliver(_) => 8
    case SawPids => 6
    case Scan(_, _) => 5
    case Top => 4
    case SawEmpty => 3
    case SawReceived => 2
    case SetSent => 1
    case _ => 0
  }

  lemma NothingTracked(s: State)
    requires Inv(s) && Pending(s) == map[]
    ensures s.allPids == {}
  {
    forall p ensures p !in s.allPids { assert PidOk(s, p); }
  }

  lemma FlagNearer(s: State) returns (a: MonitorStep)
    requires Hopeful(s) && s.main.WaitSent? && Pending(s) == map[] && !s.sent
    ensures MonitorEnabled(s, a)
    ensures var t := DoMonitor(s, a);
            Hopeful(t) && KeepsMain(s, t) && Pending(t) == map[] && (t.sent || FlagPhase(t) < FlagPhase(s))
  {
    IdleMonitor(s);
    NothingTracked(s);
    a := match s.monitor
         case Top => TestEmpty
         case SawEmpty => ReadReceived
         case SawReceived => ReadSent
         case SetSent => StoreAllSent
         case SawPids => CopyPids
         case Scan(_, _) => EndScan
         case Remove(_, _) => EndRemove
         case Pushed(_, _) => Unmap
         case _ => EndDeliver;
    hide Inv;
    InvStep(s, Monitor(a));
    PendingStaysEmpty(s, Monitor(a));
    MonitorKeepsFrame(s, a);
  }

  lemma {:induction false} FlagGetsSet(s: State) returns (more: seq<Step>)
    requires Hopeful(s) && s.main.WaitSent? && Pending(s) == map[]
    ensures Legal(s, more) && NoMain(more)
    ensures Hopeful(After(s, more)) && KeepsMain(s, After(s, more)) && After(s, more).sent
    decreases if s.sent then 0 else 1 + FlagPhase(s)
  {
    if s.sent {
      more := [];
    } else {
      var a := FlagNearer(s);
      var rest := FlagGetsSet(DoMonitor(s, a));
      more := [Monitor(a)] + rest;
      Steps(s, Monitor(a), rest);
    }
  }

  lemma Inserts(s: State) returns (a: MainStep)
    requires CanFinish(s) && (s.main.Mapped? || s.main.StatusIn? || s.main.TimerIn?)
    ensures MainEnabled(s, a) && !a.CallFails? && CanFinish(DoMain(s, a)) && MainPhase(DoMain(s, a)) < MainPhase(s)
  {
    a := if s.main.Mapped? then InsertStatus else if s.main.StatusIn? then InsertTimer else InsertPid;
    hide Inv;
    InvStep(s, Main(a));
  }

  /** A pid that is not mapped. */
  lemma Unmapped(s: State) returns (pid: Pid)
    requires Pending(s) == map[]
    ensures pid !in s.testcasePids
  {
    pid := if s.monitor.Pushed? then s.monitor.pid + 1 else 0;
    assert pid !in Pending(s);
  }

  lemma CallsOn(s: State, a: MainStep)
    requires CanFinish(s) && MainEnabled(s, a) && (a.CallSucceeds? || a.AllCalled?)
    ensures CanFinish(DoMain(s, a)) && MainPhase(DoMain(s, a)) < MainPhase(s)
  {
    hide Inv;
    InvStep(s, Main(a));
  }

  lemma Calls(s: State) returns (a: MainStep)
    requires CanFinish(s) && Settled(s) && s.main.Launch?
    ensures MainEnabled(s, a) && !a.CallFails? && CanFinish(DoMain(s, a)) && MainPhase(DoMain(s, a)) < MainPhase(s)
  {
    NothingTracked(s);
    hide Inv, Pending, DoMain;
    var pid := Unmapped(s);
    a := if s.main.left == 0 then AllCalled else CallSucceeds(pid);
    CallsOn(s, a);
  }

  lemma Passes(s: State)
    requires CanFinish(s) && s.main.WaitSent? && s.sent
    ensures MainEnabled(s, SeeSent) && CanFinish(DoMain(s, SeeSent)) && MainPhase(DoMain(s, SeeSent)) < MainPhase(s)
  {
    hide Inv;
    InvStep(s, Main(SeeSent));
  }

  /** What brings main to its next step: the others' work, and the step. */
  lemma MainGoesOn(s: State) returns (pre: seq<Step>, a: MainStep)
    requires CanFinish(s) && !s.main.WaitProcessed?
    ensures Legal(s, pre) && NoMain(pre) && MainEnabled(After(s, pre), a) && !a.CallFails?
    ensures var t := DoMain(After(s, pre), a); CanFinish(t) && MainPhase(t) < MainPhase(s)
  {
    hide Inv, Pending, MainEnabled, DoMain;
    pre := [];
    if s.main.Launch? {
      pre := Settle(s);
      a := Calls(After(s, pre));
    } else if s.main.WaitSent? {
      var work := Settle(s);
      var flag := FlagGetsSet(After(s, work));
      Compose(s, work, flag);
      pre, a := work + flag, SeeSent;
      Passes(After(s, pre));
    } else {
      a := Inserts(s);
    }
  }

  lemma {:induction false} Finish(s: State) returns (more: seq<Step>)
    requires CanFinish(s)
    ensures Legal(s, more) && NoFailure(more) && MainEnabled(After(s, more), LeaveWait)
    decreases MainPhase(s)
  {
    if s.main.WaitProcessed? {
      more := Settle(s);
      NothingLeft(After(s, more));
    } else {
      var pre, a := MainGoesOn(s);
      var t := After(s, pre);
      var rest := Finish(DoMain(t, a));
      Steps(t, Main(a), rest);
      Compose(s, pre, [Main(a)] + rest);
      NoFailures([Main(a)], rest);
      NoFailures(pre, [Main(a)] + rest);
      more := pre + ([Main(a)] + rest);
    }
  }

  /** Without room for a process no individual starts, and none fails to. */
  lemma {:induction false} NoRoom(s: State, more: seq<Step>)
    requires Inv(s) && s.cap == 0 && !BetweenGenerations(s) && Left(s) > 0 && Legal(s, more)
    ensures After(s, more).main.Launch?
    decreases |more|
  {
    if more != [] {
      InvStep(s, more[0]);
      match more[0] {
        case Main(_) =>
        case Monitor(w) => MonitorKeepsFrame(s, w);
        case Retriever(r) => RetrieverKeeps(s, r);
        case Update(_, _) =>
      }
      NoRoom(Do(s, more[0]), more[1..]);
    }
  }

  /** Progress through a generation, exactly: from every reachable state in which one is under way, it can still end
      with every remaining individual started, or end at all, if and only if no trace was dropped and there is room
      for a process or none left to start. */
  lemma GenerationCanEndExactly(cap: nat, received: bool, sent: bool, run: seq<Step>)
    requires Legal(Init(cap, received, sent), run) && !BetweenGenerations(After(Init(cap, received, sent), run))
    ensures var s := After(Init(cap, received, sent), run); var room := cap > 0 || Left(s) == 0;
            && (s.dropped == {} && room ==> exists more :: Legal(s, more) && NoFailure(more) && MainEnabled(After(s, more), LeaveWait))
            && ((exists more :: Legal(s, more) && MainEnabled(After(s, more), LeaveWait)) ==> s.dropped == {} && room)
  {
    InvInit(cap, received, sent);
    InvRun(Init(cap, received, sent), run);
    CapKept(Init(cap, received, sent), run);
    var s := After(Init(cap, received, sent), run);
    if s.dropped == {} && (cap > 0 || Left(s) == 0) {
      var more := Finish(s);
    } else {
      forall more | Legal(s, more) ensures !MainEnabled(After(s, more), LeaveWait) {
        if s.dropped != {} { DroppedBlocksForever(cap, received, sent, run, more); } else { NoRoom(s, more); }
      }
    }
  }

  /** Between two generations main waits for nobody: its own steps start a generation of any size. */
  lemma {:induction false} NextGenerationStarts(s: State, n: nat) returns (more: seq<Step>)
    requires Inv(s) && BetweenGenerations(s)
    ensures Legal(s, more) && After(s, more).main == Launch(n) && After(s, more).dropped == {}
    ensures forall i :: 0 <= i < |more| ==> more[i].Main?
    decreases match s.main case Evolve => 6 case Reset => 5 case ClearTable(_) => 4 case ClearSent => 3 case ClearReceived => 2 case _ => 1
  {
    var a := match s.main
      case Evolve => EndEvolve
      case Reset => EndReset
      case ClearTable(_) => EndClear
      case ClearSent => StoreSent
      case ClearReceived => StoreReceived
      case _ => ResetCount(n);
    QuietBetween(s);
    InvStep(s, Main(a));
    var rest := [];
    if !a.ResetCount? { rest := NextGenerationStarts(DoMain(s, a), n); }
    Steps(s, Main(a), rest);
    more := [Main(a)] + rest;
  }
}
