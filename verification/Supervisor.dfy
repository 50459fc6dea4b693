/** The wallet node supervisor: async methods whose pieces between awaits interleave freely.

    A suspended method is a task; resuming it runs the piece up to its next await. The answer of the awaited
    probe, whether a configuration call succeeded and whether a process would start come with the step.
    Processes exit when they like, and the notice of an exit runs some time later. */
module Supervisor {
  import opened Options

  const STARTUP_ATTEMPTS: nat := 40

  type Pid = nat

  /** Where a suspended method stands, named by what it awaits. */
  datatype Task =
    | StartProbe(managed: bool)
    | StartConfigure(managed: bool)
    | LaunchProbe(pid: Pid, attempt: nat)
    | LaunchConfigure
    | LaunchWait(pid: Pid, attempt: nat)
    | ExitNotice(pid: Pid, generation: nat)
    | RestartWait(generation: nat)
    | RestartProbe(generation: nat)
    | MonitorWait(generation: nat)
    | MonitorProbe(generation: nat)

  /** The fields of the object. */
  datatype Fields = Fields(child: Option<Pid>, managed: Option<bool>, disposed: bool, generation: nat)

  /** The processes started so far are `0 .. next`; `live` are those neither exited nor interrupted. */
  datatype Host = Host(next: Pid, generations: map<Pid, nat>, live: set<Pid>, exited: set<Pid>)

  datatype State = State(fields: Fields, host: Host, tasks: map<nat, Task>, nextTask: nat)

  datatype Step = Start(managed: bool) | Dispose | Exit(pid: Pid) | Resume(task: nat, ok: bool, spawns: bool)

  const INITIAL: State := State(Fields(None, None, false, 0), Host(0, map[], {}, {}), map[], 0)

  // ---------------------------------------------------------------- the pieces

  function Add(s: State, t: Task): State {
    State(s.fields, s.host, s.tasks[s.nextTask := t], s.nextTask + 1)
  }

  /** The head of the polling loop. */
  function Poll(s: State, pid: Pid, attempt: nat): State {
    if s.fields.disposed || s.fields.child != Some(pid) then s else Add(s, LaunchProbe(pid, attempt))
  }

  /** `launch` up to its first await; starting the process may throw. */
  function Launched(s: State, spawns: bool): State {
    if s.fields.disposed then s
    else if !spawns then WithGeneration(s, s.fields.generation + 1)
    else
      var fields := Fields(Some(s.host.next), s.fields.managed, false, s.fields.generation + 1);
      var host := Host(s.host.next + 1, s.host.generations[s.host.next := fields.generation],
                       s.host.live + {s.host.next}, s.host.exited);
      Poll(State(fields, host, s.tasks, s.nextTask), s.host.next, 0)
  }

  /** The end of `launch` when the node never became healthy. */
  function GiveUp(s: State, pid: Pid): State {
    var fields := Fields(if s.fields.child == Some(pid) then None else s.fields.child,
                         s.fields.managed, s.fields.disposed, s.fields.generation);
    State(fields, Host(s.host.next, s.host.generations, s.host.live - {pid}, s.host.exited), s.tasks, s.nextTask)
  }

  function WithGeneration(s: State, generation: nat): State {
    State(Fields(s.fields.child, s.fields.managed, s.fields.disposed, generation), s.host, s.tasks, s.nextTask)
  }

  /** `childExited` up to its first await. */
  function AfterExit(s: State, pid: Pid, generation: nat): State {
    if s.fields.disposed || s.fields.child != Some(pid) || s.fields.generation != generation then s
    else
      var gone := State(Fields(None, s.fields.managed, s.fields.disposed, s.fields.generation),
                        s.host, s.tasks, s.nextTask);
      if s.fields.managed == Some(true) then Add(gone, RestartWait(generation)) else gone
  }

  function Disposed(s: State): State {
    if s.fields.disposed then s
    else
      var live := if s.fields.child.Some? then s.host.live - {s.fields.child.value} else s.host.live;
      State(Fields(None, s.fields.managed, true, s.fields.generation + 1),
            Host(s.host.next, s.host.generations, live, s.host.exited), s.tasks, s.nextTask)
  }

  /** The piece of task `t` after its await; `ok` is what was awaited, `spawns` whether a process would start. */
  function Continue(s: State, t: Task, ok: bool, spawns: bool): State {
    match t
    case StartProbe(managed) =>
      if ok then Add(s, StartConfigure(managed)) else if managed then Launched(s, spawns) else s
    case StartConfigure(managed) =>
      if ok && managed then Add(WithGeneration(s, s.fields.generation + 1), MonitorWait(s.fields.generation + 1)) else s
    case LaunchProbe(pid, attempt) => Add(s, if ok then LaunchConfigure else LaunchWait(pid, attempt))
    case LaunchConfigure => s
    case LaunchWait(pid, attempt) =>
      if attempt + 1 < STARTUP_ATTEMPTS then Poll(s, pid, attempt + 1) else GiveUp(s, pid)
    case ExitNotice(pid, generation) => AfterExit(s, pid, generation)
    case RestartWait(generation) =>
      if s.fields.disposed || s.fields.generation != generation then s else Add(s, RestartProbe(generation))
    case RestartProbe(generation) => if ok then WithGeneration(s, s.fields.generation + 1) else Launched(s, spawns)
    case MonitorWait(generation) =>
      if s.fields.disposed || s.fields.generation != generation || s.fields.child.Some? then s
      else Add(s, MonitorProbe(generation))
    case MonitorProbe(generation) => if ok then Add(s, MonitorWait(generation)) else Launched(s, spawns)
  }

  function Next(s: State, step: Step): State {
    match step
    case Start(managed) =>
      if s.fields.disposed then s
      else
        var fields := Fields(s.fields.child, Some(managed), false, s.fields.generation);
        Add(State(fields, s.host, s.tasks, s.nextTask), StartProbe(managed))
    case Dispose => Disposed(s)
    case Exit(pid) =>
      if pid !in s.host.generations || pid in s.host.exited then s
      else
        var host := Host(s.host.next, s.host.generations, s.host.live - {pid}, s.host.exited + {pid});
        Add(State(s.fields, host, s.tasks, s.nextTask), ExitNotice(pid, s.host.generations[pid]))
    case Resume(id, ok, spawns) =>
      if id !in s.tasks then s
      else Continue(State(s.fields, s.host, s.tasks - {id}, s.nextTask), s.tasks[id], ok, spawns)
  }

  /** The state after a list of steps from `s`. */
  function From(s: State, steps: seq<Step>): State {
    if steps == [] then s else Next(From(s, steps[..|steps| - 1]), steps[|steps| - 1])
  }

  function After(steps: seq<Step>): State {
    From(INITIAL, steps)
  }

  // ---------------------------------------------------------------- the object, in place

  /** The object and its processes, whatever else is suspended. */
  function Bare(fields: Fields, host: Host): State {
    State(fields, host, map[], 0)
  }

  class ProcessHost {
    var next: Pid
    var generations: map<Pid, nat>
    var live: set<Pid>
    var exited: set<Pid>

    ghost function View(): Host
      reads this
    {
      Host(next, generations, live, exited)
    }
  }

  class WalletNodeSupervisor {
    const host: ProcessHost
    var child: Option<Pid>
    var managed: Option<bool>
    var disposed: bool
    var generation: nat

    ghost function View(): Fields
      reads this
    {
      Fields(child, managed, disposed, generation)
    }

    constructor (host: ProcessHost)
      ensures this.host == host && View() == INITIAL.fields
    {
      this.host, child, managed, disposed, generation := host, None, None, false, 0;
    }

    method Dispose()
      modifies this, host
      ensures Bare(View(), host.View()) == Disposed(Bare(old(View()), old(host.View())))
    {
      if disposed {
        return;
      }
      disposed := true;
      generation := generation + 1;
      var doomed := child;
      child := None;
      if doomed.Some? {
        host.live := host.live - {doomed.value};
      }
    }

    /** `launch` up to the polling loop: the process started, if any. */
    method Launch(spawns: bool) returns (started: Option<Pid>)
      modifies this, host
      ensures started == if old(disposed) || !spawns then None else child
      ensures var s := Launched(Bare(old(View()), old(host.View())), spawns);
        View() == s.fields && host.View() == s.host
    {
      if disposed {
        return None;
      }
      generation := generation + 1;
      if !spawns {
        return None;
      }
      var pid := host.next;
      host.next, host.generations, host.live := pid + 1, host.generations[pid := generation], host.live + {pid};
      child := Some(pid);
      started := child;
    }

    /** `childExited` up to its first await: whether it goes on to wait. */
    method ChildExited(pid: Pid, exitGeneration: nat) returns (waits: bool)
      modifies this
      ensures waits <==>
        !old(disposed) && old(child) == Some(pid) && old(generation) == exitGeneration && managed == Some(true)
      ensures var s := AfterExit(Bare(old(View()), host.View()), pid, exitGeneration);
        View() == s.fields && s.tasks == if waits then map[0 := RestartWait(exitGeneration)] else map[]
    {
      if disposed || child != Some(pid) || generation != exitGeneration {
        return false;
      }
      child := None;
      waits := managed == Some(true);
    }
  }

  // ---------------------------------------------------------------- tasks that may launch

  /** A probe that starts a process when it finds no node, whatever is recorded. */
  predicate LaunchingProbe(t: Task) {
    (t.StartProbe? && t.managed) || t.RestartProbe? || t.MonitorProbe?
  }

  /** The task polls this process. */
  predicate Polls(t: Task, p: Pid) {
    (t.LaunchProbe? || t.LaunchWait?) && t.pid == p
  }

  predicate PollerAt(s: State, id: nat, p: Pid) {
    id in s.tasks && Polls(s.tasks[id], p)
  }

  /** Monitoring goes on: nothing is recorded, or what is recorded is polled and will be given up. */
  ghost predicate Monitorable(s: State) {
    s.fields.child.None? || exists id :: PollerAt(s, id, s.fields.child.value)
  }

  /** A restart or a monitor that waits, in the current generation; an older one only ends. */
  predicate DueAt(s: State, id: nat) {
    && id in s.tasks && (s.tasks[id].RestartWait? || s.tasks[id].MonitorWait?)
    && s.tasks[id].generation == s.fields.generation
  }

  ghost predicate LauncherAt(s: State, id: nat) {
    && id in s.tasks
    && (LaunchingProbe(s.tasks[id]) || s.tasks[id] == StartConfigure(true)
        || (DueAt(s, id) && (s.tasks[id].RestartWait? || Monitorable(s))))
  }

  /** A pending exit notice that still counts. */
  predicate NoticeAt(s: State, id: nat, p: Pid) {
    id in s.tasks && s.tasks[id] == ExitNotice(p, s.fields.generation)
  }

  /** Nothing runs, and nothing recorded is about to be restarted. */
  ghost predicate Idle(s: State) {
    s.host.live == {} && (s.fields.child.Some? ==> forall id :: !NoticeAt(s, id, s.fields.child.value))
  }

  /** The states in which a managed start is safe. */
  ghost predicate Startable(s: State) {
    s.host.live == {} && (s.fields.disposed || (Idle(s) && forall id :: !LauncherAt(s, id)))
  }

  // ---------------------------------------------------------------- every state

  /** Bookkeeping of processes, tasks and generations. */
  predicate Books(s: State) {
    && (forall id <- s.tasks :: id < s.nextTask && Dated(s, s.tasks[id]))
    && (forall p <- s.host.generations :: p < s.host.next && s.host.generations[p] <= s.fields.generation)
    && (forall p <- s.host.live :: p < s.host.next && p !in s.host.exited)
    && (forall p <- s.host.exited :: p < s.host.next)
    && (s.fields.child.Some? ==>
          && s.fields.child.value in s.host.generations
          && (s.fields.child.value in s.host.live || s.fields.child.value in s.host.exited))
    && (s.fields.disposed ==> s.fields.child.None?)
  }

  /** No task is of a later generation, and a notice is of a process that exited. */
  predicate Dated(s: State, t: Task) {
    && (t.ExitNotice? ==> t.pid in s.host.exited && t.generation <= s.fields.generation)
    && (t.RestartWait? || t.RestartProbe? || t.MonitorWait? || t.MonitorProbe? ==> t.generation <= s.fields.generation)
  }

  lemma StepBooks(s: State, step: Step)
    requires Books(s)
    ensures Books(Next(s, step))
  {
    hide Continue;
    if step.Resume? && step.task in s.tasks {
      ContinueBooks(Without(s, step.task), s.tasks[step.task], step.ok, step.spawns);
    }
  }

  /** The state without one task. */
  function Without(s: State, id: nat): State {
    State(s.fields, s.host, s.tasks - {id}, s.nextTask)
  }

  lemma ContinueBooks(s: State, t: Task, ok: bool, spawns: bool)
    requires Books(s) && Dated(s, t)
    ensures Books(Continue(s, t, ok, spawns))
  {
    hide Launched;
    LaunchBooks(s, spawns);
  }

  lemma LaunchBooks(s: State, spawns: bool)
    requires Books(s)
    ensures Books(Launched(s, spawns))
  {}

  lemma {:induction false} RunBooks(s: State, steps: seq<Step>)
    requires Books(s)
    ensures Books(From(s, steps))
  {
    hide Next, Books;
    if steps != [] {
      RunBooks(s, steps[..|steps| - 1]);
      StepBooks(From(s, steps[..|steps| - 1]), steps[|steps| - 1]);
    }
  }

  lemma InitialBooks()
    ensures Books(INITIAL)
  {}

  // ---------------------------------------------------------------- at most one process

  /** Nothing runs unrecorded. */
  predicate Owned(s: State) {
    s.host.live <= (if s.fields.child.Some? then {s.fields.child.value} else {})
  }

  ghost predicate AtMostOne(s: State) {
    Owned(s) && |s.host.live| <= 1
  }

  /** At most one process runs, it is recorded and of the current generation; and at most one of these is the
      case: a process runs or is about to be restarted, or one task may launch. */
  ghost predicate Calm(s: State) {
    && Owned(s) && (s.fields.disposed ==> s.host.live == {})
    && (!s.fields.disposed ==> OneLauncher(s) && Undisturbed(s))
  }

  ghost predicate OneLauncher(s: State) {
    && (forall id, other :: LauncherAt(s, id) && LauncherAt(s, other) ==> id == other)
    && (forall id :: LauncherAt(s, id) ==> Idle(s))
  }

  /** While a process runs or is about to be restarted, nothing else waits in its generation. */
  ghost predicate Undisturbed(s: State) {
    && (!Idle(s) ==> forall id :: !DueAt(s, id))
    && (s.fields.child.Some? && s.fields.child.value in s.host.live ==>
          && s.fields.child.value in s.host.generations
          && s.host.generations[s.fields.child.value] == s.fields.generation)
  }

  lemma CalmIsAtMostOne(s: State)
    requires Calm(s)
    ensures AtMostOne(s)
  {
    if s.fields.child.Some? {
      Few(s.host.live, s.fields.child.value);
    }
  }

  lemma Few(s: set<Pid>, p: Pid)
    requires s <= {p}
    ensures |s| <= 1
  {
    if p in s {
      assert s == {p};
    } else {
      assert s == {};
    }
  }

  /** Nothing recorded changes, and no launcher, waiting task or notice is new. */
  ghost predicate NothingNew(s: State, t: State) {
    && t.fields.child == s.fields.child && t.fields.disposed == s.fields.disposed
    && t.fields.generation == s.fields.generation
    && t.host.live == s.host.live && t.host.generations == s.host.generations
    && (forall id :: LauncherAt(t, id) ==> LauncherAt(s, id))
    && (forall id :: DueAt(t, id) ==> DueAt(s, id))
    && (forall id :: s.fields.child.Some? && NoticeAt(t, id, s.fields.child.value) ==>
          NoticeAt(s, id, s.fields.child.value))
  }

  lemma StillCalm(s: State, t: State)
    requires Calm(s) && NothingNew(s, t)
    ensures Calm(t)
  {
    hide LauncherAt, DueAt, NoticeAt;
  }

  /** In an idle state only the number of launchers matters. */
  lemma IdleIsCalm(t: State)
    requires Idle(t) && forall id, other :: LauncherAt(t, id) && LauncherAt(t, other) ==> id == other
    ensures Calm(t)
  {
    hide LauncherAt, DueAt, NoticeAt;
  }

  lemma WithoutNothingNew(s: State, id: nat)
    ensures NothingNew(s, Without(s, id))
  {
    var t := Without(s, id);
    if t.fields.child.Some? {
      forall k ensures PollerAt(t, k, t.fields.child.value) ==> PollerAt(s, k, t.fields.child.value) {}
    }
  }

  /** One task becomes another that cannot launch, wait or notify, and polls only what was polled. */
  lemma BecomesNothingNew(s: State, id: nat, t: Task)
    requires id in s.tasks && (t == LaunchConfigure || t == StartConfigure(false)
                               || (exists p :: Polls(s.tasks[id], p) && Polls(t, p)))
    ensures NothingNew(s, Add(Without(s, id), t))
  {
    var u := Add(Without(s, id), t);
    if u.fields.child.Some? {
      forall k | PollerAt(u, k, u.fields.child.value)
        ensures PollerAt(s, k, u.fields.child.value) || PollerAt(s, id, u.fields.child.value)
      {}
    }
  }

  /** The one launcher of a calm state hands over: whatever launcher there is then is new. */
  lemma HandedOver(s: State, id: nat, u: State)
    requires Books(s) && Calm(s) && LauncherAt(s, id) && !s.fields.disposed
    requires u.host == s.host && u.fields.child == s.fields.child
    requires u.fields.generation == s.fields.generation || u.fields.generation == s.fields.generation + 1
    requires forall k <- u.tasks :: k == s.nextTask || (k in s.tasks && k != id && u.tasks[k] == s.tasks[k])
    requires s.nextTask in u.tasks ==> !u.tasks[s.nextTask].ExitNotice? && forall p :: !Polls(u.tasks[s.nextTask], p)
    ensures Calm(u)
  {
    forall k | LauncherAt(u, k) ensures k == s.nextTask {
      if k != s.nextTask {
        assert !LauncherAt(s, k);
        if u.fields.child.Some? {
          forall j ensures PollerAt(u, j, u.fields.child.value) ==> PollerAt(s, j, u.fields.child.value) {}
        }
      }
    }
    assert Idle(u) by {
      assert Idle(s);
      if s.fields.child.Some? {
        forall k ensures !NoticeAt(u, k, s.fields.child.value) { assert !NoticeAt(s, k, s.fields.child.value); }
      }
    }
    IdleIsCalm(u);
  }

  lemma LaunchCalm(s: State, id: nat, spawns: bool)
    requires Books(s) && Calm(s) && LauncherAt(s, id) && !s.fields.disposed
    ensures Calm(Launched(Without(s, id), spawns))
  {
    var u := Launched(Without(s, id), spawns);
    assert Idle(s);
    if !spawns {
      HandedOver(s, id, u);
    } else {
      forall k ensures !LauncherAt(u, k) && !DueAt(u, k) { assert k != id ==> !LauncherAt(s, k); }
    }
  }

  lemma ProbeCalm(s: State, id: nat, ok: bool, spawns: bool)
    requires Books(s) && Calm(s) && id in s.tasks && !s.fields.disposed
    requires LaunchingProbe(s.tasks[id]) || s.tasks[id] == StartConfigure(true)
    ensures Calm(Continue(Without(s, id), s.tasks[id], ok, spawns))
  {
    hide Calm;
    assert LauncherAt(s, id);
    var u := Continue(Without(s, id), s.tasks[id], ok, spawns);
    if s.tasks[id] == StartConfigure(true) || ok {
      HandedOver(s, id, u);
    } else {
      LaunchCalm(s, id, spawns);
    }
  }

  lemma WaitCalm(s: State, id: nat, ok: bool, spawns: bool)
    requires Books(s) && Calm(s) && id in s.tasks && !s.fields.disposed
    requires s.tasks[id].RestartWait? || s.tasks[id].MonitorWait?
    ensures Calm(Continue(Without(s, id), s.tasks[id], ok, spawns))
  {
    hide Calm;
    var u := Continue(Without(s, id), s.tasks[id], ok, spawns);
    if u == Without(s, id) {
      WithoutNothingNew(s, id);
      StillCalm(s, u);
    } else {
      assert LauncherAt(s, id);
      HandedOver(s, id, u);
    }
  }

  lemma NoticeCalm(s: State, id: nat)
    requires Books(s) && Calm(s) && id in s.tasks && !s.fields.disposed && s.tasks[id].ExitNotice?
    ensures Calm(AfterExit(Without(s, id), s.tasks[id].pid, s.tasks[id].generation))
  {
    var p, g := s.tasks[id].pid, s.tasks[id].generation;
    var u := AfterExit(Without(s, id), p, g);
    if u == Without(s, id) {
      WithoutNothingNew(s, id);
      StillCalm(s, u);
    } else {
      assert NoticeAt(s, id, p) && !Idle(s);
      forall k ensures LauncherAt(u, k) ==> k == s.nextTask { assert !LauncherAt(s, k) && !DueAt(s, k); }
      IdleIsCalm(u);
    }
  }

  lemma PollCalm(s: State, id: nat, ok: bool)
    requires Books(s) && Calm(s) && id in s.tasks && !s.fields.disposed
    requires s.tasks[id].LaunchProbe? || s.tasks[id].LaunchWait?
    ensures Calm(Continue(Without(s, id), s.tasks[id], ok, true))
    ensures Calm(Continue(Without(s, id), s.tasks[id], ok, false))
  {
    var t := s.tasks[id];
    var u := Continue(Without(s, id), t, ok, true);
    assert Polls(t, t.pid);
    if t.LaunchWait? && t.attempt + 1 >= STARTUP_ATTEMPTS {
      GiveUpCalm(s, id);
    } else if u == Without(s, id) {
      WithoutNothingNew(s, id);
      StillCalm(s, u);
    } else {
      var next := u.tasks[s.nextTask];
      assert next == LaunchConfigure || Polls(next, t.pid);
      BecomesNothingNew(s, id, next);
      StillCalm(s, u);
    }
  }

  lemma GiveUpCalm(s: State, id: nat)
    requires Books(s) && Calm(s) && id in s.tasks && !s.fields.disposed && s.tasks[id].LaunchWait?
    ensures Calm(GiveUp(Without(s, id), s.tasks[id].pid))
  {
    var p := s.tasks[id].pid;
    var u := GiveUp(Without(s, id), p);
    if s.fields.child == Some(p) {
      assert PollerAt(s, id, p);
      forall k | LauncherAt(u, k) ensures LauncherAt(s, k) {}
      IdleIsCalm(u);
    } else {
      assert p !in s.host.live;
      WithoutNothingNew(s, id);
      assert u.host.live == s.host.live;
      StillCalm(s, Without(s, id));
      assert u == Without(s, id);
    }
  }

  lemma ResumeCalm(s: State, id: nat, ok: bool, spawns: bool)
    requires Books(s) && Calm(s) && id in s.tasks && !s.fields.disposed
    ensures Calm(Next(s, Resume(id, ok, spawns)))
  {
    hide Calm, Books;
    var t := s.tasks[id];
    if LaunchingProbe(t) || t == StartConfigure(true) {
      ProbeCalm(s, id, ok, spawns);
    } else if t.RestartWait? || t.MonitorWait? {
      WaitCalm(s, id, ok, spawns);
    } else if t.ExitNotice? {
      NoticeCalm(s, id);
    } else if t.LaunchProbe? || t.LaunchWait? {
      PollCalm(s, id, ok);
    } else {
      WithoutNothingNew(s, id);
      StillCalm(s, Without(s, id));
      BecomesNothingNew(s, id, StartConfigure(false));
      StillCalm(s, Add(Without(s, id), StartConfigure(false)));
    }
  }

  lemma ExitCalm(s: State, p: Pid)
    requires Books(s) && Calm(s) && !s.fields.disposed
    ensures Calm(Next(s, Exit(p)))
  {
    var u := Next(s, Exit(p));
    if u != s {
      forall k ensures LauncherAt(u, k) == LauncherAt(s, k) {
        if s.fields.child.Some? {
          forall j ensures PollerAt(u, j, s.fields.child.value) == PollerAt(s, j, s.fields.child.value) {}
        }
      }
      forall k ensures DueAt(u, k) == DueAt(s, k) {}
      if s.fields.child == Some(p) {
        assert NoticeAt(u, s.nextTask, p);
      } else {
        assert p !in s.host.live && u.host.live == s.host.live;
        StillCalm(s, u);
      }
    }
  }

  lemma StartCalm(s: State, managed: bool)
    requires Books(s) && Calm(s) && !s.fields.disposed && (managed ==> Startable(s))
    ensures Calm(Next(s, Start(managed)))
  {
    StartAddsLauncher(s, managed);
    var u := Next(s, Start(managed));
    if managed {
      IdleIsCalm(u);
    } else {
      StillCalm(s, u);
    }
  }

  lemma StartAddsLauncher(s: State, managed: bool)
    requires Books(s) && !s.fields.disposed
    ensures var u := Next(s, Start(managed));
      && (Idle(s) ==> Idle(u))
      && (!managed ==> NothingNew(s, u))
      && (forall k :: LauncherAt(u, k) ==> LauncherAt(s, k) || k == s.nextTask)
  {
    var u := Next(s, Start(managed));
    if s.fields.child.Some? {
      forall k ensures NoticeAt(u, k, s.fields.child.value) == NoticeAt(s, k, s.fields.child.value) {}
      forall k ensures PollerAt(u, k, s.fields.child.value) == PollerAt(s, k, s.fields.child.value) {}
    }
  }

  lemma StepCalm(s: State, step: Step)
    requires Books(s) && Calm(s) && (step == Start(true) ==> Startable(s))
    ensures Calm(Next(s, step))
  {
    hide OneLauncher, Undisturbed, Startable;
    if s.fields.disposed {
      DisposedStays(s, step);
    } else {
      match step
      case Start(managed) => StartCalm(s, managed);
      case Dispose =>
      case Exit(p) => ExitCalm(s, p);
      case Resume(id, ok, spawns) => if id in s.tasks { ResumeCalm(s, id, ok, spawns); }
    }
  }

  /** Disposed, it starts nothing. */
  lemma DisposedStays(s: State, step: Step)
    requires s.fields.disposed && s.fields.child.None?
    ensures Next(s, step).fields.disposed && Next(s, step).fields.child.None? && Next(s, step).host.live <= s.host.live
  {}

  /** A managed start in a startable state leaves a calm one, whatever the run before it. */
  lemma StartableStart(s: State)
    requires Books(s) && Startable(s)
    ensures Calm(Next(s, Start(true)))
  {
    hide Books;
    if !s.fields.disposed {
      IdleIsCalm(s);
      StartCalm(s, true);
    }
  }

  // ---------------------------------------------------------------- every run

  /** Every managed start is made in a startable state; external starts are free. */
  ghost predicate Guarded(steps: seq<Step>) {
    forall i :: 0 <= i < |steps| && steps[i] == Start(true) ==> Startable(After(steps[..i]))
  }

  lemma GuardedPrefix(steps: seq<Step>, n: nat)
    requires Guarded(steps) && n <= |steps|
    ensures Guarded(steps[..n])
  {
    hide After, Startable;
    forall i | 0 <= i < n && steps[..n][i] == Start(true) ensures Startable(After(steps[..n][..i])) {
      assert steps[..n][..i] == steps[..i];
    }
  }

  lemma {:induction false} RunCalm(steps: seq<Step>)
    requires Guarded(steps)
    ensures Calm(After(steps)) && Books(After(steps))
  {
    hide Next, Calm, Books, Startable;
    if steps == [] {
      InitialBooks();
      InitialCalm();
    } else {
      GuardedPrefix(steps, |steps| - 1);
      RunCalm(steps[..|steps| - 1]);
      StepCalm(After(steps[..|steps| - 1]), steps[|steps| - 1]);
      StepBooks(After(steps[..|steps| - 1]), steps[|steps| - 1]);
    }
  }

  lemma InitialCalm()
    ensures Calm(INITIAL)
  {}

  /** In particular: at most one managed start. */
  predicate StartedOnce(steps: seq<Step>) {
    forall i, j :: 0 <= i < j < |steps| ==> !(steps[i] == steps[j] == Start(true))
  }

  lemma OneStartIsGuarded(steps: seq<Step>)
    requires StartedOnce(steps)
    ensures Guarded(steps)
  {
    hide After;
    forall i | 0 <= i < |steps| && steps[i] == Start(true) ensures Startable(After(steps[..i])) {
      Unstarted(steps[..i]);
    }
  }

  /** The task comes from a managed start. */
  predicate FromManaged(t: Task) {
    LaunchingProbe(t) || t == StartConfigure(true) || t.RestartWait? || t.MonitorWait?
  }

  predicate NeverStarted(s: State) {
    && s.host.live == {} && s.host.generations == map[] && s.fields.child.None?
    && (forall id <- s.tasks :: !FromManaged(s.tasks[id]))
  }

  lemma {:induction false} Unstarted(steps: seq<Step>)
    requires Start(true) !in steps
    ensures NeverStarted(After(steps))
  {
    hide Next;
    if steps != [] {
      Unstarted(steps[..|steps| - 1]);
      StillUnstarted(After(steps[..|steps| - 1]), steps[|steps| - 1]);
    }
  }

  lemma StillUnstarted(s: State, step: Step)
    requires NeverStarted(s) && step != Start(true)
    ensures NeverStarted(Next(s, step))
  {}

  /** With every managed start guarded, in every interleaving of polling, exits, restarts, monitoring and
      dispose: at most one started process is neither exited nor interrupted, it is the recorded child, and
      none is left once the supervisor is disposed. */
  lemma AtMostOneProcess(steps: seq<Step>)
    requires Guarded(steps)
    ensures var s := After(steps);
      && AtMostOne(s)
      && (s.fields.disposed ==> s.host.live == {} && s.fields.child.None?)
  {
    hide Next, After;
    RunCalm(steps);
    CalmIsAtMostOne(After(steps));
  }

  /** Disposal is final: nothing is started afterwards. */
  lemma {:induction false} NothingAfterDispose(steps: seq<Step>, i: nat)
    requires Guarded(steps) && i < |steps| && steps[i] == Dispose
    ensures After(steps).fields.disposed && After(steps).host.live == {}
    decreases |steps|
  {
    hide Next, Guarded;
    var shorter, last := steps[..|steps| - 1], steps[|steps| - 1];
    GuardedPrefix(steps, |steps| - 1);
    if i < |steps| - 1 {
      NothingAfterDispose(shorter, i);
      AtMostOneProcess(shorter);
      DisposedStays(After(shorter), last);
    } else {
      DisposeDisposes(After(shorter));
    }
    AtMostOneProcess(steps);
  }

  lemma DisposeDisposes(s: State)
    ensures Next(s, Dispose).fields.disposed
  {}

  /** On every run, guarded or not, a managed child of the current generation that dies is replaced: its exit,
      the delay and a failed probe lead to a new recorded process, and touch no other. */
  lemma RestartsAfterExit(steps: seq<Step>, p: Pid)
    requires var s := After(steps);
      && s.fields.child == Some(p) && p in s.host.live && s.fields.managed == Some(true)
      && p in s.host.generations && s.host.generations[p] == s.fields.generation
    ensures var s := After(steps);
      var noticed := Next(Next(s, Exit(p)), Resume(s.nextTask, true, true));
      var waited := Next(noticed, Resume(s.nextTask + 1, true, true));
      var relaunched := Next(waited, Resume(s.nextTask + 2, false, true));
      relaunched.fields.child == Some(s.host.next) && relaunched.host.live == s.host.live - {p} + {s.host.next}
  {
    hide After;
    AllBooks(steps);
    var s := After(steps);
    var exited := Next(s, Exit(p));
    assert exited.tasks[s.nextTask] == ExitNotice(p, s.fields.generation);
    var noticed := Next(exited, Resume(s.nextTask, true, true));
    assert noticed.tasks[s.nextTask + 1] == RestartWait(s.fields.generation) && noticed.fields.child == None;
    var waited := Next(noticed, Resume(s.nextTask + 1, true, true));
    assert waited.tasks[s.nextTask + 2] == RestartProbe(s.fields.generation);
  }

  /** Guarded starts keep a running child in the current generation. */
  lemma GuardedIsCurrent(steps: seq<Step>, p: Pid)
    requires Guarded(steps) && p in After(steps).host.live
    ensures var s := After(steps);
      s.fields.child == Some(p) && p in s.host.generations && s.host.generations[p] == s.fields.generation
  {
    hide After;
    RunCalm(steps);
  }

  lemma AllBooks(steps: seq<Step>)
    ensures Books(After(steps))
  {
    hide Books, From;
    InitialBooks();
    RunBooks(INITIAL, steps);
  }

  // ---------------------------------------------------------------- a further managed start

  /** Whatever happens after a managed start in `s`, short of another one, at most one process runs. */
  ghost predicate StartIsSafe(s: State) {
    forall more :: Start(true) !in more ==> AtMostOne(From(Next(s, Start(true)), more))
  }

  lemma {:induction false} CalmContinues(s: State, more: seq<Step>)
    requires Books(s) && Calm(s) && Start(true) !in more
    ensures Calm(From(s, more))
  {
    hide Next, Calm, Books;
    if more != [] {
      CalmContinues(s, more[..|more| - 1]);
      RunBooks(s, more[..|more| - 1]);
      StepCalm(From(s, more[..|more| - 1]), more[|more| - 1]);
    }
  }

  lemma FromNext(s: State, more: seq<Step>, step: Step)
    ensures From(s, more + [step]) == Next(From(s, more), step)
  {
    hide Next;
    assert (more + [step])[..|more|] == more;
  }

  /** A process runs while another task is about to start one. */
  predicate Doomed(s: State, id: nat) {
    !s.fields.disposed && s.host.live != {} && id in s.tasks && LaunchingProbe(s.tasks[id])
  }

  lemma DoomedIsUnsafe(s: State, more: seq<Step>, id: nat)
    requires Books(From(Next(s, Start(true)), more)) && Doomed(From(Next(s, Start(true)), more), id)
    requires Start(true) !in more
    ensures !StartIsSafe(s)
  {
    hide From, Next;
    var step := Resume(id, false, true);
    FromNext(Next(s, Start(true)), more, step);
    TwoRun(From(Next(s, Start(true)), more), id);
    assert Start(true) !in more + [step];
    assert !AtMostOne(From(Next(s, Start(true)), more + [step]));
  }

  lemma TwoRun(s: State, id: nat)
    requires Books(s) && Doomed(s, id)
    ensures !Owned(Next(s, Resume(id, false, true)))
  {
    var p :| p in s.host.live;
    var t := Next(s, Resume(id, false, true));
    assert p in t.host.live && t.fields.child == Some(s.host.next) && p != s.host.next;
  }

  /** `t` follows from `s` without a managed start, and task `kept` is still suspended there. */
  ghost predicate Reaches(s: State, more: seq<Step>, t: State, kept: nat) {
    Start(true) !in more && t == From(s, more) && Books(t) && kept in t.tasks && t.tasks[kept] == StartProbe(true)
  }

  lemma ReachesNext(s: State, more: seq<Step>, t: State, kept: nat, step: Step)
    requires Reaches(s, more, t, kept) && step.Resume? && step.task != kept
    ensures Reaches(s, more + [step], Next(t, step), kept)
  {
    FromNext(s, more, step);
    StepBooks(t, step);
    KeptStays(t, kept, step);
    hide Next, From, Books;
  }

  lemma KeptStays(t: State, kept: nat, step: Step)
    requires Books(t) && kept in t.tasks && step.Resume? && step.task != kept
    ensures kept in Next(t, step).tasks && Next(t, step).tasks[kept] == t.tasks[kept]
  {}

  /** A launching probe launches: the managed start that waits is then doomed. */
  lemma BrokenByProbe(s: State, more: seq<Step>, t: State, id: nat)
    requires Reaches(Next(s, Start(true)), more, t, s.nextTask) && !t.fields.disposed
    requires id in t.tasks && id != s.nextTask && LaunchingProbe(t.tasks[id])
    ensures !StartIsSafe(s)
  {
    var step := Resume(id, false, true);
    ReachesNext(Next(s, Start(true)), more, t, s.nextTask, step);
    assert Doomed(Next(t, step), s.nextTask);
    DoomedIsUnsafe(s, more + [step], s.nextTask);
  }

  /** A restart, or a monitor with nothing recorded, that is due goes on to its probe. */
  lemma BrokenByWait(s: State, more: seq<Step>, t: State, id: nat)
    requires Reaches(Next(s, Start(true)), more, t, s.nextTask) && !t.fields.disposed
    requires DueAt(t, id) && (t.tasks[id].RestartWait? || t.fields.child.None?)
    ensures !StartIsSafe(s)
  {
    var step := Resume(id, true, true);
    ReachesNext(Next(s, Start(true)), more, t, s.nextTask, step);
    BrokenByProbe(s, more + [step], Next(t, step), t.nextTask);
  }

  /** A monitor held up by a dead process: its polling ends in giving it up. */
  lemma {:induction false} BrokenByPolling(s: State, more: seq<Step>, t: State, id: nat, poller: nat)
    requires Reaches(Next(s, Start(true)), more, t, s.nextTask) && !t.fields.disposed
    requires DueAt(t, id) && t.fields.child.Some? && PollerAt(t, poller, t.fields.child.value)
    ensures !StartIsSafe(s)
    decreases if t.tasks[poller].attempt < STARTUP_ATTEMPTS then STARTUP_ATTEMPTS - t.tasks[poller].attempt else 0,
              t.tasks[poller].LaunchProbe?
  {
    hide From, StartIsSafe;
    if t.tasks[id].RestartWait? {
      BrokenByWait(s, more, t, id);
    } else {
      var step := Resume(poller, false, true);
      var u := Next(t, step);
      ReachesNext(Next(s, Start(true)), more, t, s.nextTask, step);
      assert DueAt(u, id);
      if u.fields.child.None? {
        BrokenByWait(s, more + [step], u, id);
      } else {
        assert PollerAt(u, t.nextTask, u.fields.child.value);
        BrokenByPolling(s, more + [step], u, id, t.nextTask);
      }
    }
  }

  /** A start that has adopted a node and is about to monitor it: the new start's process dies, its restart
      gets as far as its probe, and then both probes launch. */
  lemma BrokenByConfigure(s: State, id: nat)
    requires Books(s) && !s.fields.disposed && id in s.tasks && s.tasks[id] == StartConfigure(true)
    ensures !StartIsSafe(s)
  {
    hide From, StartIsSafe, Books;
    var n, q := s.nextTask, s.host.next;
    var t := Restarting(s, id);
    var more := [Resume(n, false, true), Exit(q), Resume(n + 2, true, true), Resume(n + 3, true, true)];
    var u := Monitoring(t, id);
    var rest := [Resume(id, true, true), Resume(n + 5, true, true), Resume(n + 6, false, true)];
    FromAppend(Next(s, Start(true)), more, rest);
    assert Start(true) !in more + rest;
    DoomedIsUnsafe(s, more + rest, n + 4);
  }

  /** The first half: a process is launched, exits, and its restart waits for its probe. */
  lemma Restarting(s: State, id: nat) returns (t: State)
    requires Books(s) && !s.fields.disposed && id in s.tasks && s.tasks[id] == StartConfigure(true)
    ensures var n := s.nextTask;
      t == From(Next(s, Start(true)),
                [Resume(n, false, true), Exit(s.host.next), Resume(n + 2, true, true), Resume(n + 3, true, true)])
    ensures Books(t) && t.nextTask == s.nextTask + 5 && t.fields.child.None? && !t.fields.disposed
    ensures id in t.tasks && t.tasks[id] == StartConfigure(true) && id < s.nextTask
    ensures s.nextTask + 4 in t.tasks && t.tasks[s.nextTask + 4].RestartProbe?
  {
    hide From, Books;
    var n, q := s.nextTask, s.host.next;
    var one := Next(s, Start(true));
    var three := Exited(s, id);
    t := Next(Next(three, Resume(n + 2, true, true)), Resume(n + 3, true, true));
    FromFour(one, Resume(n, false, true), Exit(q), Resume(n + 2, true, true), Resume(n + 3, true, true));
    RunBooksTo(s, one, t, [Resume(n, false, true), Exit(q), Resume(n + 2, true, true), Resume(n + 3, true, true)]);
  }

  lemma Exited(s: State, id: nat) returns (t: State)
    requires Books(s) && !s.fields.disposed && id in s.tasks && s.tasks[id] == StartConfigure(true)
    ensures t == Next(Next(Next(s, Start(true)), Resume(s.nextTask, false, true)), Exit(s.host.next))
    ensures t.nextTask == s.nextTask + 3 && !t.fields.disposed && t.fields.managed == Some(true)
    ensures id in t.tasks && t.tasks[id] == StartConfigure(true) && id < s.nextTask
    ensures t.fields.child == Some(s.host.next) && s.nextTask + 2 in t.tasks
    ensures t.tasks[s.nextTask + 2] == ExitNotice(s.host.next, t.fields.generation)
  {
    var n, q := s.nextTask, s.host.next;
    var two := Next(Next(s, Start(true)), Resume(n, false, true));
    assert two.fields.child == Some(q) && two.nextTask == n + 2 && two.host.generations[q] == two.fields.generation;
    assert q !in s.host.live && q !in s.host.exited;
    t := Next(two, Exit(q));
  }

  lemma RunBooksTo(s: State, one: State, t: State, more: seq<Step>)
    requires Books(s) && one == Next(s, Start(true)) && t == From(one, more)
    ensures Books(t)
  {
    hide Books, From, Next;
    StepBooks(s, Start(true));
    RunBooks(one, more);
  }

  /** The second half: the adopting start monitors, and its probe launches. */
  lemma Monitoring(t: State, id: nat) returns (u: State)
    requires Books(t) && t.nextTask >= 5 && t.fields.child.None? && !t.fields.disposed
    requires id in t.tasks && t.tasks[id] == StartConfigure(true) && id < t.nextTask - 5
    requires t.nextTask - 1 in t.tasks && t.tasks[t.nextTask - 1].RestartProbe?
    ensures u == From(t, [Resume(id, true, true), Resume(t.nextTask, true, true), Resume(t.nextTask + 1, false, true)])
    ensures Books(u) && Doomed(u, t.nextTask - 1)
  {
    var one := Next(t, Resume(id, true, true));
    assert one.tasks[t.nextTask] == MonitorWait(one.fields.generation) && one.nextTask == t.nextTask + 1;
    var two := Next(one, Resume(t.nextTask, true, true));
    assert two.tasks[t.nextTask + 1].MonitorProbe? && two.nextTask == t.nextTask + 2;
    u := Next(two, Resume(t.nextTask + 1, false, true));
    FromThree(t, Resume(id, true, true), Resume(t.nextTask, true, true), Resume(t.nextTask + 1, false, true));
    RunBooks(t, [Resume(id, true, true), Resume(t.nextTask, true, true), Resume(t.nextTask + 1, false, true)]);
  }

  lemma FromThree(s: State, first: Step, second: Step, third: Step)
    ensures From(s, [first]) == Next(s, first)
    ensures From(s, [first, second]) == Next(Next(s, first), second)
    ensures From(s, [first, second, third]) == Next(Next(Next(s, first), second), third)
  {
    hide Next, From;
    FromNone(s);
    FromNext(s, [], first);
    FromNext(s, [first], second);
    FromNext(s, [first, second], third);
    assert [] + [first] == [first] && [first] + [second] == [first, second];
    assert [first, second] + [third] == [first, second, third];
  }

  lemma FromNone(s: State)
    ensures From(s, []) == s
  {}

  lemma FromFour(s: State, first: Step, second: Step, third: Step, fourth: Step)
    ensures From(s, [first, second, third, fourth]) == Next(Next(Next(Next(s, first), second), third), fourth)
  {
    hide Next, From;
    FromThree(s, first, second, third);
    FromNext(s, [first, second, third], fourth);
    assert [first, second, third, fourth] == [first, second, third] + [fourth];
  }

  lemma {:induction false} FromAppend(s: State, a: seq<Step>, b: seq<Step>)
    ensures From(s, a + b) == From(From(s, a), b)
  {
    hide Next;
    if b == [] {
      assert a + b == a;
    } else {
      FromAppend(s, a, b[..|b| - 1]);
      assert (a + b)[..|a + b| - 1] == a + b[..|b| - 1];
    }
  }

  lemma StartReaches(s: State)
    requires Books(s) && !s.fields.disposed
    ensures Reaches(Next(s, Start(true)), [], Next(s, Start(true)), s.nextTask)
    ensures forall id <- s.tasks :: id in Next(s, Start(true)).tasks && Next(s, Start(true)).tasks[id] == s.tasks[id]
  {
    StepBooks(s, Start(true));
  }

  lemma BrokenByRunning(s: State)
    requires Books(s) && s.host.live != {}
    ensures !StartIsSafe(s)
  {
    if s.fields.disposed {
      assert !AtMostOne(From(Next(s, Start(true)), []));
    } else {
      StartReaches(s);
      DoomedIsUnsafe(s, [], s.nextTask);
    }
  }

  lemma BrokenByNotice(s: State, id: nat)
    requires Books(s) && !s.fields.disposed && s.fields.child.Some? && NoticeAt(s, id, s.fields.child.value)
    ensures !StartIsSafe(s)
  {
    hide From, StartIsSafe;
    StartReaches(s);
    var one := Next(s, Start(true));
    var step := Resume(id, true, true);
    var two := Next(one, step);
    ReachesNext(one, [], one, s.nextTask, step);
    assert DueAt(two, one.nextTask) && two.tasks[one.nextTask].RestartWait?;
    BrokenByWait(s, [] + [step], two, one.nextTask);
  }

  lemma BrokenByLauncher(s: State, id: nat)
    requires Books(s) && !s.fields.disposed && LauncherAt(s, id)
    ensures !StartIsSafe(s)
  {
    hide From, StartIsSafe;
    StartReaches(s);
    var one := Next(s, Start(true));
    assert id != s.nextTask;
    if s.tasks[id] == StartConfigure(true) {
      BrokenByConfigure(s, id);
    } else if LaunchingProbe(s.tasks[id]) {
      BrokenByProbe(s, [], one, id);
    } else if s.tasks[id].RestartWait? || s.fields.child.None? {
      BrokenByWait(s, [], one, id);
    } else {
      var poller :| PollerAt(s, poller, s.fields.child.value);
      BrokenByPolling(s, [], one, id, poller);
    }
  }

  /** Exactly when a further managed start is safe, in every state of every run, however many starts it had:
      all continuations run at most one process, recorded, if and only if none runs, and the supervisor is
      disposed or no exit notice that counts and no task that may launch is pending. */
  lemma SafeExactlyWhenStartable(steps: seq<Step>)
    ensures StartIsSafe(After(steps)) <==> Startable(After(steps))
  {
    hide After, Next, From, LauncherAt, Books;
    AllBooks(steps);
    var s := After(steps);
    if Startable(s) {
      StartableStart(s);
      StepBooks(s, Start(true));
      forall more | Start(true) !in more ensures AtMostOne(From(Next(s, Start(true)), more)) {
        CalmContinues(Next(s, Start(true)), more);
        CalmIsAtMostOne(From(Next(s, Start(true)), more));
      }
    } else if s.host.live != {} {
      BrokenByRunning(s);
    } else if !Idle(s) {
      var id :| NoticeAt(s, id, s.fields.child.value);
      BrokenByNotice(s, id);
    } else {
      var id :| LauncherAt(s, id);
      BrokenByLauncher(s, id);
    }
  }

  /** Two managed starts at once, and both probes find no node: two processes, the first unrecorded. */
  lemma TwoStartsBreakIt()
    ensures var s := After([Start(true), Start(true), Resume(0, false, true), Resume(1, false, true)]);
      s.host.live == {0, 1} && s.fields.child == Some(1)
  {
    var two := Next(Next(INITIAL, Start(true)), Start(true));
    FromFour(INITIAL, Start(true), Start(true), Resume(0, false, true), Resume(1, false, true));
    assert two.tasks[0] == StartProbe(true) && two.tasks[1] == StartProbe(true);
    var s := Next(two, Resume(0, false, true));
    assert s.host.live == {0} && s.tasks[1] == StartProbe(true);
  }

  // ---------------------------------------------------------------- old work ends

  /** A new generation settles the old ones. In every state of every run, once a restart's probe has answered or
      another probe makes its method launch, no restart or monitor that still waits counts any more, and no
      exit notice does. */
  lemma NewGenerationSettles(steps: seq<Step>, id: nat, ok: bool, spawns: bool)
    ensures var s := After(steps);
      && id in s.tasks && !s.fields.disposed
      && (s.tasks[id].RestartProbe? || (LaunchingProbe(s.tasks[id]) && !ok))
      ==> Settled(Next(s, Resume(id, ok, spawns)))
  {
    hide After;
    AllBooks(steps);
    StepSettles(After(steps), id, ok, spawns);
  }

  ghost predicate Settled(s: State) {
    (forall k :: !DueAt(s, k)) && (forall k, p :: !NoticeAt(s, k, p))
  }

  lemma StepSettles(s: State, id: nat, ok: bool, spawns: bool)
    requires Books(s)
    ensures
      && id in s.tasks && !s.fields.disposed
      && (s.tasks[id].RestartProbe? || (LaunchingProbe(s.tasks[id]) && !ok))
      ==> Settled(Next(s, Resume(id, ok, spawns)))
  {
    if id in s.tasks && !s.fields.disposed && (s.tasks[id].RestartProbe? || (LaunchingProbe(s.tasks[id]) && !ok)) {
      var t := Next(s, Resume(id, ok, spawns));
      assert t.fields.generation == s.fields.generation + 1;
      forall k | k in t.tasks
        ensures t.tasks[k].LaunchProbe? || Dated(s, t.tasks[k])
      {
        assert k in s.tasks ==> Dated(s, s.tasks[k]);
      }
    }
  }

  /** Polling is only ever of the recorded child: a step that adds a poll leaves its process recorded. So a
      launch that was superseded or disposed of stops after the await it is in. */
  lemma PollsOnlyTheRecorded(s: State, step: Step, id: nat)
    requires id in Next(s, step).tasks && Next(s, step).tasks[id].LaunchProbe?
    requires id !in s.tasks || s.tasks[id] != Next(s, step).tasks[id]
    ensures var t := Next(s, step);
      !t.fields.disposed && t.fields.child == Some(t.tasks[id].pid) && t.tasks[id].attempt < STARTUP_ATTEMPTS
  {}

  /** How many more pieces a task may run once the supervisor is disposed. */
  function Weight(t: Task): nat {
    match t
    case StartProbe(_) => 3
    case StartConfigure(_) => 2
    case LaunchProbe(_, _) => 2
    case MonitorProbe(_) => 2
    case _ => 1
  }

  function Total(tasks: map<nat, Task>, n: nat): nat {
    if n == 0 then 0 else Total(tasks, n - 1) + (if n - 1 in tasks then Weight(tasks[n - 1]) else 0)
  }

  lemma {:induction false} TotalChanged(tasks: map<nat, Task>, changed: map<nat, Task>, id: nat, n: nat)
    requires id in tasks && id < n && id !in changed
    requires forall k :: 0 <= k < n && k != id ==>
      (k in changed <==> k in tasks) && (k in tasks ==> changed[k] == tasks[k])
    ensures Total(tasks, n) == Total(changed, n) + Weight(tasks[id])
  {
    if id < n - 1 {
      TotalChanged(tasks, changed, id, n - 1);
    } else {
      TotalSame(tasks, changed, n - 1);
    }
  }

  lemma {:induction false} TotalSame(a: map<nat, Task>, b: map<nat, Task>, n: nat)
    requires forall k :: 0 <= k < n ==> (k in a <==> k in b) && (k in a ==> a[k] == b[k])
    ensures Total(a, n) == Total(b, n)
  {
    if n > 0 {
      TotalSame(a, b, n - 1);
    }
  }

  /** After a dispose everything winds down: whatever its probe answers, resuming a pending task leaves strictly
      less to run, starts nothing and stays disposed. */
  lemma DisposedWindsDown(s: State, id: nat, ok: bool, spawns: bool)
    requires Books(s) && s.fields.disposed && id in s.tasks
    ensures var t := Next(s, Resume(id, ok, spawns));
      t.fields.disposed && t.host.next == s.host.next && Total(t.tasks, t.nextTask) < Total(s.tasks, s.nextTask)
  {
    var t := Next(s, Resume(id, ok, spawns));
    var left := s.tasks - {id};
    TotalChanged(s.tasks, left, id, s.nextTask);
    TotalSame(left, t.tasks, s.nextTask);
  }

  /** So after a dispose no run resumes more pending tasks than the weight they had, counting the notices of
      processes that still exit. */
  lemma {:induction false} DisposedEnds(s: State, steps: seq<Step>)
    requires Books(s) && s.fields.disposed
    ensures From(s, steps).fields.disposed && From(s, steps).host.next == s.host.next
    ensures Resumed(s, steps) + Total(From(s, steps).tasks, From(s, steps).nextTask) <=
      Total(s.tasks, s.nextTask) + Exits(steps)
  {
    hide Next, Books, Total;
    if steps != [] {
      var n := |steps| - 1;
      DisposedEnds(s, steps[..n]);
      RunBooks(s, steps[..n]);
      DisposedStep(From(s, steps[..n]), steps[n]);
    }
  }

  lemma DisposedStep(s: State, step: Step)
    requires Books(s) && s.fields.disposed
    ensures var t := Next(s, step);
      && t.fields.disposed && t.host.next == s.host.next
      && Total(t.tasks, t.nextTask) + (if step.Resume? && step.task in s.tasks then 1 else 0) <=
         Total(s.tasks, s.nextTask) + (if step.Exit? then 1 else 0)
  {
    if step.Resume? && step.task in s.tasks {
      DisposedWindsDown(s, step.task, step.ok, step.spawns);
    } else if step.Exit? {
      TotalSame(s.tasks, Next(s, step).tasks, s.nextTask);
    }
  }

  /** How many steps of a run resumed a pending task. */
  function Resumed(s: State, steps: seq<Step>): nat {
    if steps == [] then 0
    else
      var n := |steps| - 1;
      Resumed(s, steps[..n]) + (if steps[n].Resume? && steps[n].task in From(s, steps[..n]).tasks then 1 else 0)
  }

  function Exits(steps: seq<Step>): nat {
    if steps == [] then 0 else Exits(steps[..|steps| - 1]) + (if steps[|steps| - 1].Exit? then 1 else 0)
  }

  // ---------------------------------------------------------------- polling a new process

  /** The steps of `rounds` polls that find no node, the first by task `id`; `next` is the next task's number. */
  function Polling(id: nat, next: nat, rounds: nat): seq<Step>
    decreases rounds
  {
    if rounds == 0 then []
    else [Resume(id, false, false), Resume(next, false, false)] + Polling(next + 1, next + 2, rounds - 1)
  }

  predicate PollingAt(s: State, id: nat, pid: Pid, attempt: nat) {
    && !s.fields.disposed && s.fields.child == Some(pid)
    && id in s.tasks && s.tasks[id] == LaunchProbe(pid, attempt) && id < s.nextTask
  }

  /** One poll that finds no node: the next poll, or, after the fortieth, the process is given up. */
  lemma OnePoll(s: State, id: nat, pid: Pid, attempt: nat)
    requires PollingAt(s, id, pid, attempt) && attempt < 40
    ensures var t := Next(Next(s, Resume(id, false, false)), Resume(s.nextTask, false, false));
      if attempt < 39 then
        PollingAt(t, s.nextTask + 1, pid, attempt + 1) && t.nextTask == s.nextTask + 2 && t.host == s.host
      else t.fields.child.None? && t.host.live == s.host.live - {pid}
  {
    var t := Next(s, Resume(id, false, false));
    assert t.tasks[s.nextTask] == LaunchWait(pid, attempt) && t.nextTask == s.nextTask + 1;
  }

  /** A launch polls its process forty times: left alone, it is still recorded and running after `rounds` of the
      polls that remain, and given up after the last. */
  lemma {:induction false} PollsFortyTimes(s: State, id: nat, pid: Pid, attempt: nat, rounds: nat)
    requires PollingAt(s, id, pid, attempt) && attempt < 40 && rounds <= 40 - attempt
    ensures var t := From(s, Polling(id, s.nextTask, rounds));
      if rounds < 40 - attempt then t.fields.child == Some(pid) && t.host == s.host
      else t.fields.child.None? && t.host.live == s.host.live - {pid}
    decreases rounds
  {
    hide Next, From;
    FromNone(s);
    if rounds > 0 {
      var one, two := Resume(id, false, false), Resume(s.nextTask, false, false);
      var rest := Polling(s.nextTask + 1, s.nextTask + 2, rounds - 1);
      FromThree(s, one, two, two);
      FromAppend(s, [one, two], rest);
      OnePoll(s, id, pid, attempt);
      var t := From(s, [one, two]);
      if attempt < 39 {
        PollsFortyTimes(t, s.nextTask + 1, pid, attempt + 1, rounds - 1);
      } else {
        FromNone(t);
      }
    }
  }

  /** A poll that finds the node ends the polling: its process stays recorded, and the configuration call that
      follows changes nothing more, however it goes. */
  lemma HealthyPollEnds(s: State, id: nat, pid: Pid, attempt: nat, ok: bool)
    requires PollingAt(s, id, pid, attempt) && s.nextTask !in s.tasks
    ensures var t := Next(Next(s, Resume(id, true, false)), Resume(s.nextTask, ok, false));
      t.fields == s.fields && t.host == s.host && t.tasks == s.tasks - {id}
  {
    var t := Next(s, Resume(id, true, false));
    assert t.tasks == (s.tasks - {id})[s.nextTask := LaunchConfigure];
  }

  /** From the launch on: in every state, a probe that makes its method launch records a new process, which polls
      alone keep running until the fortieth and then give up. */
  lemma LaunchPollsFortyTimes(s: State, id: nat, rounds: nat)
    requires id in s.tasks && LaunchingProbe(s.tasks[id]) && !s.fields.disposed && rounds <= 40
    ensures var t := Next(s, Resume(id, false, true));
      var u := From(t, Polling(s.nextTask, s.nextTask + 1, rounds));
      if rounds < 40 then u.fields.child == Some(s.host.next) && s.host.next in u.host.live
      else u.fields.child.None? && s.host.next !in u.host.live
  {
    hide From;
    var t := Next(s, Resume(id, false, true));
    assert t.tasks[s.nextTask] == LaunchProbe(s.host.next, 0);
    PollsFortyTimes(t, s.nextTask, s.host.next, 0, rounds);
  }
}
