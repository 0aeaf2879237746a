/**
 The life of workspaces: create, start, stop, rebuild and delete requests, the background task each of them leaves behind,
 the usage ledger, and the families that compose builds form.  A background task is a program counter per main workspace;
 every transaction or update it makes is a step, and tasks of different workspaces interleave freely.  Answers from
 the workspace host are arbitrary.  A request is taken only while no task of that workspace is under way.
 */
module Lifecycle {
  import opened Common

  datatype Status =
    | New | PrebuildBuilding | PrebuildCopying | Building | Running | Failed | Starting | Stopping | Stopped
    | StopFailed | Deleting | Deleted | DeleteFailed

  /** `service` is the position of the row's service in the build output it was made from; 0 for a main workspace. */
  datatype Row = Row(live: bool, status: Status, usage: Option<Id>, isCompose: bool, parent: Option<Id>, service: nat)

  datatype Usage = Usage(owner: Id, open: bool)

  /** Where the background task of a workspace is.  `captured` and `rebuild` hold the usage a rebuild remembers for its error handler. */
  datatype Task =
    | Preparing
    | Compiling
    | Dropping(todo: seq<Id>, captured: Id)
    | Recompiling(captured: Id)
    | Creating(next: nat, count: nat, compose: bool, usage: Option<Id>, rebuild: Option<Id>)
    | StartingUp(children: seq<Id>, waiting: bool)
    | ShuttingDown(children: seq<Id>)
    | Removing(children: seq<Id>)

  datatype State = State(rows: map<Id, Row>, usages: map<Id, Usage>, tasks: map<Id, Task>)

  /** The answer of a workspace host: done, refused, or no answer at all. */
  datatype Outcome = Done | Refused | NoAnswer

  /** `reached`: the host's RPC client was found. */
  datatype Request =
    | Create(w: Id)
    | Start(w: Id, reached: bool, children: seq<Id>)
    | AutoStart(d: Id, w: Id, reached: bool, children: seq<Id>)
    | Stop(w: Id, reached: bool, children: seq<Id>)
    | Rebuild(w: Id, newId: Id, children: seq<Id>)
    | Delete(w: Id, children: seq<Id>)

  datatype Progress =
    | SetPreparing(w: Id, status: Status)
    | StartCompiling(w: Id, newId: Id)
    | DropChild(w: Id)
    | StartRecompiling(w: Id)
    | GotOutput(w: Id, compose: bool, count: nat)
    | CreateMain(w: Id, newId: Id)
    | CreateChild(w: Id, newId: Id)
    | FinishCreating(w: Id)
    | TaskFails(w: Id)
    | ChildAnswer(w: Id, outcome: Outcome)
    | MainAnswer(w: Id, outcome: Outcome, newId: Id)

  datatype Step = OnRequest(request: Request) | OnTask(progress: Progress)

  // ---------- requests ----------

  predicate IsChildOf(s: State, c: Id, w: Id) {
    c in s.rows && s.rows[c].parent == Some(w)
  }

  predicate LiveChild(s: State, c: Id, w: Id) {
    IsChildOf(s, c, w) && s.rows[c].live
  }

  predicate NoRepeats(ids: seq<Id>) {
    forall i, j | 0 <= i < j < |ids| :: ids[i] != ids[j]
  }

  /** What the query for compose services returns, each once: nothing is looked up unless the row is flagged. */
  ghost predicate Services(s: State, w: Id, children: seq<Id>)
    requires w in s.rows
  {
    NoRepeats(children) && forall c :: c in children <==> s.rows[w].isCompose && LiveChild(s, c, w)
  }

  predicate IsMain(s: State, w: Id) {
    w in s.rows && s.rows[w].parent == None
  }

  /** The row is found, no task of it is under way, and it is not refused as a compose service. */
  predicate Accepts(s: State, w: Id) {
    w in s.rows && s.rows[w].live && w !in s.tasks && !(s.rows[w].isCompose && s.rows[w].parent != None)
  }

  predicate UnderConstruction(status: Status) {
    status == PrebuildBuilding || status == Building || status == PrebuildCopying || status == New
  }

  function Closed(usages: map<Id, Usage>, usage: Option<Id>): map<Id, Usage> {
    if usage.Some? && usage.value in usages then usages[usage.value := usages[usage.value].(open := false)] else usages
  }

  predicate SetsRow(s: State, t: State, w: Id, row: Row) {
    t.rows == s.rows[w := row]
  }

  predicate SetsTask(s: State, t: State, w: Id, task: Task) {
    t.tasks == s.tasks[w := task]
  }

  predicate EndsTask(s: State, t: State, w: Id) {
    t.tasks == s.tasks - {w}
  }

  /** The family to start once the status is written; without an RPC client the request ends there. */
  ghost predicate Launches(s: State, t: State, w: Id, reached: bool, children: seq<Id>, waiting: bool)
    requires w in s.rows
  {
    && Services(s, w, children)
    && SetsRow(s, t, w, s.rows[w].(status := Starting))
    && t.usages == s.usages
    && if reached then SetsTask(s, t, w, StartingUp(children, waiting)) else t.tasks == s.tasks
  }

  ghost predicate RequestNext(s: State, a: Request, t: State) {
    match a
    case Create(w) =>
      && w !in s.rows
      && SetsRow(s, t, w, Row(true, New, None, false, None, 0))
      && t.usages == s.usages && SetsTask(s, t, w, Preparing)
    case Start(w, reached, children) =>
      Accepts(s, w) && s.rows[w].status != Running && Launches(s, t, w, reached, children, false)
    case AutoStart(d, w, reached, children) =>
      && d in s.rows && s.rows[d].live && s.rows[d].status == Stopped
      && w == (if s.rows[d].isCompose && s.rows[d].parent.Some? then s.rows[d].parent.value else d)
      && Accepts(s, w) && Launches(s, t, w, reached, children, true)
    case Stop(w, reached, children) =>
      && Accepts(s, w) && s.rows[w].status != Stopped && Services(s, w, children)
      && SetsRow(s, t, w, s.rows[w].(status := Stopping, usage := None))
      && t.usages == Closed(s.usages, s.rows[w].usage)
      && if reached then SetsTask(s, t, w, ShuttingDown(children)) else t.tasks == s.tasks
    case Rebuild(w, newId, children) =>
      && Accepts(s, w) && !UnderConstruction(s.rows[w].status) && Services(s, w, children)
      && var usage := if s.rows[w].usage.Some? then s.rows[w].usage.value else newId;
         && SetsRow(s, t, w, s.rows[w].(status := Building, usage := Some(usage)))
         && (s.rows[w].usage == None ==> newId !in s.usages)
         && t.usages == (if s.rows[w].usage == None then s.usages[newId := Usage(w, true)] else s.usages)
         && SetsTask(s, t, w, Dropping(children, usage))
    case Delete(w, children) =>
      && Accepts(s, w) && !UnderConstruction(s.rows[w].status) && Services(s, w, children)
      && SetsRow(s, t, w, s.rows[w].(status := Deleting, usage := None))
      && t.usages == Closed(s.usages, s.rows[w].usage)
      && SetsTask(s, t, w, Removing(children))
  }

  // ---------- background tasks ----------

  /** What the host's answer makes of a row. */
  function Answered(row: Row, task: Task, outcome: Outcome, usage: Option<Id>): Row
    requires task.StartingUp? || task.ShuttingDown? || task.Removing?
  {
    if outcome == NoAnswer then row
    else match task
      case StartingUp(_, _) => if outcome == Done then row.(status := Running, usage := usage) else row.(status := Failed)
      case ShuttingDown(_) => row.(status := if outcome == Done then Stopped else StopFailed)
      case Removing(_) => if outcome == Done then row.(status := Deleted, live := false) else row.(status := DeleteFailed)
  }

  predicate Answering(s: State, w: Id) {
    w in s.tasks && w in s.rows && (s.tasks[w].StartingUp? || s.tasks[w].ShuttingDown? || s.tasks[w].Removing?)
  }

  /** The first child is dealt with; a start that its caller waits for gives up when a host does not answer. */
  predicate ChildAnswered(s: State, w: Id, outcome: Outcome, t: State)
    requires Answering(s, w)
  {
    var task := s.tasks[w];
    && task.children != [] && task.children[0] in s.rows
    && var c := task.children[0];
       && SetsRow(s, t, c, Answered(s.rows[c], task, outcome, None))
       && t.usages == s.usages
       && if task.StartingUp? && task.waiting && outcome == NoAnswer then EndsTask(s, t, w)
          else SetsTask(s, t, w, task.(children := task.children[1..]))
  }

  predicate MainAnswered(s: State, w: Id, outcome: Outcome, newId: Id, t: State)
    requires Answering(s, w)
  {
    var task := s.tasks[w];
    && task.children == []
    && SetsRow(s, t, w, Answered(s.rows[w], task, outcome, Some(newId)))
    && EndsTask(s, t, w)
    && if task.StartingUp? && outcome == Done then newId !in s.usages && t.usages == s.usages[newId := Usage(w, true)]
       else t.usages == s.usages
  }

  /** The first service of a build output becomes the main workspace itself. */
  predicate MainCreated(s: State, w: Id, newId: Id, t: State)
    requires w in s.tasks && s.tasks[w].Creating? && w in s.rows
  {
    var task := s.tasks[w];
    && task.next == 0 < task.count
    && var usage := if task.usage.Some? then task.usage.value else newId;
       && SetsRow(s, t, w, s.rows[w].(status := Running, isCompose := task.compose, usage := Some(usage)))
       && (task.usage == None ==> newId !in s.usages)
       && t.usages == (if task.usage == None then s.usages[newId := Usage(w, true)] else s.usages)
       && SetsTask(s, t, w, task.(next := 1))
  }

  /** Every further service gets a row of its own that points back at the main workspace. */
  predicate ChildCreated(s: State, w: Id, newId: Id, t: State)
    requires w in s.tasks && s.tasks[w].Creating? && w in s.rows
  {
    var task := s.tasks[w];
    && 0 < task.next < task.count && newId !in s.rows
    && SetsRow(s, t, newId, Row(true, Running, None, task.compose, Some(w), task.next))
    && t.usages == s.usages
    && SetsTask(s, t, w, task.(next := task.next + 1))
  }

  predicate Fallible(task: Task) {
    task.Preparing? || task.Compiling? || task.Dropping? || task.Recompiling? || (task.Creating? && task.next < task.count)
  }

  /** The usage that the error handler ends: a rebuild remembers it, a creation reads it from the row again. */
  function ToEnd(row: Row, task: Task): Option<Id> {
    match task
    case Dropping(_, captured) => Some(captured)
    case Recompiling(captured) => Some(captured)
    case Creating(_, _, _, _, rebuild) => if rebuild.Some? then rebuild else row.usage
    case _ => row.usage
  }

  predicate TaskNext(s: State, a: Progress, t: State) {
    && a.w in s.tasks && a.w in s.rows
    && var w, row, task := a.w, s.rows[a.w], s.tasks[a.w];
       match a
       case SetPreparing(_, status) =>
         && task.Preparing? && (status == PrebuildBuilding || status == PrebuildCopying)
         && SetsRow(s, t, w, row.(status := status)) && t.usages == s.usages && t.tasks == s.tasks
       case StartCompiling(_, newId) =>
         && task.Preparing? && newId !in s.usages
         && SetsRow(s, t, w, row.(status := Building, usage := Some(newId)))
         && t.usages == s.usages[newId := Usage(w, true)] && SetsTask(s, t, w, Compiling)
       case DropChild(_) =>
         && task.Dropping? && task.todo != [] && task.todo[0] in s.rows
         && SetsRow(s, t, task.todo[0], s.rows[task.todo[0]].(live := false, status := Deleted))
         && t.usages == s.usages && SetsTask(s, t, w, task.(todo := task.todo[1..]))
       case StartRecompiling(_) =>
         && task.Dropping? && task.todo == []
         && t.rows == s.rows && t.usages == s.usages && SetsTask(s, t, w, Recompiling(task.captured))
       case GotOutput(_, compose, count) =>
         && (task.Preparing? || task.Compiling? || task.Recompiling?) && (!compose ==> count == 1)
         && t.rows == s.rows && t.usages == s.usages
         && SetsTask(s, t, w, Creating(0, count, compose, row.usage, if task.Recompiling? then Some(task.captured) else None))
       case CreateMain(_, newId) => task.Creating? && MainCreated(s, w, newId, t)
       case CreateChild(_, newId) => task.Creating? && ChildCreated(s, w, newId, t)
       case FinishCreating(_) =>
         task.Creating? && task.next == task.count && t.rows == s.rows && t.usages == s.usages && EndsTask(s, t, w)
       case TaskFails(_) =>
         && Fallible(task)
         && SetsRow(s, t, w, row.(status := Failed)) && t.usages == Closed(s.usages, ToEnd(row, task)) && EndsTask(s, t, w)
       case ChildAnswer(_, outcome) => Answering(s, w) && ChildAnswered(s, w, outcome, t)
       case MainAnswer(_, outcome, newId) => Answering(s, w) && MainAnswered(s, w, outcome, newId, t)
  }

  ghost predicate Next(s: State, a: Step, t: State) {
    match a
    case OnRequest(x) => RequestNext(s, x, t)
    case OnTask(x) => TaskNext(s, x, t)
  }

  ghost predicate Run(states: seq<State>, steps: seq<Step>) {
    |states| == |steps| + 1 && forall i | 0 <= i < |steps| :: Next(states[i], steps[i], states[i + 1])
  }

  function Empty(): State {
    State(map[], map[], map[])
  }

  /** The main workspace whose family a step is about. */
  function Subject(a: Step): Id {
    match a
    case OnRequest(x) => x.w
    case OnTask(x) => x.w
  }
}
