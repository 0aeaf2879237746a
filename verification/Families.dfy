/**
 The families that compose builds form.  In every run they are a forest of depth one, every live child is reachable from
 its parent, and a finished build has exactly the children of its output.
 */
module Families {
  import opened Common
  import opened Lifecycle

  /** Parents, task owners and usage owners are main workspaces. */
  ghost predicate Rooted(s: State) {
    && (forall c | c in s.rows && s.rows[c].parent.Some? :: IsMain(s, s.rows[c].parent.value))
    && (forall w | w in s.tasks :: IsMain(s, w))
    && (forall u | u in s.usages :: IsMain(s, s.usages[u].owner))
  }

  ghost predicate Childless(s: State, w: Id) {
    forall c :: !LiveChild(s, c, w)
  }

  ghost predicate HasService(s: State, w: Id, k: nat) {
    exists c :: LiveChild(s, c, w) && s.rows[c].service == k
  }

  /** The live children are the services 1 to n - 1 of the build output, one row each. */
  ghost predicate Built(s: State, w: Id, n: nat) {
    && (forall c | LiveChild(s, c, w) :: 1 <= s.rows[c].service < n)
    && (forall k | 1 <= k < n :: HasService(s, w, k))
    && (forall c, d | LiveChild(s, c, w) && LiveChild(s, d, w) && c != d :: s.rows[c].service != s.rows[d].service)
  }

  ghost predicate Listed(s: State, w: Id, ids: seq<Id>) {
    NoRepeats(ids) && forall c | c in ids :: IsChildOf(s, c, w)
  }

  ghost predicate TaskFits(s: State, w: Id, task: Task)
    requires w in s.rows
  {
    match task
    case Preparing => Childless(s, w) && s.rows[w].usage == None && UnderConstruction(s.rows[w].status)
    case Compiling => Childless(s, w) && s.rows[w].status == Building
    case Recompiling(captured) => Childless(s, w) && s.rows[w].usage == Some(captured) && s.rows[w].status == Building
    case Dropping(todo, captured) =>
      && Listed(s, w, todo) && (forall c | LiveChild(s, c, w) :: c in todo)
      && s.rows[w].usage == Some(captured) && s.rows[w].status == Building
    case Creating(next, count, compose, usage, rebuild) =>
      && next <= count && (!compose ==> count == 1)
      && (next == 0 ==> s.rows[w].usage == usage && UnderConstruction(s.rows[w].status))
      && (next > 0 ==> s.rows[w].isCompose == compose && s.rows[w].status == Running)
      && (rebuild.Some? ==> s.rows[w].usage == rebuild && (next == 0 ==> usage == rebuild))
      && Built(s, w, next)
    case StartingUp(children, _) => Listed(s, w, children) && s.rows[w].status == Starting
    case ShuttingDown(children) => Listed(s, w, children) && s.rows[w].status == Stopping
    case Removing(children) => Listed(s, w, children) && s.rows[w].status == Deleting
  }

  predicate UsageOwned(s: State, w: Id)
    requires w in s.rows
  {
    s.rows[w].usage.Some? ==> s.rows[w].usage.value in s.usages && s.usages[s.rows[w].usage.value].owner == w
  }

  /** A child owns no usage, it is flagged, and while it lives its parent is flagged too, so that every request on the parent finds it. */
  ghost predicate ChildrenFlagged(s: State, w: Id)
    requires w in s.rows
  {
    forall c | IsChildOf(s, c, w) ::
      s.rows[c].isCompose && s.rows[c].usage == None && (s.rows[c].live ==> s.rows[w].isCompose)
  }

  ghost predicate Family(s: State, w: Id)
    requires w in s.rows
  {
    ChildrenFlagged(s, w) && UsageOwned(s, w) && (w in s.tasks ==> s.rows[w].live && TaskFits(s, w, s.tasks[w]))
  }

  ghost predicate Forest(s: State) {
    Rooted(s) && forall w | IsMain(s, w) :: Family(s, w)
  }

  lemma EmptyIsForest()
    ensures Forest(Empty())
  {
  }

  // ---------- a step stays in its family ----------

  predicate InFamily(s: State, v: Id, w: Id)
    requires v in s.rows
  {
    v == w || s.rows[v].parent == Some(w)
  }

  ghost predicate RowsFrame(s: State, t: State, w: Id) {
    && (forall v | v in s.rows :: v in t.rows && t.rows[v].parent == s.rows[v].parent)
    && (forall v | v in s.rows && !InFamily(s, v, w) :: t.rows[v] == s.rows[v])
    && (forall v | v in t.rows && v !in s.rows :: InFamily(t, v, w))
  }

  ghost predicate TasksFrame(s: State, t: State, w: Id) {
    forall v | v != w :: (v in s.tasks <==> v in t.tasks) && (v in s.tasks ==> t.tasks[v] == s.tasks[v])
  }

  ghost predicate UsagesFrame(s: State, t: State, w: Id) {
    && (forall u | u in s.usages :: u in t.usages && t.usages[u].owner == s.usages[u].owner)
    && (forall u | u in s.usages && s.usages[u].owner != w :: t.usages[u] == s.usages[u])
    && (forall u | u in t.usages && u !in s.usages :: t.usages[u].owner == w)
  }

  /** Only the rows, the usages and the background work of one family change. */
  ghost predicate Frame(s: State, t: State, w: Id) {
    RowsFrame(s, t, w) && TasksFrame(s, t, w) && UsagesFrame(s, t, w) && IsMain(t, w)
  }

  lemma AcceptedIsMain(s: State, w: Id)
    requires Forest(s) && Accepts(s, w)
    ensures IsMain(s, w)
  {
  }

  lemma RowFrame(s: State, t: State, w: Id, v: Id, row: Row)
    requires SetsRow(s, t, v, row)
    requires if v in s.rows then row.parent == s.rows[v].parent && InFamily(s, v, w) else v == w || row.parent == Some(w)
    ensures RowsFrame(s, t, w)
  {
  }

  lemma TaskFrame(s: State, t: State, w: Id)
    requires (exists task :: SetsTask(s, t, w, task)) || EndsTask(s, t, w) || t.tasks == s.tasks
    ensures TasksFrame(s, t, w)
  {
  }

  lemma UsageFrame(s: State, t: State, w: Id)
    requires || t.usages == s.usages
             || (exists u: Id :: u !in s.usages && t.usages == s.usages[u := Usage(w, true)])
             || (exists u: Id :: (u in s.usages ==> s.usages[u].owner == w) && t.usages == Closed(s.usages, Some(u)))
    ensures UsagesFrame(s, t, w)
  {
  }

  lemma FramedRequest(s: State, a: Request, t: State)
    requires Forest(s) && RequestNext(s, a, t)
    ensures Frame(s, t, a.w)
  {
    if a.Create? {
      RowFrame(s, t, a.w, a.w, t.rows[a.w]);
    } else {
      AcceptedIsMain(s, a.w);
      assert Family(s, a.w);
      RowFrame(s, t, a.w, a.w, t.rows[a.w]);
    }
    TaskFrame(s, t, a.w);
    UsageFrame(s, t, a.w);
  }

  /** The row that a task writes next. */
  function Written(s: State, a: Progress): Id
    requires a.w in s.tasks
  {
    var task := s.tasks[a.w];
    if a.DropChild? && task.Dropping? && task.todo != [] then task.todo[0]
    else if a.ChildAnswer? && (task.StartingUp? || task.ShuttingDown? || task.Removing?) && task.children != [] then task.children[0]
    else if a.CreateChild? then a.newId
    else a.w
  }

  /** That row is the main one, a child of it, or a new child. */
  lemma WrittenIsFamily(s: State, a: Progress, t: State)
    requires Forest(s) && TaskNext(s, a, t)
    ensures var v := Written(s, a);
            if v in s.rows then InFamily(s, v, a.w) else a.CreateChild?
  {
    assert IsMain(s, a.w) && Family(s, a.w);
    if a.DropChild? {
      assert Written(s, a) in s.tasks[a.w].todo;
    } else if a.ChildAnswer? {
      assert Written(s, a) in s.tasks[a.w].children;
    }
  }

  lemma OnlyWritten(s: State, a: Progress, t: State)
    requires TaskNext(s, a, t)
    ensures var v := Written(s, a);
            || t.rows == s.rows
            || (v in t.rows && SetsRow(s, t, v, t.rows[v])
                && (if v in s.rows then t.rows[v].parent == s.rows[v].parent else t.rows[v].parent == Some(a.w)))
  {
  }

  lemma WrittenInFamily(s: State, a: Progress, t: State)
    requires Forest(s) && TaskNext(s, a, t)
    ensures RowsFrame(s, t, a.w)
  {
    var v := Written(s, a);
    WrittenIsFamily(s, a, t);
    OnlyWritten(s, a, t);
    if t.rows != s.rows {
      RowFrame(s, t, a.w, v, t.rows[v]);
    }
  }

  lemma FramedTask(s: State, a: Progress, t: State)
    requires Forest(s) && TaskNext(s, a, t)
    ensures Frame(s, t, a.w)
  {
    assert IsMain(s, a.w);
    WrittenInFamily(s, a, t);
    TaskFrame(s, t, a.w);
    TaskUsages(s, a, t);
  }

  lemma TaskUsages(s: State, a: Progress, t: State)
    requires Forest(s) && TaskNext(s, a, t)
    ensures UsagesFrame(s, t, a.w)
  {
    assert IsMain(s, a.w) && Family(s, a.w);
    UsageFrame(s, t, a.w);
  }

  // ---------- the other families ----------

  lemma RootedFrame(s: State, t: State, w: Id)
    requires Rooted(s) && Frame(s, t, w)
    ensures Rooted(t)
  {
  }

  lemma OtherChildren(s: State, t: State, w: Id, v: Id)
    requires Frame(s, t, w) && Rooted(s) && v != w && IsMain(s, v)
    ensures t.rows[v] == s.rows[v]
    ensures forall c :: IsChildOf(t, c, v) <==> IsChildOf(s, c, v)
    ensures forall c | IsChildOf(s, c, v) :: t.rows[c] == s.rows[c]
  {
  }

  lemma OtherFamily(s: State, t: State, w: Id, v: Id)
    requires Frame(s, t, w) && Rooted(s) && v != w && IsMain(s, v) && Family(s, v)
    ensures Family(t, v)
  {
    OtherChildren(s, t, w, v);
    assert forall c :: LiveChild(t, c, v) <==> LiveChild(s, c, v);
    ServicesKept(s, t, v);
  }

  // ---------- the family itself ----------

  lemma SameChildren(s: State, t: State, w: Id)
    requires w in s.rows && w in t.rows && t.rows == s.rows[w := t.rows[w]] && t.rows[w].parent == s.rows[w].parent == None
    ensures forall c :: (IsChildOf(t, c, w) <==> IsChildOf(s, c, w)) && (LiveChild(t, c, w) <==> LiveChild(s, c, w))
    ensures forall c | IsChildOf(s, c, w) :: t.rows[c] == s.rows[c]
    ensures forall n: nat :: Built(s, w, n) ==> Built(t, w, n)
  {
    assert forall c :: LiveChild(t, c, w) <==> LiveChild(s, c, w);
    ServicesKept(s, t, w);
  }

  lemma ServicesKept(s: State, t: State, w: Id)
    requires forall c | LiveChild(s, c, w) :: LiveChild(t, c, w) && t.rows[c].service == s.rows[c].service
    ensures forall k: nat | HasService(s, w, k) :: HasService(t, w, k)
  {
  }

  lemma OwnFamilyRequest(s: State, a: Request, t: State)
    requires Forest(s) && RequestNext(s, a, t)
    ensures Family(t, a.w)
  {
    var w := a.w;
    if a.Create? {
      assert forall c :: !IsChildOf(s, c, w);
    } else {
      AcceptedIsMain(s, w);
      assert Family(s, w);
      SameChildren(s, t, w);
    }
  }

  lemma ChildlessIsBuilt(s: State, w: Id)
    requires Childless(s, w)
    ensures Built(s, w, 0) && Built(s, w, 1)
  {
  }

  lemma BuiltIsChildless(s: State, w: Id, n: nat)
    requires Built(s, w, n) && n <= 1
    ensures Childless(s, w)
  {
  }

  /** Steps that write no row but the main one. */
  lemma OwnFamilyMain(s: State, a: Progress, t: State)
    requires Forest(s) && TaskNext(s, a, t)
    requires a.SetPreparing? || a.StartCompiling? || a.StartRecompiling? || a.GotOutput? || a.FinishCreating? || a.TaskFails?
    ensures Family(t, a.w)
  {
    assert Family(s, a.w) && IsMain(s, a.w);
    SameChildren(s, t, a.w);
    if a.GotOutput? {
      ChildlessIsBuilt(t, a.w);
    }
  }

  lemma OwnFamilyAnswer(s: State, a: Progress, t: State)
    requires Forest(s) && TaskNext(s, a, t) && a.MainAnswer?
    ensures Family(t, a.w)
  {
    assert Family(s, a.w) && IsMain(s, a.w);
    SameChildren(s, t, a.w);
  }

  lemma OwnFamilyCreateMain(s: State, a: Progress, t: State)
    requires Forest(s) && TaskNext(s, a, t) && a.CreateMain?
    ensures Family(t, a.w)
  {
    assert Family(s, a.w) && IsMain(s, a.w);
    SameChildren(s, t, a.w);
    BuiltIsChildless(s, a.w, 0);
    ChildlessIsBuilt(t, a.w);
  }

  lemma BuiltNext(s: State, t: State, w: Id, c: Id, n: nat)
    requires Built(s, w, n) && n >= 1 && c !in s.rows && LiveChild(t, c, w)
    requires t.rows == s.rows[c := t.rows[c]] && t.rows[c].service == n
    ensures Built(t, w, n + 1)
  {
    assert forall d | d != c :: LiveChild(t, d, w) <==> LiveChild(s, d, w);
    NextServiceIsThere(s, t, w, c, n);
  }

  lemma NextServiceIsThere(s: State, t: State, w: Id, c: Id, n: nat)
    requires forall k | 1 <= k < n :: HasService(s, w, k)
    requires forall d | LiveChild(s, d, w) :: LiveChild(t, d, w) && t.rows[d].service == s.rows[d].service
    requires LiveChild(t, c, w) && t.rows[c].service == n
    ensures forall k | 1 <= k < n + 1 :: HasService(t, w, k)
  {
    ServicesKept(s, t, w);
    assert HasService(t, w, n);
  }

  lemma OwnFamilyCreateChild(s: State, a: Progress, t: State)
    requires Forest(s) && TaskNext(s, a, t) && a.CreateChild?
    ensures Family(t, a.w)
  {
    assert Family(s, a.w) && IsMain(s, a.w);
    BuiltNext(s, t, a.w, a.newId, s.tasks[a.w].next);
  }

  /** A child's own row changes, and stays a flagged child. */
  lemma ChildRow(s: State, t: State, w: Id, c: Id)
    requires IsMain(s, w) && ChildrenFlagged(s, w) && IsChildOf(s, c, w) && c in t.rows && t.rows == s.rows[c := t.rows[c]]
    requires t.rows[c].(status := s.rows[c].status, live := s.rows[c].live) == s.rows[c] && (t.rows[c].live ==> s.rows[c].live)
    ensures w in t.rows && t.rows[w] == s.rows[w] && ChildrenFlagged(t, w)
    ensures forall d :: (IsChildOf(t, d, w) <==> IsChildOf(s, d, w)) && (LiveChild(t, d, w) ==> LiveChild(s, d, w))
  {
  }

  lemma OwnFamilyDropChild(s: State, a: Progress, t: State)
    requires Forest(s) && TaskNext(s, a, t) && a.DropChild?
    ensures Family(t, a.w)
  {
    assert Family(s, a.w) && IsMain(s, a.w);
    var todo := s.tasks[a.w].todo;
    assert todo[0] in todo && todo == [todo[0]] + todo[1..];
    ChildRow(s, t, a.w, todo[0]);
  }

  lemma OwnFamilyChildAnswer(s: State, a: Progress, t: State)
    requires Forest(s) && TaskNext(s, a, t) && a.ChildAnswer?
    ensures Family(t, a.w)
  {
    assert Family(s, a.w) && IsMain(s, a.w);
    var children := s.tasks[a.w].children;
    assert children[0] in children;
    ChildRow(s, t, a.w, children[0]);
    TailListed(s, t, a.w, children);
  }

  lemma TailListed(s: State, t: State, w: Id, ids: seq<Id>)
    requires Listed(s, w, ids) && ids != [] && forall c | IsChildOf(s, c, w) :: IsChildOf(t, c, w)
    ensures Listed(t, w, ids[1..])
  {
    assert forall c | c in ids[1..] :: c in ids;
  }

  lemma OwnFamilyTask(s: State, a: Progress, t: State)
    requires Forest(s) && TaskNext(s, a, t)
    ensures a.w in t.rows && Family(t, a.w)
  {
    match a
    case CreateMain(_, _) => OwnFamilyCreateMain(s, a, t);
    case CreateChild(_, _) => OwnFamilyCreateChild(s, a, t);
    case DropChild(_) => OwnFamilyDropChild(s, a, t);
    case ChildAnswer(_, _) => OwnFamilyChildAnswer(s, a, t);
    case MainAnswer(_, _, _) => OwnFamilyAnswer(s, a, t);
    case _ => OwnFamilyMain(s, a, t);
  }

  lemma FramedStep(s: State, a: Step, t: State)
    requires Forest(s) && Next(s, a, t)
    ensures Frame(s, t, Subject(a))
  {
    match a
    case OnRequest(x) => FramedRequest(s, x, t);
    case OnTask(x) => FramedTask(s, x, t);
  }

  lemma ForestStep(s: State, a: Step, t: State)
    requires Forest(s) && Next(s, a, t)
    ensures Forest(t)
  {
    FramedStep(s, a, t);
    RootedFrame(s, t, Subject(a));
    match a {
      case OnRequest(x) => OwnFamilyRequest(s, x, t);
      case OnTask(x) => OwnFamilyTask(s, x, t);
    }
    forall v | IsMain(t, v)
      ensures Family(t, v)
    {
      if v != Subject(a) {
        assert IsMain(s, v);
        OtherFamily(s, t, Subject(a), v);
      }
    }
  }

  /** Families are a forest of depth one in every state of every run. */
  lemma {:induction false} RunIsForest(states: seq<State>, steps: seq<Step>, k: nat)
    requires Run(states, steps) && Forest(states[0]) && k < |states|
    ensures Forest(states[k])
  {
    if k > 0 {
      RunIsForest(states, steps, k - 1);
      ForestStep(states[k - 1], steps[k - 1], states[k]);
    }
  }

  /** In the words of the tables: depth one, flags on both ends, and no usage on a child. */
  lemma ForestMeans(s: State, c: Id)
    requires Forest(s) && c in s.rows && s.rows[c].parent.Some?
    ensures var p := s.rows[c].parent.value;
            && p in s.rows && s.rows[p].parent == None
            && s.rows[c].isCompose && s.rows[c].usage == None
            && (s.rows[c].live ==> s.rows[p].isCompose)
            && (forall u | u in s.usages :: s.usages[u].owner != c)
            && !Accepts(s, c)
  {
  }

  /** Whatever a request asks the children of, it asks all of them. */
  lemma RequestReachesAllChildren(s: State, a: Request, t: State, c: Id)
    requires Forest(s) && RequestNext(s, a, t) && !a.Create? && LiveChild(s, c, a.w)
    ensures c in a.children
  {
  }

  /** When a creation or a rebuild succeeds, the live children are the services 1 to n - 1 of the build output. */
  lemma FinishedBuildHasItsServices(s: State, a: Progress, t: State)
    requires Forest(s) && TaskNext(s, a, t) && a.FinishCreating?
    ensures Built(t, a.w, s.tasks[a.w].count)
    ensures s.tasks[a.w].count > 0 ==> t.rows[a.w].status == Running && t.rows[a.w].isCompose == s.tasks[a.w].compose
  {
    assert IsMain(s, a.w) && Family(s, a.w);
    SameChildren(s, t, a.w);
  }
}
