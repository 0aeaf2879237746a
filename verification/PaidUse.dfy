/**
 The other side of the usage ledger: that whatever runs is billed.  A creation or rebuild that fails ends its usage but leaves it in
 the row, and a rebuild goes on with whatever usage it finds there, ended or not.
 */
module PaidUse {
  import opened Common
  import opened Lifecycle
  import opened Families
  import opened UsageLedger
  import LifecycleRuns

  /** What runs, and what is being compiled or rebuilt, has an open usage in its row. */
  ghost predicate Paid(s: State, w: Id)
    requires w in s.rows
  {
    if w in s.tasks then
      match s.tasks[w]
      case Compiling => Billing(s, w)
      case Dropping(_, _) => Billing(s, w)
      case Recompiling(_) => Billing(s, w)
      case Creating(next, _, _, usage, _) => next > 0 || usage.Some? ==> Billing(s, w)
      case _ => true
    else
      s.rows[w].status == Running ==> Billing(s, w)
  }

  ghost predicate AllPaid(s: State) {
    forall w | IsMain(s, w) :: Paid(s, w)
  }

  /** No rebuild is asked for of a workspace whose row holds an ended usage. */
  predicate PaidRebuild(s: State, a: Step) {
    a.OnRequest? && a.request.Rebuild? && a.request.w in s.rows && s.rows[a.request.w].usage.Some? ==> Billing(s, a.request.w)
  }

  lemma OtherPaid(s: State, t: State, w: Id, v: Id)
    requires Frame(s, t, w) && Rooted(s) && v != w && IsMain(s, v) && Paid(s, v)
    ensures Paid(t, v)
  {
    OtherChildren(s, t, w, v);
    assert forall u :: OpenFor(t, v, u) <==> OpenFor(s, v, u);
  }

  lemma OwnPaidRequest(s: State, a: Request, t: State)
    requires Forest(s) && AllPaid(s) && RequestNext(s, a, t) && PaidRebuild(s, OnRequest(a))
    ensures a.w in t.rows && Paid(t, a.w)
  {
    if !a.Create? {
      AcceptedIsMain(s, a.w);
    }
  }

  lemma OwnPaidBuild(s: State, a: Progress, t: State)
    requires Forest(s) && AllPaid(s) && TaskNext(s, a, t) && !a.ChildAnswer? && !a.DropChild? && !a.MainAnswer?
    ensures a.w in t.rows && Paid(t, a.w)
  {
    assert IsMain(s, a.w) && Family(s, a.w) && Paid(s, a.w);
  }

  lemma OwnPaidAnswer(s: State, a: Progress, t: State)
    requires Forest(s) && AllPaid(s) && TaskNext(s, a, t) && a.MainAnswer?
    ensures a.w in t.rows && Paid(t, a.w)
  {
    assert IsMain(s, a.w) && Family(s, a.w);
  }

  lemma OwnPaidChild(s: State, a: Progress, t: State)
    requires Forest(s) && AllPaid(s) && TaskNext(s, a, t) && (a.ChildAnswer? || a.DropChild?)
    ensures a.w in t.rows && Paid(t, a.w)
  {
    assert IsMain(s, a.w) && Family(s, a.w) && Paid(s, a.w);
    assert Written(s, a) in (if a.ChildAnswer? then s.tasks[a.w].children else s.tasks[a.w].todo);
    assert t.rows[a.w] == s.rows[a.w];
  }

  lemma PaidStep(s: State, a: Step, t: State)
    requires Forest(s) && AllPaid(s) && Next(s, a, t) && PaidRebuild(s, a)
    ensures AllPaid(t)
  {
    FramedStep(s, a, t);
    match a {
      case OnRequest(x) => OwnPaidRequest(s, x, t);
      case OnTask(x) =>
        if x.MainAnswer? {
          OwnPaidAnswer(s, x, t);
        } else if x.ChildAnswer? || x.DropChild? {
          OwnPaidChild(s, x, t);
        } else {
          OwnPaidBuild(s, x, t);
        }
    }
    forall v | IsMain(t, v)
      ensures Paid(t, v)
    {
      if v != Subject(a) {
        assert IsMain(s, v);
        OtherPaid(s, t, Subject(a), v);
      }
    }
  }

  lemma {:induction false} RunIsPaid(states: seq<State>, steps: seq<Step>, k: nat)
    requires Run(states, steps) && states[0] == Empty() && k < |states|
    requires forall i | 0 <= i < |steps| :: PaidRebuild(states[i], steps[i])
    ensures AllPaid(states[k])
  {
    if k > 0 {
      RunIsPaid(states, steps, k - 1);
      EmptyIsForest();
      RunIsForest(states, steps, k - 1);
      PaidStep(states[k - 1], steps[k - 1], states[k]);
    }
  }

  /**
   In every state of every run without an unpaid rebuild, a main workspace at rest that runs has an open usage in its row.  If the run
   is orderly too, then a main workspace at rest has exactly one open usage exactly if it runs, and none exactly if it does not.
   */
  lemma BilledExactlyWhileRunning(states: seq<State>, steps: seq<Step>, k: nat, w: Id)
    requires Run(states, steps) && states[0] == Empty() && k < |states|
    requires forall i | 0 <= i < |steps| :: PaidRebuild(states[i], steps[i])
    requires IsMain(states[k], w) && w !in states[k].tasks
    ensures states[k].rows[w].status == Running ==>
              exists u :: states[k].rows[w].usage == Some(u) && u in states[k].usages && states[k].usages[u] == Usage(w, true)
    ensures (forall i | 0 <= i < |steps| :: Orderly(states[i], steps[i])) ==>
              && (states[k].rows[w].status == Running <==> OneOpen(states[k], w))
              && (states[k].rows[w].status != Running <==> NoneOpen(states[k], w))
  {
    RunIsPaid(states, steps, k);
    assert Paid(states[k], w);
    if forall i | 0 <= i < |steps| :: Orderly(states[i], steps[i]) {
      LedgerFromTheBeginning(states, steps, k, w);
    }
  }

  // ---------- exactly when a rebuild is paid ----------

  /** A rebuild begins with an open usage exactly if the row holds none or an open one. */
  lemma RebuildPaidExact(s: State, a: Request, t: State)
    requires Forest(s) && RequestNext(s, a, t) && a.Rebuild?
    ensures a.w in s.rows && a.w in t.rows
    ensures Billing(t, a.w) <==> s.rows[a.w].usage == None || Billing(s, a.w)
  {
    AcceptedIsMain(s, a.w);
  }

  predicate Rebuilding(task: Task) {
    task.Dropping? || task.Recompiling? || (task.Creating? && task.rebuild.Some?)
  }

  /** Nothing on the way opens another: a rebuild that does not fail ends running, with the usage as open or ended as it began. */
  lemma RebuildKeepsItsUsage(s: State, a: Progress, t: State)
    requires Forest(s) && TaskNext(s, a, t) && Rebuilding(s.tasks[a.w]) && !a.TaskFails?
    ensures a.w in t.rows && t.rows[a.w].usage == s.rows[a.w].usage && (Billing(t, a.w) <==> Billing(s, a.w))
    ensures !a.FinishCreating? ==> a.w in t.tasks && Rebuilding(t.tasks[a.w])
    ensures a.FinishCreating? && s.tasks[a.w].count > 0 ==> t.rows[a.w].status == Running
  {
    assert IsMain(s, a.w) && Family(s, a.w);
    if a.DropChild? {
      assert Written(s, a) in s.tasks[a.w].todo;
    }
  }

  /** Reachable: the compilation of a new workspace fails, its rebuild succeeds, and it runs without an open usage. */
  lemma RebuiltRunsUnbilled()
    ensures var s := LifecycleRuns.Alone(Running, Some(0), LifecycleRuns.Bill([false]), map[]);
            LifecycleRuns.Reachable(s) && s.rows[0].status == Running && NoneOpen(s, 0)
  {
    Recompiled();
    var ended := LifecycleRuns.Bill([false]);
    var s5 := LifecycleRuns.Alone(Building, Some(0), ended, map[0 := Recompiling(0)]);
    var s6 := LifecycleRuns.Alone(Building, Some(0), ended, map[0 := Creating(0, 1, false, Some(0), Some(0))]);
    var s7 := LifecycleRuns.Alone(Running, Some(0), ended, map[0 := Creating(1, 1, false, Some(0), Some(0))]);
    LifecycleRuns.Reaches(s5, OnTask(GotOutput(0, false, 1)), s6);
    LifecycleRuns.Reaches(s6, OnTask(CreateMain(0, 1)), s7);
    LifecycleRuns.Reaches(s7, OnTask(FinishCreating(0)), LifecycleRuns.Alone(Running, Some(0), ended, map[]));
  }

  lemma Recompiled()
    ensures LifecycleRuns.Reachable(LifecycleRuns.Alone(Building, Some(0), LifecycleRuns.Bill([false]), map[0 := Recompiling(0)]))
  {
    FailedInCompilation();
    var ended := LifecycleRuns.Bill([false]);
    var s3 := LifecycleRuns.Alone(Failed, Some(0), ended, map[]);
    var s4 := LifecycleRuns.Alone(Building, Some(0), ended, map[0 := Dropping([], 0)]);
    LifecycleRuns.Reaches(s3, OnRequest(Rebuild(0, 1, [])), s4);
    LifecycleRuns.Reaches(s4, OnTask(StartRecompiling(0)), LifecycleRuns.Alone(Building, Some(0), ended, map[0 := Recompiling(0)]));
  }

  lemma FailedInCompilation()
    ensures LifecycleRuns.Reachable(LifecycleRuns.Alone(Failed, Some(0), LifecycleRuns.Bill([false]), map[]))
  {
    LifecycleRuns.CreatedAlone();
    var s1 := LifecycleRuns.Alone(New, None, LifecycleRuns.Bill([]), map[0 := Preparing]);
    var s2 := LifecycleRuns.Alone(Building, Some(0), LifecycleRuns.Bill([true]), map[0 := Compiling]);
    LifecycleRuns.Reaches(s1, OnTask(StartCompiling(0, 0)), s2);
    assert Closed(LifecycleRuns.Bill([true]), Some(0)) == LifecycleRuns.Bill([false]);
    LifecycleRuns.Reaches(s2, OnTask(TaskFails(0)), LifecycleRuns.Alone(Failed, Some(0), LifecycleRuns.Bill([false]), map[]));
  }
}
