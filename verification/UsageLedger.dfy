/**
 The usage ledger of the workspaces: what a main workspace is billed for at any time.
 */
module UsageLedger {
  import opened Common
  import opened Lifecycle
  import opened Families

  predicate OpenFor(s: State, w: Id, u: Id) {
    u in s.usages && s.usages[u].owner == w && s.usages[u].open
  }

  ghost predicate NoneOpen(s: State, w: Id) {
    forall u :: !OpenFor(s, w, u)
  }

  ghost predicate OneOpen(s: State, w: Id) {
    exists u :: OpenFor(s, w, u) && forall v :: OpenFor(s, w, v) ==> v == u
  }

  /** At most one usage is open, and it is the one in the row. */
  ghost predicate OnlyCurrent(s: State, w: Id)
    requires w in s.rows
  {
    forall u: Id | OpenFor(s, w, u) :: s.rows[w].usage == Some(u)
  }

  /** Without a task under way, a usage is open only for a running workspace. */
  ghost predicate AtRest(s: State, w: Id)
    requires w in s.rows
  {
    w !in s.tasks && s.rows[w].status != Running ==> NoneOpen(s, w)
  }

  ghost predicate TaskBilled(s: State, w: Id, task: Task) {
    && (task.StartingUp? || task.ShuttingDown? || task.Removing? ==> NoneOpen(s, w))
    && (task.Creating? ==> task.count > 0)
  }

  ghost predicate Billed(s: State, w: Id)
    requires w in s.rows
  {
    OnlyCurrent(s, w) && AtRest(s, w) && (w in s.tasks ==> TaskBilled(s, w, s.tasks[w]))
  }

  ghost predicate Ledger(s: State) {
    forall w | IsMain(s, w) :: Billed(s, w)
  }

  /** A build has at least one service, and nobody's login starts a family whose main workspace is running. */
  predicate Orderly(s: State, a: Step) {
    && (a.OnTask? && a.progress.GotOutput? ==> a.progress.count > 0)
    && (a.OnRequest? && a.request.AutoStart? && a.request.w in s.rows ==> s.rows[a.request.w].status != Running)
  }

  lemma EmptyLedger()
    ensures Ledger(Empty())
  {
  }

  lemma OtherBill(s: State, t: State, w: Id, v: Id)
    requires Frame(s, t, w) && Rooted(s) && v != w && IsMain(s, v) && Billed(s, v)
    ensures Billed(t, v)
  {
    OtherChildren(s, t, w, v);
    assert forall u :: OpenFor(t, v, u) <==> OpenFor(s, v, u);
  }

  // ---------- how usages change ----------

  lemma OpensOne(s: State, t: State, w: Id, u: Id)
    requires NoneOpen(s, w) && u !in s.usages && t.usages == s.usages[u := Usage(w, true)]
    ensures forall v :: OpenFor(t, w, v) <==> v == u
  {
    assert forall v :: v != u && OpenFor(t, w, v) ==> OpenFor(s, w, v);
  }

  lemma ClosesAll(s: State, t: State, w: Id)
    requires w in s.rows && OnlyCurrent(s, w) && t.usages == Closed(s.usages, s.rows[w].usage)
    ensures NoneOpen(t, w)
  {
    assert forall u :: OpenFor(t, w, u) ==> OpenFor(s, w, u);
  }

  lemma SameUsages(s: State, t: State, w: Id)
    requires t.usages == s.usages
    ensures forall u :: OpenFor(t, w, u) <==> OpenFor(s, w, u)
  {
  }

  lemma OwnBillRequest(s: State, a: Request, t: State)
    requires Forest(s) && Ledger(s) && RequestNext(s, a, t) && Orderly(s, OnRequest(a))
    ensures a.w in t.rows && Billed(t, a.w)
  {
    var w := a.w;
    if a.Create? {
      assert NoneOpen(s, w);
      SameUsages(s, t, w);
    } else {
      AcceptedIsMain(s, w);
      assert Billed(s, w);
      if a.Start? || a.AutoStart? {
        SameUsages(s, t, w);
      } else if a.Rebuild? {
        if s.rows[w].usage == None {
          OpensOne(s, t, w, a.newId);
        } else {
          SameUsages(s, t, w);
        }
      } else {
        ClosesAll(s, t, w);
      }
    }
  }

  lemma OwnBillTask(s: State, a: Progress, t: State)
    requires Forest(s) && Ledger(s) && TaskNext(s, a, t) && Orderly(s, OnTask(a))
    ensures a.w in t.rows && Billed(t, a.w)
  {
    assert IsMain(s, a.w) && Billed(s, a.w);
    match a
    case StartCompiling(_, _) => OwnBillBuild(s, a, t);
    case CreateMain(_, _) => OwnBillBuild(s, a, t);
    case TaskFails(_) => OwnBillFails(s, a, t);
    case MainAnswer(_, _, _) => OwnBillAnswer(s, a, t);
    case ChildAnswer(_, _) => OwnBillChild(s, a, t);
    case DropChild(_) => OwnBillChild(s, a, t);
    case _ => OwnBillQuiet(s, a, t);
  }

  lemma OwnBillBuild(s: State, a: Progress, t: State)
    requires Forest(s) && TaskNext(s, a, t) && (a.StartCompiling? || a.CreateMain?) && Billed(s, a.w)
    ensures a.w in t.rows && Billed(t, a.w)
  {
    assert IsMain(s, a.w) && Family(s, a.w);
    if a.StartCompiling? || s.tasks[a.w].usage == None {
      OpensOne(s, t, a.w, a.newId);
    } else {
      SameUsages(s, t, a.w);
    }
  }

  lemma OwnBillFails(s: State, a: Progress, t: State)
    requires Forest(s) && TaskNext(s, a, t) && a.TaskFails? && Billed(s, a.w)
    ensures a.w in t.rows && Billed(t, a.w)
  {
    assert IsMain(s, a.w) && Family(s, a.w);
    ClosesAll(s, t, a.w);
  }

  /** Steps that leave the usages alone. */
  lemma OwnBillQuiet(s: State, a: Progress, t: State)
    requires Forest(s) && TaskNext(s, a, t) && Billed(s, a.w) && Orderly(s, OnTask(a))
    requires a.SetPreparing? || a.StartRecompiling? || a.GotOutput? || a.CreateChild? || a.FinishCreating?
    ensures a.w in t.rows && Billed(t, a.w)
  {
    assert IsMain(s, a.w) && Family(s, a.w);
    SameUsages(s, t, a.w);
  }

  lemma OwnBillAnswer(s: State, a: Progress, t: State)
    requires Forest(s) && TaskNext(s, a, t) && a.MainAnswer? && Billed(s, a.w)
    ensures a.w in t.rows && Billed(t, a.w)
  {
    if s.tasks[a.w].StartingUp? && a.outcome == Done {
      OpensOne(s, t, a.w, a.newId);
    } else {
      SameUsages(s, t, a.w);
    }
  }

  lemma OwnBillChild(s: State, a: Progress, t: State)
    requires Forest(s) && TaskNext(s, a, t) && (a.ChildAnswer? || a.DropChild?) && Billed(s, a.w)
    ensures a.w in t.rows && Billed(t, a.w)
  {
    SameUsages(s, t, a.w);
    var c := Written(s, a);
    assert IsMain(s, a.w) && Family(s, a.w);
    if a.ChildAnswer? {
      assert c in s.tasks[a.w].children;
    } else {
      assert c in s.tasks[a.w].todo;
    }
    assert t.rows[a.w] == s.rows[a.w];
  }

  lemma LedgerStep(s: State, a: Step, t: State)
    requires Forest(s) && Ledger(s) && Next(s, a, t) && Orderly(s, a)
    ensures Ledger(t)
  {
    FramedStep(s, a, t);
    match a {
      case OnRequest(x) => OwnBillRequest(s, x, t);
      case OnTask(x) => OwnBillTask(s, x, t);
    }
    forall v | IsMain(t, v)
      ensures Billed(t, v)
    {
      if v != Subject(a) {
        assert IsMain(s, v);
        OtherBill(s, t, Subject(a), v);
      }
    }
  }

  ghost predicate Sound(s: State) {
    Forest(s) && Ledger(s)
  }

  lemma SoundStep(s: State, a: Step, t: State)
    requires Sound(s) && Next(s, a, t) && Orderly(s, a)
    ensures Sound(t)
  {
    ForestStep(s, a, t);
    LedgerStep(s, a, t);
  }

  /**
   In every state of every orderly run a main workspace has at most one open usage, always the one in its row, and none
   is open at rest unless the workspace is running.
   */
  lemma {:induction false} RunKeepsLedger(states: seq<State>, steps: seq<Step>, k: nat)
    requires Run(states, steps) && Sound(states[0]) && k < |states|
    requires forall i | 0 <= i < |steps| :: Orderly(states[i], steps[i])
    ensures Sound(states[k])
  {
    if k > 0 {
      RunKeepsLedger(states, steps, k - 1);
      SoundStep(states[k - 1], steps[k - 1], states[k]);
    }
  }

  /** The same in the words of the tables, for every orderly run from the beginning. */
  lemma LedgerFromTheBeginning(states: seq<State>, steps: seq<Step>, k: nat, w: Id)
    requires Run(states, steps) && states[0] == Empty() && k < |states| && IsMain(states[k], w)
    requires forall i | 0 <= i < |steps| :: Orderly(states[i], steps[i])
    ensures forall u, v | OpenFor(states[k], w, u) && OpenFor(states[k], w, v) :: u == v
    ensures forall u: Id | OpenFor(states[k], w, u) :: states[k].rows[w].usage == Some(u)
    ensures w !in states[k].tasks && states[k].rows[w].status != Running ==> NoneOpen(states[k], w)
  {
    EmptyIsForest();
    EmptyLedger();
    RunKeepsLedger(states, steps, k);
    assert Billed(states[k], w);
  }

  // ---------- exactly where it can go wrong ----------

  /** A successful start leaves one open usage exactly if none was open before. */
  lemma StartExact(s: State, a: Progress, t: State)
    requires TaskNext(s, a, t) && a.MainAnswer? && s.tasks[a.w].StartingUp? && a.outcome == Done
    ensures OneOpen(t, a.w) <==> NoneOpen(s, a.w)
  {
    assert OpenFor(t, a.w, a.newId);
    assert forall u :: OpenFor(t, a.w, u) <==> OpenFor(s, a.w, u) || u == a.newId;
    assert !OpenFor(s, a.w, a.newId);
  }

  /** The usage in the row of a workspace is open. */
  predicate Billing(s: State, w: Id)
    requires w in s.rows
  {
    s.rows[w].usage.Some? && OpenFor(s, w, s.rows[w].usage.value)
  }

  /**
   Seen at the request: when a start is asked for in a sound state, nothing is open, and so a successful start leaves one open
   usage, exactly unless the main workspace is running and billed.
   */
  lemma StartRequestExact(s: State, a: Request, t: State)
    requires Sound(s) && RequestNext(s, a, t) && (a.Start? || a.AutoStart?)
    ensures a.w in s.rows && (NoneOpen(t, a.w) <==> !(s.rows[a.w].status == Running && Billing(s, a.w)))
    ensures a.Start? ==> NoneOpen(t, a.w)
  {
    AcceptedIsMain(s, a.w);
    assert Billed(s, a.w);
    SameUsages(s, t, a.w);
  }

  /** A finished creation or rebuild is at rest exactly if the output had a service or nothing was billed. */
  lemma FinishExact(s: State, a: Progress, t: State)
    requires Forest(s) && TaskNext(s, a, t) && a.FinishCreating?
    ensures AtRest(t, a.w) <==> s.tasks[a.w].count > 0 || NoneOpen(s, a.w)
  {
    assert IsMain(s, a.w) && Family(s, a.w);
    SameUsages(s, t, a.w);
  }
}
