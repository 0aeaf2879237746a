/**
 The moves that the admission model leaves unguarded, tied to the life cycle: whatever a request or a background step does to the
 status of a main workspace is one of them, or is a start or rebuild that passed the quota check.
 */
module StatusMoves {
  import opened Common
  import opened Lifecycle
  import opened Families
  import Quota

  /** The requests that check the quota before they write; a rebuild of what runs does not. */
  predicate Guarded(s: State, a: Step, w: Id) {
    && a.OnRequest? && a.request.w == w && w in s.rows
    && (a.request.Start? || a.request.AutoStart? || (a.request.Rebuild? && s.rows[w].status != Running))
  }

  predicate Unchanged(before: Row, after: Row) {
    after.status == before.status && after.live == before.live
  }

  /** A live workspace makes an unguarded move, and dies exactly by becoming Deleted. */
  predicate MovesUnguarded(before: Row, after: Row) {
    before.live && Quota.Unguarded(before.status, after.status) && after.live == (after.status != Deleted)
  }

  lemma RequestMoves(s: State, a: Request, t: State)
    requires Forest(s) && RequestNext(s, a, t) && !a.Create?
    ensures a.w in s.rows && a.w in t.rows
    ensures MovesUnguarded(s.rows[a.w], t.rows[a.w]) || Guarded(s, OnRequest(a), a.w)
    ensures Guarded(s, OnRequest(a), a.w) ==>
              s.rows[a.w].live && t.rows[a.w].live && t.rows[a.w].status == if a.Rebuild? then Building else Starting
  {
  }

  ghost predicate Known(s: State, t: State, w: Id) {
    && w in s.rows && w in t.rows
    && (Unchanged(s.rows[w], t.rows[w]) || MovesUnguarded(s.rows[w], t.rows[w]))
  }

  /** The status a main workspace has while its background work is there. */
  predicate StatusFits(row: Row, task: Task) {
    row.live &&
    match task
    case Preparing => UnderConstruction(row.status)
    case Compiling => row.status == Building
    case Dropping(_, _) => row.status == Building
    case Recompiling(_) => row.status == Building
    case Creating(next, _, _, _, _) => if next == 0 then UnderConstruction(row.status) else row.status == Running
    case StartingUp(_, _) => row.status == Starting
    case ShuttingDown(_) => row.status == Stopping
    case Removing(_) => row.status == Deleting
  }

  lemma ForestFitsStatus(s: State, w: Id)
    requires Forest(s) && w in s.tasks
    ensures w in s.rows && StatusFits(s.rows[w], s.tasks[w])
  {
    assert IsMain(s, w) && Family(s, w);
  }

  lemma BuildMoves(s: State, a: Progress, t: State)
    requires TaskNext(s, a, t) && StatusFits(s.rows[a.w], s.tasks[a.w]) && !a.ChildAnswer? && !a.DropChild? && !a.MainAnswer?
    ensures Known(s, t, a.w)
  {
  }

  lemma AnswerMoves(s: State, a: Progress, t: State)
    requires TaskNext(s, a, t) && StatusFits(s.rows[a.w], s.tasks[a.w]) && a.MainAnswer?
    ensures Known(s, t, a.w)
  {
  }

  lemma ChildMoves(s: State, a: Progress, t: State)
    requires Forest(s) && TaskNext(s, a, t) && (a.ChildAnswer? || a.DropChild?)
    ensures Known(s, t, a.w)
  {
    assert IsMain(s, a.w) && Family(s, a.w);
    assert Written(s, a) in (if a.ChildAnswer? then s.tasks[a.w].children else s.tasks[a.w].todo);
  }

  lemma TaskMoves(s: State, a: Progress, t: State)
    requires Forest(s) && TaskNext(s, a, t)
    ensures Known(s, t, a.w)
  {
    ForestFitsStatus(s, a.w);
    if a.ChildAnswer? || a.DropChild? {
      ChildMoves(s, a, t);
    } else if a.MainAnswer? {
      AnswerMoves(s, a, t);
    } else {
      BuildMoves(s, a, t);
    }
  }

  /** Every step of the life cycle, seen at any main workspace. */
  lemma EveryMoveIsKnown(s: State, a: Step, t: State, w: Id)
    requires Forest(s) && Next(s, a, t) && IsMain(s, w)
    ensures w in t.rows
    ensures || Unchanged(s.rows[w], t.rows[w])
            || MovesUnguarded(s.rows[w], t.rows[w])
            || (Guarded(s, a, w) && t.rows[w].live && (t.rows[w].status == Starting || t.rows[w].status == Building))
  {
    FramedStep(s, a, t);
    if w == Subject(a) {
      match a
      case OnRequest(x) => RequestMoves(s, x, t);
      case OnTask(x) => TaskMoves(s, x, t);
    } else {
      OtherChildren(s, t, Subject(a), w);
    }
  }

  /** New rows: a main workspace by a creation, which checks the quota, or a service of a family. */
  lemma NewRowsAreKnown(s: State, a: Step, t: State, v: Id)
    requires Forest(s) && Next(s, a, t) && v in t.rows && v !in s.rows
    ensures t.rows[v].parent == None ==> a == OnRequest(Create(v)) && t.rows[v].status == New && t.rows[v].live
    ensures t.rows[v].parent != None ==> t.rows[v].live && t.rows[v].status == Running
  {
    FramedStep(s, a, t);
    if a.OnTask? {
      TaskAddsServices(s, a.progress, t, v);
    }
  }

  lemma TaskAddsServices(s: State, a: Progress, t: State, v: Id)
    requires Forest(s) && TaskNext(s, a, t) && v in t.rows && v !in s.rows
    ensures t.rows[v].parent != None && t.rows[v].live && t.rows[v].status == Running
  {
  }
}
