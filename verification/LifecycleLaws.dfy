/**
 The life cycle in the words of the tables: what each request and each step of the background work leaves in the row and in
 the usages, and how status and bill go together.
 */
module LifecycleLaws {
  import opened Common
  import opened Lifecycle
  import opened Families
  import opened UsageLedger

  /** Row `w` differs from what it was in status and usage at most. */
  predicate OnlyStatusAndUsage(before: Row, after: Row) {
    && after.live == before.live && after.isCompose == before.isCompose && after.parent == before.parent
    && after.service == before.service
  }

  /** The request is for a live main workspace without background work; it changes no other row. */
  lemma RequestTargets(s: State, a: Request, t: State)
    requires Forest(s) && RequestNext(s, a, t) && !a.Create?
    ensures a.w in s.rows && s.rows[a.w].live && s.rows[a.w].parent == None && a.w !in s.tasks
    ensures a.w in t.rows && OnlyStatusAndUsage(s.rows[a.w], t.rows[a.w])
    ensures t.rows.Keys == s.rows.Keys && forall v | v in s.rows && v != a.w :: t.rows[v] == s.rows[v]
  {
    AcceptedIsMain(s, a.w);
  }

  lemma CreateMeans(s: State, a: Request, t: State)
    requires RequestNext(s, a, t) && a.Create?
    ensures a.w !in s.rows && a.w in t.rows && t.rows[a.w].live && t.rows[a.w].status == New && t.rows[a.w].usage == None
    ensures !t.rows[a.w].isCompose && t.rows[a.w].parent == None && t.usages == s.usages
  {
  }

  /** A start asks for what does not run; a login asks for the main workspace of the stopped one that was logged in to. */
  lemma StartMeans(s: State, a: Request, t: State)
    requires Forest(s) && RequestNext(s, a, t) && (a.Start? || a.AutoStart?)
    ensures a.w in s.rows && a.w in t.rows && t.rows[a.w].status == Starting && t.rows[a.w].usage == s.rows[a.w].usage
    ensures t.usages == s.usages
    ensures a.Start? ==> s.rows[a.w].status != Running
    ensures a.AutoStart? ==> a.d in s.rows && s.rows[a.d].live && s.rows[a.d].status == Stopped
    ensures a.AutoStart? ==> (s.rows[a.d].parent == None ==> a.w == a.d) && (s.rows[a.d].parent != None ==> s.rows[a.d].parent == Some(a.w))
    ensures a.reached <==> a.w in t.tasks
  {
    if a.AutoStart? && s.rows[a.d].parent.Some? {
      ForestMeans(s, a.d);
    }
  }

  /** A stop or deletion ends the bill at once and forgets it. */
  lemma StopAndDeleteMean(s: State, a: Request, t: State)
    requires Forest(s) && RequestNext(s, a, t) && (a.Stop? || a.Delete?)
    ensures a.w in s.rows && a.w in t.rows && t.rows[a.w].usage == None
    ensures t.rows[a.w].status == if a.Stop? then Stopping else Deleting
    ensures a.Stop? ==> s.rows[a.w].status != Stopped
    ensures a.Delete? ==>
              && s.rows[a.w].status != New && s.rows[a.w].status != PrebuildBuilding
              && s.rows[a.w].status != PrebuildCopying && s.rows[a.w].status != Building
    ensures t.usages.Keys == s.usages.Keys
    ensures forall u | u in s.usages :: t.usages[u].open <==> s.usages[u].open && s.rows[a.w].usage != Some(u)
  {
  }

  /** A rebuild goes on with the usage in the row, whether open or not, and opens a new one only without any. */
  lemma RebuildMeans(s: State, a: Request, t: State)
    requires Forest(s) && RequestNext(s, a, t) && a.Rebuild?
    ensures a.w in s.rows && a.w in t.rows && t.rows[a.w].status == Building
    ensures s.rows[a.w].status != New && s.rows[a.w].status != PrebuildBuilding
    ensures s.rows[a.w].status != PrebuildCopying && s.rows[a.w].status != Building
    ensures s.rows[a.w].usage.Some? ==> t.rows[a.w].usage == s.rows[a.w].usage && t.usages == s.usages
    ensures s.rows[a.w].usage == None ==>
              && t.rows[a.w].usage == Some(a.newId) && a.newId !in s.usages
              && t.usages == s.usages[a.newId := Usage(a.w, true)]
  {
  }

  // ---------- background work ----------

  /** The bill of a build begins with the compilation, or with the first service if nothing was compiled. */
  lemma BuildMeans(s: State, a: Progress, t: State)
    requires Forest(s) && TaskNext(s, a, t) && (a.StartCompiling? || a.CreateMain?)
    ensures a.w in t.rows && t.rows[a.w].usage.Some? && t.rows[a.w].usage.value in t.usages
    ensures t.rows[a.w].status == if a.StartCompiling? then Building else Running
    ensures if s.rows[a.w].usage == None then t.rows[a.w].usage.value !in s.usages && OpenFor(t, a.w, t.rows[a.w].usage.value)
            else t.rows[a.w].usage == s.rows[a.w].usage && t.usages == s.usages
  {
    assert IsMain(s, a.w) && Family(s, a.w);
  }

  /** Each further service of the output is a running, flagged child of its own, without a bill; a dropped one is gone. */
  lemma ServiceMeans(s: State, a: Progress, t: State)
    requires Forest(s) && TaskNext(s, a, t)
    ensures a.CreateChild? ==>
              && a.newId !in s.rows && a.newId in t.rows && t.rows[a.newId].live && t.rows[a.newId].status == Running
              && t.rows[a.newId].isCompose && t.rows[a.newId].parent == Some(a.w) && t.rows[a.newId].usage == None
    ensures a.DropChild? ==>
              exists c :: IsChildOf(s, c, a.w) && c in t.rows && !t.rows[c].live && t.rows[c].status == Deleted
                          && t.rows == s.rows[c := t.rows[c]]
  {
    assert IsMain(s, a.w) && Family(s, a.w);
    if a.DropChild? {
      var c := s.tasks[a.w].todo[0];
      assert c in s.tasks[a.w].todo;
      assert IsChildOf(s, c, a.w);
    }
  }

  /** A creation or rebuild that fails is Failed, and what it was billed for ends. */
  lemma FailureMeans(s: State, a: Progress, t: State)
    requires Forest(s) && TaskNext(s, a, t) && a.TaskFails?
    ensures a.w in t.rows && t.rows[a.w].status == Failed && t.rows[a.w].usage == s.rows[a.w].usage && a.w !in t.tasks
    ensures t.usages.Keys == s.usages.Keys
    ensures forall u | u in s.usages :: t.usages[u].open <==> s.usages[u].open && s.rows[a.w].usage != Some(u)
  {
    assert IsMain(s, a.w) && Family(s, a.w);
  }

  /** A start, stop or deletion leaves the row that was answered for as the host says, and no answer leaves it as it was. */
  lemma AnswerMeans(s: State, a: Progress, t: State)
    requires Forest(s) && TaskNext(s, a, t) && (a.MainAnswer? || a.ChildAnswer?)
    ensures a.w in s.rows && a.w in s.tasks && (s.tasks[a.w].StartingUp? || s.tasks[a.w].ShuttingDown? || s.tasks[a.w].Removing?)
    ensures a.ChildAnswer? ==> s.tasks[a.w].children != []
    ensures var v := if a.MainAnswer? then a.w else s.tasks[a.w].children[0];
            && v in s.rows && v in t.rows && t.rows == s.rows[v := t.rows[v]]
            && (if a.MainAnswer? then v == a.w else s.rows[v].parent == Some(a.w))
            && match a.outcome {
               case NoAnswer => t.rows[v] == s.rows[v]
               case Done =>
                 && t.rows[v].status ==
                    (if s.tasks[a.w].StartingUp? then Running else if s.tasks[a.w].ShuttingDown? then Stopped else Deleted)
                 && (t.rows[v].live <==> s.rows[v].live && !s.tasks[a.w].Removing?)
               case Refused =>
                 && t.rows[v].live == s.rows[v].live
                 && t.rows[v].status ==
                    (if s.tasks[a.w].StartingUp? then Failed else if s.tasks[a.w].ShuttingDown? then StopFailed else DeleteFailed)
            }
  {
    assert IsMain(s, a.w) && Family(s, a.w);
    if a.ChildAnswer? {
      assert s.tasks[a.w].children[0] in s.tasks[a.w].children;
    }
  }

  /** A start makes the workspace run exactly if it opens a usage, and that one is then in the row. */
  lemma RunningIffBilled(s: State, a: Progress, t: State)
    requires Forest(s) && TaskNext(s, a, t) && a.MainAnswer? && s.tasks[a.w].StartingUp?
    ensures a.w in t.rows
    ensures t.rows[a.w].status == Running <==>
            t.rows[a.w].usage.Some? && t.rows[a.w].usage.value !in s.usages && OpenFor(t, a.w, t.rows[a.w].usage.value)
    ensures t.rows[a.w].status == Running <==> t.usages != s.usages
    ensures t.rows[a.w].status == Running <==> a.outcome == Done
    ensures t.rows[a.w].status == Failed <==> a.outcome == Refused
    ensures t.rows[a.w].status == Starting <==> a.outcome == NoAnswer
  {
    assert IsMain(s, a.w) && Family(s, a.w);
  }
}
