/**
 The life cycle's requests and background tasks, as methods that change the tables in place.  Every write is proved to be
 a step of the state machine; the loops over a family are proved to do what their task promises when it is followed
 to its end.  Steps of other families in between would change nothing that these contracts speak of.
 */
module LifecycleDb {
  import opened Common
  import opened Lifecycle
  import opened Families

  lemma Delivered(path: Path, w: Id, s: State, m: State, t: State)
    requires Forest(s) && IsMain(s, w) && Walked(path, w, s, m) && TaskNext(m, FinishCreating(w), t)
    ensures Forest(t) && Frame(s, t, w) && w in t.rows && Built(t, w, m.tasks[w].count)
    ensures m.tasks[w].count > 0 ==> t.rows[w].status == Running
  {
    Arrived(path, w, s, m);
    LastLeg(s, m, FinishCreating(w), t);
    FinishedBuildHasItsServices(m, FinishCreating(w), t);
  }

  // ---------- answers for a family ----------

  /** The first of `n` answers that is none, or `n`. */
  function FirstSilent(answers: seq<Outcome>, n: nat): (r: nat)
    requires n <= |answers|
    ensures r <= n && (forall i | 0 <= i < r :: answers[i] != NoAnswer) && (r < n ==> answers[r] == NoAnswer)
  {
    if n == 0 then 0
    else
      var r := FirstSilent(answers, n - 1);
      if r < n - 1 then r else if answers[n - 1] == NoAnswer then n - 1 else n
  }

  predicate OfFamily(task: Task) {
    task.StartingUp? || task.ShuttingDown? || task.Removing?
  }

  /** How many services a start, stop or deletion gets to. */
  function Reached(task: Task, answers: seq<Outcome>): nat
    requires OfFamily(task) && |task.children| < |answers|
  {
    if task.StartingUp? && task.waiting then FirstSilent(answers, |task.children|) else |task.children|
  }

  lemma EarlyEnd(task: Task, answers: seq<Outcome>)
    requires OfFamily(task) && |answers| == |task.children| + 1
    ensures Reached(task, answers) < |task.children| <==>
            task.StartingUp? && task.waiting && exists i | 0 <= i < |answers| - 1 :: answers[i] == NoAnswer
  {
  }

  lemma ReachedIs(task: Task, answers: seq<Outcome>, k: nat)
    requires OfFamily(task) && k <= |task.children| < |answers|
    requires task.StartingUp? && task.waiting ==> forall j | 0 <= j < k :: answers[j] != NoAnswer
    requires k < |task.children| ==> task.StartingUp? && task.waiting && answers[k] == NoAnswer
    ensures Reached(task, answers) == k
  {
  }

  /** The first `k` services are as their hosts answered, the others and all rows but the main one as they were. */
  ghost predicate ServicesAnswered(s: State, t: State, w: Id, answers: seq<Outcome>, k: nat)
    requires Answering(s, w) && |s.tasks[w].children| < |answers|
  {
    var task := s.tasks[w];
    && t.rows.Keys == s.rows.Keys
    && (forall v | v in s.rows && v != w && v !in task.children :: t.rows[v] == s.rows[v])
    && forall j | 0 <= j < |task.children| ::
      && task.children[j] in s.rows && task.children[j] in t.rows
      && t.rows[task.children[j]] ==
         if j < k then Answered(s.rows[task.children[j]], task, answers[j], None) else s.rows[task.children[j]]
  }

  predicate SameButUsage(a: Row, b: Row) {
    a.(usage := b.usage) == b
  }

  /** A start, stop or deletion on its way from `s`, with `i` services behind it. */
  ghost predicate Midway(path: Path, w: Id, s: State, t: State, answers: seq<Outcome>, i: nat) {
    && Answering(s, w) && i <= |s.tasks[w].children| && |answers| == |s.tasks[w].children| + 1
    && NoRepeats(s.tasks[w].children) && w !in s.tasks[w].children
    && Answering(t, w) && t.tasks[w] == s.tasks[w].(children := s.tasks[w].children[i..])
    && t.rows[w] == s.rows[w] && Walked(path, w, s, t) && ServicesAnswered(s, t, w, answers, i)
  }

  /** It has ended, with `k` services behind it. */
  ghost predicate Over(path: Path, w: Id, s: State, t: State, answers: seq<Outcome>, k: nat)
    requires Answering(s, w) && |s.tasks[w].children| < |answers|
  {
    w in t.rows && w !in t.tasks && Walked(path, w, s, t) && ServicesAnswered(s, t, w, answers, k)
  }

  predicate WaitedFor(task: Task) {
    task.StartingUp? && task.waiting
  }

  /** On its way, and nothing has ended it so far. */
  ghost predicate Passing(path: Path, w: Id, s: State, t: State, answers: seq<Outcome>, i: nat) {
    && Midway(path, w, s, t, answers, i)
    && (WaitedFor(s.tasks[w]) ==> forall j | 0 <= j < i :: answers[j] != NoAnswer)
  }

  /** Ended before the main workspace, by the silence of service `i`. */
  ghost predicate CutShort(path: Path, w: Id, s: State, t: State, answers: seq<Outcome>, i: nat) {
    && Answering(s, w) && i < |s.tasks[w].children| < |answers|
    && WaitedFor(s.tasks[w]) && answers[i] == NoAnswer && (forall j | 0 <= j < i :: answers[j] != NoAnswer)
    && Over(path, w, s, t, answers, i) && t.rows[w] == s.rows[w]
  }

  lemma StartsMidway(s: State, w: Id, answers: seq<Outcome>)
    requires Forest(s) && Answering(s, w) && |answers| == |s.tasks[w].children| + 1
    ensures Passing(Here(s), w, s, s, answers, 0)
  {
    assert IsMain(s, w) && Family(s, w);
    assert forall j | 0 <= j < |s.tasks[w].children| :: s.tasks[w].children[j] in s.tasks[w].children;
  }

  lemma OneMoreAnswered(s: State, m: State, t: State, w: Id, answers: seq<Outcome>, i: nat)
    requires Answering(s, w) && i < |s.tasks[w].children| < |answers| && NoRepeats(s.tasks[w].children)
    requires ServicesAnswered(s, m, w, answers, i)
    requires var task := s.tasks[w];
             t.rows == m.rows[task.children[i] := Answered(s.rows[task.children[i]], task, answers[i], None)]
    ensures ServicesAnswered(s, t, w, answers, i + 1)
    ensures answers[i] == NoAnswer ==> ServicesAnswered(s, t, w, answers, i)
  {
  }

  lemma NextService(path: Path, w: Id, s: State, m: State, answers: seq<Outcome>, i: nat)
    requires Midway(path, w, s, m, answers, i) && i < |s.tasks[w].children|
    ensures m.tasks[w].children != [] && m.tasks[w].children[0] == s.tasks[w].children[i]
    ensures m.tasks[w].children[1..] == s.tasks[w].children[i + 1..]
    ensures m.tasks[w].children[0] in m.rows && m.tasks[w].children[0] in s.rows && m.tasks[w].children[0] != w
    ensures m.rows[m.tasks[w].children[0]] == s.rows[m.tasks[w].children[0]]
    ensures OfFamily(s.tasks[w]) && forall row, usage ::
              Answered(row, m.tasks[w], answers[i], usage) == Answered(row, s.tasks[w], answers[i], usage)
  {
    assert s.tasks[w].children[i] in s.tasks[w].children;
  }

  lemma MainDone(path: Path, w: Id, s: State, m: State, t: State, answers: seq<Outcome>, u: Id)
    requires Answering(s, w) && Midway(path, w, s, m, answers, |s.tasks[w].children|)
    requires MainAnswered(m, w, answers[|answers| - 1], u, t)
    ensures Over(Then(path, MainAnswer(w, answers[|answers| - 1], u), t), w, s, t, answers, |s.tasks[w].children|)
    ensures SameButUsage(t.rows[w], Answered(s.rows[w], s.tasks[w], answers[|answers| - 1], None))
  {
    MainIsNoService(s, m, t, w, answers);
  }

  lemma ServiceAnswered(path: Path, w: Id, s: State, m: State, t: State, answers: seq<Outcome>, i: nat)
    requires Midway(path, w, s, m, answers, i) && i < |s.tasks[w].children| && ChildAnswered(m, w, answers[i], t)
    ensures var longer := Then(path, ChildAnswer(w, answers[i]), t);
            if s.tasks[w].StartingUp? && s.tasks[w].waiting && answers[i] == NoAnswer
            then Over(longer, w, s, t, answers, i) && t.rows[w] == s.rows[w]
            else Midway(longer, w, s, t, answers, i + 1)
  {
    NextService(path, w, s, m, answers, i);
    OneMoreAnswered(s, m, t, w, answers, i);
  }

  /** A live child after a deletion is a service whose host did not say that it is done. */
  lemma SurvivorsOfADeletion(s: State, t: State, w: Id, answers: seq<Outcome>, c: Id)
    requires Answering(s, w) && s.tasks[w].Removing? && |answers| == |s.tasks[w].children| + 1
    requires (forall c | LiveChild(s, c, w) :: c in s.tasks[w].children) && Listed(s, w, s.tasks[w].children)
    requires forall c | c in s.tasks[w].children :: LiveChild(s, c, w)
    requires IsMain(s, w) && ServicesAnswered(s, t, w, answers, |answers| - 1) && w in t.rows && t.rows[w].parent == None
    ensures LiveChild(t, c, w) <==> exists j | 0 <= j < |answers| - 1 :: s.tasks[w].children[j] == c && answers[j] != Done
  {
    var children := s.tasks[w].children;
    if c in children {
      var j :| 0 <= j < |children| && children[j] == c;
      assert LiveChild(s, c, w);
      assert t.rows[children[j]] == Answered(s.rows[children[j]], s.tasks[w], answers[j], None);
    } else if c in s.rows && c != w {
      assert t.rows[c] == s.rows[c];
    }
  }

  /**
   A deletion that has gone through its family leaves no live service behind a deleted main workspace exactly if every service's
   host was done or the main one's was not.
   */
  lemma DeletionExact(s: State, a: Request, m: State, t: State, answers: seq<Outcome>)
    requires Forest(s) && RequestNext(s, a, m) && a.Delete? && |answers| == |a.children| + 1
    requires Answering(m, a.w) && ServicesAnswered(m, t, a.w, answers, |answers| - 1) && a.w in t.rows
    requires SameButUsage(t.rows[a.w], Answered(m.rows[a.w], m.tasks[a.w], answers[|answers| - 1], None))
    ensures t.rows[a.w].live || Childless(t, a.w) <==>
            (forall j | 0 <= j < |answers| - 1 :: answers[j] == Done) || answers[|answers| - 1] != Done
  {
    AcceptedIsMain(s, a.w);
    SameChildren(s, m, a.w);
    AllServicesListed(s, a, m);
    forall c
      ensures LiveChild(t, c, a.w) <==> exists j | 0 <= j < |answers| - 1 :: a.children[j] == c && answers[j] != Done
    {
      SurvivorsOfADeletion(m, t, a.w, answers, c);
    }
    if j :| 0 <= j < |answers| - 1 && answers[j] != Done {
      assert LiveChild(t, a.children[j], a.w);
    }
  }

  lemma AllServicesListed(s: State, a: Request, m: State)
    requires Forest(s) && RequestNext(s, a, m) && a.Delete?
    ensures IsMain(m, a.w) && m.rows[a.w].live && m.tasks[a.w] == Removing(a.children) && Listed(m, a.w, a.children)
    ensures forall c :: LiveChild(m, c, a.w) <==> c in a.children
  {
    AcceptedIsMain(s, a.w);
    SameChildren(s, m, a.w);
    assert Family(s, a.w);
    assert forall c :: LiveChild(s, c, a.w) ==> IsChildOf(s, c, a.w);
  }

  lemma MainIsNoService(s: State, m: State, t: State, w: Id, answers: seq<Outcome>)
    requires Answering(s, w) && |s.tasks[w].children| < |answers| && w !in s.tasks[w].children
    requires ServicesAnswered(s, m, w, answers, |s.tasks[w].children|) && w in t.rows && t.rows == m.rows[w := t.rows[w]]
    ensures ServicesAnswered(s, t, w, answers, |s.tasks[w].children|)
  {
  }

  lemma FrameTwice(s: State, m: State, t: State, w: Id)
    requires Frame(s, m, w) && Frame(m, t, w)
    ensures Frame(s, t, w)
  {
  }

  /** What one task has done so far, step by step. */
  datatype Path = Here(at: State) | Then(before: Path, a: Progress, at: State)

  ghost predicate Walked(path: Path, w: Id, s: State, t: State) {
    path.at == t &&
    match path
    case Here(_) => s == t
    case Then(before, a, _) => a.w == w && TaskNext(before.at, a, t) && Walked(before, w, s, before.at)
  }

  /** A build on its way from `s`: `i` services of its output are there. */
  ghost predicate UnderWay(path: Path, w: Id, s: State, t: State, i: nat) {
    && w in s.tasks && s.tasks[w].Creating? && s.tasks[w].next == 0
    && w in t.rows && w in t.tasks && t.tasks[w] == s.tasks[w].(next := i)
    && Walked(path, w, s, t)
  }

  /** Following a task keeps every family in shape and every other family untouched. */
  lemma {:induction false} Arrived(path: Path, w: Id, s: State, t: State)
    requires Forest(s) && IsMain(s, w) && Walked(path, w, s, t)
    ensures Forest(t) && Frame(s, t, w)
  {
    if path.Then? {
      Arrived(path.before, w, s, path.before.at);
      LastLeg(s, path.before.at, path.a, t);
    }
  }

  lemma LastLeg(s: State, m: State, a: Progress, t: State)
    requires Forest(m) && Frame(s, m, a.w) && TaskNext(m, a, t)
    ensures Forest(t) && Frame(s, t, a.w)
  {
    ForestStep(m, OnTask(a), t);
    FramedStep(m, OnTask(a), t);
    FrameTwice(s, m, t, a.w);
  }

  method NewId(used: set<Id>) returns (id: Id)
    ensures id !in used
  {
    id := 0;
    var rest := used;
    while rest != {}
      invariant rest <= used
      invariant forall u: Id | u in used && u !in rest :: u < id
      decreases rest
    {
      var u :| u in rest;
      id, rest := if u < id then id else u + 1, rest - {u};
    }
  }

  class Workspaces {
    var rows: map<Id, Row>
    var usages: map<Id, Usage>
    var tasks: map<Id, Task>

    function View(): State
      reads this
    {
      State(rows, usages, tasks)
    }

    ghost predicate Valid()
      reads this
    {
      Forest(View())
    }

    constructor ()
      ensures View() == Empty() && Valid()
    {
      rows, usages, tasks := map[], map[], map[];
    }

    /** The query for compose services, in whatever order the rows come. */
    method ComposeServices(w: Id) returns (children: seq<Id>)
      requires w in rows
      ensures Services(View(), w, children)
    {
      children := [];
      if rows[w].isCompose {
        var rest := rows.Keys;
        while rest != {}
          invariant rest <= rows.Keys
          invariant forall c :: c in children <==> c in rows.Keys - rest && LiveChild(View(), c, w)
          invariant NoRepeats(children)
          decreases rest
        {
          var c :| c in rest;
          assert c !in children;
          rest := rest - {c};
          if rows[c].live && rows[c].parent == Some(w) {
            children := children + [c];
          }
        }
      }
    }

    // ---------- requests ----------

    method CreateWorkspace(w: Id)
      requires Valid() && w !in rows
      modifies this
      ensures Next(old(View()), OnRequest(Create(w)), View()) && Valid()
    {
      ghost var s := View();
      rows := rows[w := Row(true, New, None, false, None, 0)];
      tasks := tasks[w := Preparing];
      ForestStep(s, OnRequest(Create(w)), View());
    }

    /** A workspace that runs already, a compose service, and a user over the organization's limit or a quota are refused. */
    method StartWorkspace(w: Id, reached: bool, withinLimit: bool, withinQuota: bool) returns (accepted: bool, children: seq<Id>)
      requires Valid() && w in rows && rows[w].live && w !in tasks
      modifies this
      ensures accepted <==> withinLimit && withinQuota && old(rows[w].status != Running && rows[w].parent == None)
      ensures accepted ==> Next(old(View()), OnRequest(Start(w, reached, children)), View())
      ensures !accepted ==> View() == old(View())
      ensures Valid()
    {
      ghost var s := View();
      children := [];
      if rows[w].parent.Some? {
        ForestMeans(s, w);
      }
      if rows[w].status == Running || (rows[w].isCompose && rows[w].parent != None) {
        return false, children;
      }
      if !withinLimit || !withinQuota {
        return false, children;
      }
      children := ComposeServices(w);
      rows := rows[w := rows[w].(status := Starting)];
      if reached {
        tasks := tasks[w := StartingUp(children, false)];
      }
      ForestStep(s, OnRequest(Start(w, reached, children)), View());
      return true, children;
    }

    method CloseUsage(usage: Option<Id>)
      modifies this`usages
      ensures usages == Closed(old(usages), usage)
    {
      if usage.Some? && usage.value in usages {
        usages := usages[usage.value := usages[usage.value].(open := false)];
      }
    }

    method StopWorkspace(w: Id, reached: bool) returns (accepted: bool, children: seq<Id>)
      requires Valid() && w in rows && rows[w].live && w !in tasks
      modifies this
      ensures accepted <==> old(rows[w].status != Stopped && rows[w].parent == None)
      ensures accepted ==> Next(old(View()), OnRequest(Stop(w, reached, children)), View())
      ensures !accepted ==> View() == old(View())
      ensures Valid()
    {
      ghost var s := View();
      children := [];
      if rows[w].parent.Some? {
        ForestMeans(s, w);
      }
      if rows[w].status == Stopped || (rows[w].isCompose && rows[w].parent != None) {
        return false, children;
      }
      children := ComposeServices(w);
      CloseUsage(rows[w].usage);
      rows := rows[w := rows[w].(status := Stopping, usage := None)];
      if reached {
        tasks := tasks[w := ShuttingDown(children)];
      }
      ForestStep(s, OnRequest(Stop(w, reached, children)), View());
      return true, children;
    }

    method DeleteWorkspace(w: Id) returns (accepted: bool, children: seq<Id>)
      requires Valid() && w in rows && rows[w].live && w !in tasks
      modifies this
      ensures accepted <==>
              && old(rows[w].parent) == None && old(rows[w].status) != New && old(rows[w].status) != PrebuildBuilding
              && old(rows[w].status) != PrebuildCopying && old(rows[w].status) != Building
      ensures accepted ==> Next(old(View()), OnRequest(Delete(w, children)), View())
      ensures !accepted ==> View() == old(View())
      ensures Valid()
    {
      ghost var s := View();
      children := [];
      if rows[w].parent.Some? {
        ForestMeans(s, w);
      }
      if UnderConstruction(rows[w].status) || (rows[w].isCompose && rows[w].parent != None) {
        return false, children;
      }
      children := ComposeServices(w);
      CloseUsage(rows[w].usage);
      rows := rows[w := rows[w].(status := Deleting, usage := None)];
      tasks := tasks[w := Removing(children)];
      ForestStep(s, OnRequest(Delete(w, children)), View());
      return true, children;
    }

    /** A rebuild keeps the usage in the row, open or closed, and opens one only if there is none; what runs needs no quota. */
    method RebuildWorkspace(w: Id, withinLimit: bool, withinQuota: bool) returns (accepted: bool, newId: Id, children: seq<Id>)
      requires Valid() && w in rows && rows[w].live && w !in tasks
      modifies this
      ensures accepted <==>
              && withinLimit && (withinQuota || old(rows[w].status) == Running)
              && old(rows[w].parent) == None && old(rows[w].status) != New && old(rows[w].status) != PrebuildBuilding
              && old(rows[w].status) != PrebuildCopying && old(rows[w].status) != Building
      ensures accepted ==> Next(old(View()), OnRequest(Rebuild(w, newId, children)), View())
      ensures !accepted ==> View() == old(View())
      ensures Valid()
    {
      ghost var s := View();
      children, newId := [], 0;
      if rows[w].parent.Some? {
        ForestMeans(s, w);
      }
      if UnderConstruction(rows[w].status) || (rows[w].isCompose && rows[w].parent != None) {
        return false, newId, children;
      }
      if !withinLimit || (rows[w].status != Running && !withinQuota) {
        return false, newId, children;
      }
      children := ComposeServices(w);
      newId := NewId(usages.Keys);
      var usage := if rows[w].usage.Some? then rows[w].usage.value else newId;
      if rows[w].usage == None {
        usages := usages[newId := Usage(w, true)];
      }
      rows := rows[w := rows[w].(status := Building, usage := Some(usage))];
      tasks := tasks[w := Dropping(children, usage)];
      ForestStep(s, OnRequest(Rebuild(w, newId, children)), View());
      return true, newId, children;
    }

    // ---------- background tasks ----------

    /** The error handler of a creation or rebuild. */
    method Fail(w: Id)
      requires w in tasks && w in rows && Fallible(tasks[w])
      modifies this
      ensures TaskNext(old(View()), TaskFails(w), View())
      ensures w in rows && w !in tasks && rows[w].status == Failed
    {
      CloseUsage(ToEnd(rows[w], tasks[w]));
      rows := rows[w := rows[w].(status := Failed)];
      tasks := tasks - {w};
    }

    method CreateMainRow(w: Id) returns (newId: Id)
      requires w in tasks && w in rows && tasks[w].Creating? && tasks[w].next == 0 < tasks[w].count
      modifies this
      ensures MainCreated(old(View()), w, newId, View())
    {
      var task := tasks[w];
      newId := NewId(usages.Keys);
      var usage := if task.usage.Some? then task.usage.value else newId;
      if task.usage == None {
        usages := usages[newId := Usage(w, true)];
      }
      rows := rows[w := rows[w].(status := Running, isCompose := task.compose, usage := Some(usage))];
      tasks := tasks[w := task.(next := 1)];
    }

    method CreateChildRow(w: Id) returns (newId: Id)
      requires w in tasks && w in rows && tasks[w].Creating? && 0 < tasks[w].next < tasks[w].count
      modifies this
      ensures ChildCreated(old(View()), w, newId, View())
    {
      var task := tasks[w];
      newId := NewId(rows.Keys);
      rows := rows[newId := Row(true, Running, None, task.compose, Some(w), task.next)];
      tasks := tasks[w := task.(next := task.next + 1)];
    }

    /** One round of the loop over the services: the host has created and started one, and its row is written. */
    method CreateService(w: Id, ghost path: Path, ghost s: State, ghost i: nat) returns (ghost longer: Path)
      requires UnderWay(path, w, s, View(), i) && i < s.tasks[w].count
      modifies this
      ensures UnderWay(longer, w, s, View(), i + 1)
    {
      if tasks[w].next == 0 {
        var newId := CreateMainRow(w);
        longer := Then(path, CreateMain(w, newId), View());
      } else {
        var newId := CreateChildRow(w);
        longer := Then(path, CreateChild(w, newId), View());
      }
    }

    /** The loop itself stops at the first service that fails. */
    method CreateServices(w: Id, answers: seq<bool>, ghost s: State) returns (i: nat, ghost path: Path)
      requires s == View() && w in tasks && w in rows && tasks[w].Creating? && tasks[w].next == 0 && |answers| == tasks[w].count
      modifies this
      ensures i <= |answers| && (forall j | 0 <= j < i :: answers[j]) && (i < |answers| ==> !answers[i])
      ensures UnderWay(path, w, s, View(), i)
    {
      path, i := Here(s), 0;
      while i < |answers| && answers[i]
        invariant i <= |answers| && UnderWay(path, w, s, View(), i)
        invariant forall j | 0 <= j < i :: answers[j]
      {
        path := CreateService(w, path, s, i);
        i := i + 1;
      }
    }

    /** Either all services are there or the error handler runs. */
    method EndBuild(w: Id, ok: bool, ghost path: Path, ghost s: State)
      requires w in tasks && w in rows && tasks[w].Creating?
      requires if ok then tasks[w].next == tasks[w].count else tasks[w].next < tasks[w].count
      requires Forest(s) && IsMain(s, w) && Walked(path, w, s, View())
      modifies this
      ensures Valid() && w in rows && w !in tasks && Frame(s, View(), w)
      ensures ok ==> Built(View(), w, old(tasks[w].count)) && (old(tasks[w].count) > 0 ==> rows[w].status == Running)
      ensures !ok ==> rows[w].status == Failed
    {
      ghost var m := View();
      if ok {
        tasks := tasks - {w};
        Delivered(path, w, s, m, View());
      } else {
        Fail(w);
        Arrived(Then(path, TaskFails(w), View()), w, s, View());
      }
    }

    /**
     The loop over the services of a build output, with the host's answer for each.  If all succeed, the family is exactly
     the output; the first failure marks the workspace failed.  No other family is touched.
     */
    method CreateWorkspaceFromOutput(w: Id, answers: seq<bool>) returns (ok: bool)
      requires Valid() && w in tasks && w in rows && tasks[w].Creating? && tasks[w].next == 0 && |answers| == tasks[w].count
      modifies this
      ensures Valid() && w in rows && w !in tasks && Frame(old(View()), View(), w)
      ensures ok <==> forall i | 0 <= i < |answers| :: answers[i]
      ensures ok ==> Built(View(), w, |answers|) && (|answers| > 0 ==> rows[w].status == Running)
      ensures !ok ==> rows[w].status == Failed
    {
      ghost var s := View();
      var i, path := CreateServices(w, answers, s);
      ok := i == |answers|;
      EndBuild(w, ok, path, s);
    }

    // ---------- starting, stopping and removing a family ----------

    /** The host answers for the next service. */
    method AnswerChild(w: Id, answers: seq<Outcome>, i: nat, ghost path: Path, ghost s: State) returns (ended: bool, ghost longer: Path)
      requires Passing(path, w, s, View(), answers, i) && i < |s.tasks[w].children|
      modifies this
      ensures ended <==> WaitedFor(s.tasks[w]) && answers[i] == NoAnswer
      ensures if ended then CutShort(longer, w, s, View(), answers, i) else Passing(longer, w, s, View(), answers, i + 1)
    {
      ghost var m := View();
      var task := tasks[w];
      var c := task.children[0];
      NextService(path, w, s, m, answers, i);
      rows := rows[c := Answered(rows[c], task, answers[i], None)];
      ended := task.StartingUp? && task.waiting && answers[i] == NoAnswer;
      if ended {
        tasks := tasks - {w};
      } else {
        tasks := tasks[w := task.(children := task.children[1..])];
      }
      longer := Then(path, ChildAnswer(w, answers[i]), View());
      ServiceAnswered(path, w, s, m, View(), answers, i);
    }

    method AnswerMain(w: Id, answers: seq<Outcome>, ghost path: Path, ghost s: State) returns (ghost longer: Path)
      requires Answering(s, w) && Midway(path, w, s, View(), answers, |s.tasks[w].children|)
      modifies this
      ensures Over(longer, w, s, View(), answers, |s.tasks[w].children|)
      ensures SameButUsage(rows[w], Answered(s.rows[w], s.tasks[w], answers[|s.tasks[w].children|], None))
    {
      ghost var m := View();
      var task, outcome := tasks[w], answers[|answers| - 1];
      var newId := NewId(usages.Keys);
      rows := rows[w := Answered(rows[w], task, outcome, Some(newId))];
      if task.StartingUp? && outcome == Done {
        usages := usages[newId := Usage(w, true)];
      }
      tasks := tasks - {w};
      longer := Then(path, MainAnswer(w, outcome, newId), View());
      MainDone(path, w, s, m, View(), answers, newId);
    }

    /**
     The loop of a start, stop or deletion: first the services, then the main workspace.  Each is left as its host answered; only
     a start that its caller waits for ends early, exactly at the first service without an answer, and leaves the rest alone.
     */
    method AnswerFamily(w: Id, answers: seq<Outcome>) returns (reachedMain: bool)
      requires Valid() && Answering(View(), w) && |answers| == |tasks[w].children| + 1
      modifies this
      ensures Valid() && w in rows && w !in tasks && Frame(old(View()), View(), w)
      ensures reachedMain <==> Reached(old(tasks[w]), answers) == |old(tasks[w]).children|
      ensures ServicesAnswered(old(View()), View(), w, answers, Reached(old(tasks[w]), answers))
      ensures if reachedMain
              then SameButUsage(rows[w], Answered(old(rows[w]), old(tasks[w]), answers[|old(tasks[w]).children|], None))
              else rows[w] == old(rows[w])
      ensures !reachedMain <==>
              old(tasks[w]).StartingUp? && old(tasks[w]).waiting && exists i | 0 <= i < |answers| - 1 :: answers[i] == NoAnswer
      ensures forall j | 0 <= j < Reached(old(tasks[w]), answers) ::
                var c := old(tasks[w]).children[j];
                && c in old(rows) && c in rows
                && (answers[j] == NoAnswer ==> rows[c] == old(rows)[c])
                && (answers[j] == Done ==> match old(tasks[w]) {
                      case StartingUp(_, _) => rows[c].status == Running && rows[c].live == old(rows)[c].live
                      case ShuttingDown(_) => rows[c].status == Stopped && rows[c].live == old(rows)[c].live
                      case Removing(_) => rows[c].status == Deleted && !rows[c].live
                    })
                && (answers[j] == Refused ==> rows[c].live == old(rows)[c].live && match old(tasks[w]) {
                      case StartingUp(_, _) => rows[c].status == Failed
                      case ShuttingDown(_) => rows[c].status == StopFailed
                      case Removing(_) => rows[c].status == DeleteFailed
                    })
      ensures reachedMain ==>
                var outcome := answers[|answers| - 1];
                && (outcome == NoAnswer ==> rows[w].status == old(rows[w].status) && rows[w].live == old(rows[w].live))
                && (outcome == Done ==> match old(tasks[w]) {
                      case StartingUp(_, _) => rows[w].status == Running && rows[w].live == old(rows[w].live)
                      case ShuttingDown(_) => rows[w].status == Stopped && rows[w].live == old(rows[w].live)
                      case Removing(_) => rows[w].status == Deleted && !rows[w].live
                    })
                && (outcome == Refused ==> rows[w].live == old(rows[w].live) && match old(tasks[w]) {
                      case StartingUp(_, _) => rows[w].status == Failed
                      case ShuttingDown(_) => rows[w].status == StopFailed
                      case Removing(_) => rows[w].status == DeleteFailed
                    })
    {
      ghost var s := View();
      ghost var path;
      reachedMain, path := AnswerAll(w, answers, s);
      Arrived(path, w, s, View());
      EarlyEnd(s.tasks[w], answers);
    }

    method AnswerAll(w: Id, answers: seq<Outcome>, ghost s: State) returns (reachedMain: bool, ghost path: Path)
      requires Valid() && s == View() && Answering(s, w) && |answers| == |tasks[w].children| + 1
      modifies this
      ensures reachedMain <==> Reached(s.tasks[w], answers) == |s.tasks[w].children|
      ensures Over(path, w, s, View(), answers, Reached(s.tasks[w], answers))
      ensures if reachedMain then SameButUsage(rows[w], Answered(s.rows[w], s.tasks[w], answers[|s.tasks[w].children|], None))
              else rows[w] == s.rows[w]
    {
      StartsMidway(s, w, answers);
      var ended, i;
      ended, i, path := AnswerServices(w, answers, s);
      ReachedIs(s.tasks[w], answers, i);
      if !ended {
        path := AnswerMain(w, answers, path, s);
      }
      reachedMain := !ended;
    }

    /** The loop over the services alone. */
    method AnswerServices(w: Id, answers: seq<Outcome>, ghost s: State) returns (ended: bool, i: nat, ghost path: Path)
      requires s == View() && |answers| > 0 && Passing(Here(s), w, s, s, answers, 0)
      modifies this
      ensures if ended then CutShort(path, w, s, View(), answers, i)
              else i == |answers| - 1 && Passing(path, w, s, View(), answers, i)
    {
      path, ended, i := Here(s), false, 0;
      while i < |answers| - 1
        invariant i < |answers| && Passing(path, w, s, View(), answers, i)
      {
        ended, path := AnswerChild(w, answers, i, path, s);
        if ended {
          return;
        }
        i := i + 1;
      }
      ended := false;
    }
  }
}
