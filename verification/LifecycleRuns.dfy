/**
 Runs of the life cycle from the beginning: two that lose a usage, and one that leaves a service nobody can reach.
 */
module LifecycleRuns {
  import opened Common
  import opened Lifecycle
  import opened Families
  import opened UsageLedger
  import Runs

  ghost predicate Reachable(s: State) {
    Runs.Reachable(Next, Empty(), s)
  }

  lemma Reaches(s: State, a: Step, t: State)
    requires Reachable(s) && Next(s, a, t)
    ensures Reachable(t)
  {
    Runs.Reaches(Next, Empty(), s, a, t);
  }

  /** One main workspace. */
  function Alone(status: Status, usage: Option<Id>, usages: map<Id, Usage>, tasks: map<Id, Task>): State {
    State(map[0 := Row(true, status, usage, false, None, 0)], usages, tasks)
  }

  function Bill(open: seq<bool>): map<Id, Usage> {
    map u: Id | 0 <= u < |open| :: Usage(0, open[u])
  }

  lemma CreatedAlone()
    ensures Reachable(Alone(New, None, Bill([]), map[0 := Preparing]))
  {
    Runs.Starts(Next, Empty());
    Reaches(Empty(), OnRequest(Create(0)), Alone(New, None, Bill([]), map[0 := Preparing]));
  }

  /** A compose file without services leaves a building workspace with an open usage behind. */
  lemma EmptyComposeStaysBilled()
    ensures var s := Alone(Building, Some(0), Bill([true]), map[]);
            Reachable(s) && !AtRest(s, 0)
  {
    CreatedAlone();
    var s1 := Alone(New, None, Bill([]), map[0 := Preparing]);
    var s2 := Alone(Building, Some(0), Bill([true]), map[0 := Compiling]);
    var s3 := Alone(Building, Some(0), Bill([true]), map[0 := Creating(0, 0, true, Some(0), None)]);
    var s4 := Alone(Building, Some(0), Bill([true]), map[]);
    Reaches(s1, OnTask(StartCompiling(0, 0)), s2);
    Reaches(s2, OnTask(GotOutput(0, true, 0)), s3);
    Reaches(s3, OnTask(FinishCreating(0)), s4);
    assert OpenFor(s4, 0, 0);
  }

  /** Starting it then loses that usage: two are open. */
  lemma EmptyComposeLeaks()
    ensures var s := Alone(Running, Some(1), Bill([true, true]), map[]);
            Reachable(s) && OpenFor(s, 0, 0) && OpenFor(s, 0, 1)
  {
    EmptyComposeStaysBilled();
    var s4 := Alone(Building, Some(0), Bill([true]), map[]);
    var s5 := Alone(Starting, Some(0), Bill([true]), map[0 := StartingUp([], false)]);
    var s6 := Alone(Running, Some(1), Bill([true, true]), map[]);
    Reaches(s4, OnRequest(Start(0, true, [])), s5);
    assert Bill([true])[1 := Usage(0, true)] == Bill([true, true]);
    Reaches(s5, OnTask(MainAnswer(0, Done, 1)), s6);
  }

  /** A compose workspace with one further service. */
  function Pair(main: Status, usage: Option<Id>, child: Status, usages: map<Id, Usage>, tasks: map<Id, Task>): State {
    State(map[0 := Row(true, main, usage, true, None, 0), 1 := Row(true, child, None, true, Some(0), 1)], usages, tasks)
  }

  lemma MainOfPair()
    ensures Reachable(State(map[0 := Row(true, Running, Some(0), true, None, 0)], Bill([true]), map[0 := Creating(1, 2, true, None, None)]))
  {
    CreatedAlone();
    var s1 := Alone(New, None, Bill([]), map[0 := Preparing]);
    var s2 := Alone(New, None, Bill([]), map[0 := Creating(0, 2, true, None, None)]);
    var s3 := State(map[0 := Row(true, Running, Some(0), true, None, 0)], Bill([true]), map[0 := Creating(1, 2, true, None, None)]);
    Reaches(s1, OnTask(GotOutput(0, true, 2)), s2);
    Reaches(s2, OnTask(CreateMain(0, 0)), s3);
  }

  lemma PairCreated()
    ensures Reachable(Pair(Running, Some(0), Running, Bill([true]), map[]))
  {
    MainOfPair();
    var s3 := State(map[0 := Row(true, Running, Some(0), true, None, 0)], Bill([true]), map[0 := Creating(1, 2, true, None, None)]);
    var s4 := Pair(Running, Some(0), Running, Bill([true]), map[0 := Creating(2, 2, true, None, None)]);
    Reaches(s3, OnTask(CreateChild(0, 1)), s4);
    Reaches(s4, OnTask(FinishCreating(0)), Pair(Running, Some(0), Running, Bill([true]), map[]));
  }

  lemma PairServices(main: Status, usage: Option<Id>, child: Status, usages: map<Id, Usage>, tasks: map<Id, Task>)
    ensures Services(Pair(main, usage, child, usages, tasks), 0, [1])
  {
  }

  /** The host answers for the service. */
  lemma PairChild(main: Status, usage: Option<Id>, child: Status, usages: map<Id, Usage>, task: Task, outcome: Outcome,
                  after: Status)
    requires (task.StartingUp? && (task.waiting ==> outcome != NoAnswer)) || task.ShuttingDown? || (task.Removing? && outcome != Done)
    requires task.children == [1]
    requires after == Answered(Row(true, child, None, true, Some(0), 1), task, outcome, None).status
    requires Reachable(Pair(main, usage, child, usages, map[0 := task]))
    ensures Reachable(Pair(main, usage, after, usages, map[0 := task.(children := [])]))
  {
    var s, t := Pair(main, usage, child, usages, map[0 := task]), Pair(main, usage, after, usages, map[0 := task.(children := [])]);
    assert task.children[1..] == [];
    assert ChildAnswered(s, 0, outcome, t);
    Reaches(s, OnTask(ChildAnswer(0, outcome)), t);
  }

  lemma PairStopping()
    ensures Reachable(Pair(Stopping, None, Running, Bill([false]), map[0 := ShuttingDown([1])]))
  {
    PairCreated();
    PairServices(Running, Some(0), Running, Bill([true]), map[]);
    assert Closed(Bill([true]), Some(0)) == Bill([false]);
    Reaches(Pair(Running, Some(0), Running, Bill([true]), map[]), OnRequest(Stop(0, true, [1])),
            Pair(Stopping, None, Running, Bill([false]), map[0 := ShuttingDown([1])]));
  }

  lemma PairStopped()
    ensures Reachable(Pair(Stopped, None, Stopped, Bill([false]), map[]))
  {
    PairStopping();
    PairChild(Stopping, None, Running, Bill([false]), ShuttingDown([1]), Done, Stopped);
    Reaches(Pair(Stopping, None, Stopped, Bill([false]), map[0 := ShuttingDown([])]), OnTask(MainAnswer(0, Done, 0)),
            Pair(Stopped, None, Stopped, Bill([false]), map[]));
  }

  lemma PairStarting(main: Status, usage: Option<Id>, usages: map<Id, Usage>, a: Request, waiting: bool)
    requires Reachable(Pair(main, usage, Stopped, usages, map[]))
    requires if waiting then a == AutoStart(1, 0, true, [1]) else a == Start(0, true, [1]) && main != Running
    ensures Reachable(Pair(Starting, usage, Stopped, usages, map[0 := StartingUp([1], waiting)]))
  {
    PairServices(main, usage, Stopped, usages, map[]);
    var s, t := Pair(main, usage, Stopped, usages, map[]), Pair(Starting, usage, Stopped, usages, map[0 := StartingUp([1], waiting)]);
    assert Launches(s, t, 0, true, [1], waiting);
    Reaches(s, OnRequest(a), t);
  }

  /** The host starts the main workspace, which opens the usage `u`. */
  lemma PairStarted(usage: Option<Id>, child: Status, before: map<Id, Usage>, u: Id, after: map<Id, Usage>, waiting: bool)
    requires u !in before && after == before[u := Usage(0, true)]
    requires Reachable(Pair(Starting, usage, child, before, map[0 := StartingUp([], waiting)]))
    ensures Reachable(Pair(Running, Some(u), child, after, map[]))
  {
    var s, t := Pair(Starting, usage, child, before, map[0 := StartingUp([], waiting)]), Pair(Running, Some(u), child, after, map[]);
    assert MainAnswered(s, 0, Done, u, t);
    Reaches(s, OnTask(MainAnswer(0, Done, u)), t);
  }

  lemma PairHalfStarted()
    ensures Reachable(Pair(Running, Some(1), Stopped, Bill([false, true]), map[]))
  {
    PairStopped();
    PairStarting(Stopped, None, Bill([false]), Start(0, true, [1]), false);
    PairChild(Starting, None, Stopped, Bill([false]), StartingUp([1], false), NoAnswer, Stopped);
    assert Bill([false])[1 := Usage(0, true)] == Bill([false, true]);
    PairStarted(None, Stopped, Bill([false]), 1, Bill([false, true]), false);
  }

  /**
   A service whose start got no answer stays Stopped beside a running main workspace; logging in to it starts the family
   again and loses the main workspace's open usage.
   */
  lemma LoginToStoppedServiceLeaks()
    ensures var s := Pair(Running, Some(2), Running, Bill([false, true, true]), map[]);
            Reachable(s) && OpenFor(s, 0, 1) && OpenFor(s, 0, 2)
  {
    PairHalfStarted();
    PairStarting(Running, Some(1), Bill([false, true]), AutoStart(1, 0, true, [1]), true);
    PairChild(Starting, Some(1), Stopped, Bill([false, true]), StartingUp([1], true), Done, Running);
    assert Bill([false, true])[2 := Usage(0, true)] == Bill([false, true, true]);
    PairStarted(Some(1), Running, Bill([false, true]), 2, Bill([false, true, true]), true);
  }

  // ---------- a service without its main workspace ----------

  function Orphan(): State {
    State(map[0 := Row(false, Deleted, None, true, None, 0), 1 := Row(true, DeleteFailed, None, true, Some(0), 1)],
          Bill([false]), map[])
  }

  lemma PairDeleting()
    ensures Reachable(Pair(Deleting, None, Running, Bill([false]), map[0 := Removing([1])]))
  {
    PairCreated();
    PairServices(Running, Some(0), Running, Bill([true]), map[]);
    assert Closed(Bill([true]), Some(0)) == Bill([false]);
    Reaches(Pair(Running, Some(0), Running, Bill([true]), map[]), OnRequest(Delete(0, [1])),
            Pair(Deleting, None, Running, Bill([false]), map[0 := Removing([1])]));
  }

  /**
   Reachable: the host refuses to remove a service and removes the main workspace.  The service lives on, and neither row accepts
   a request any more.
   */
  lemma RefusedServiceIsOrphaned()
    ensures Reachable(Orphan()) && LiveChild(Orphan(), 1, 0) && !Orphan().rows[0].live
    ensures !Accepts(Orphan(), 0) && !Accepts(Orphan(), 1)
  {
    PairDeleting();
    PairChild(Deleting, None, Running, Bill([false]), Removing([1]), Refused, DeleteFailed);
    var s := Pair(Deleting, None, DeleteFailed, Bill([false]), map[0 := Removing([])]);
    assert MainAnswered(s, 0, Done, 0, Orphan());
    Reaches(s, OnTask(MainAnswer(0, Done, 0)), Orphan());
  }
}
