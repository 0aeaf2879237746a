/**
 Which running workspaces are stopped for inactivity.  Either the organization sets one timeout, or every workspace has
 its own; the two modes compute with different roundings.  Times are nanoseconds.
 */
module AutoStop {
  import opened Common
  import opened Lifecycle
  import opened Families

  const SECOND: int := 1_000_000_000

  /** What the check reads of a workspace beside its row, and the organization it belongs to. */
  datatype Activity = Activity(org: Id, lastInactivity: Option<int>, autoStop: Option<int>)

  /** Whole seconds of a duration, truncated towards zero. */
  function NumSeconds(d: int): int {
    if d >= 0 then d / SECOND else -((-d) / SECOND)
  }

  datatype Policy = Policy(autoStop: Option<nat>, allowChange: bool)

  /** The tables: the rows of the life cycle and when their users were last seen. */
  datatype Db = Db(state: State, activity: map<Id, Activity>)

  predicate Known(db: Db) {
    db.state.rows.Keys == db.activity.Keys
  }

  predicate IsRunning(db: Db, w: Id) {
    w in db.state.rows && db.state.rows[w].status == Running && db.state.rows[w].live
  }

  /** The organization's timeout, compared in the database. */
  predicate OrganizationTimeout(db: Db, timeout: nat, now: int, w: Id)
    requires Known(db)
  {
    && IsRunning(db, w)
    && db.activity[w].lastInactivity.Some?
    && db.activity[w].lastInactivity.value < now - timeout * SECOND
  }

  /** The workspace's own timeout, compared in whole seconds. */
  predicate OwnTimeout(db: Db, now: int, w: Id)
    requires Known(db)
  {
    && IsRunning(db, w)
    && db.activity[w].lastInactivity.Some? && db.activity[w].autoStop.Some?
    && NumSeconds(now - db.activity[w].lastInactivity.value) > db.activity[w].autoStop.value
  }

  predicate TimedOut(db: Db, policy: Policy, now: int, w: Id)
    requires Known(db)
  {
    if policy.allowChange then OwnTimeout(db, now, w)
    else policy.autoStop.Some? && OrganizationTimeout(db, policy.autoStop.value, now, w)
  }

  /** Given the workspaces that timed out: a plain one is stopped, a compose main one if all its live services are among them. */
  ghost predicate Selected(db: Db, timedOut: set<Id>, w: Id) {
    && w in timedOut && w in db.state.rows
    && var row := db.state.rows[w];
       || !row.isCompose
       || (row.parent == None && forall c | LiveChild(db.state, c, w) :: c in timedOut && db.state.rows[c].isCompose)
  }

  ghost function TimedOutSet(db: Db, policy: Policy, now: int): set<Id>
    requires Known(db)
  {
    set w | w in db.state.rows && TimedOut(db, policy, now, w)
  }

  /** The rows for which the clock, read when the row is looked at, shows a timeout. */
  ghost function TimedOutBy(db: Db, policy: Policy, clock: map<Id, int>): set<Id>
    requires Known(db) && db.state.rows.Keys <= clock.Keys
  {
    set w | w in db.state.rows && TimedOut(db, policy, clock[w], w)
  }

  // ---------- the timeouts in the words of the tables ----------

  /** More whole seconds than `stop`, as an interval of nanoseconds. */
  lemma WholeSeconds(d: int, stop: int)
    ensures NumSeconds(d) > stop <==> if stop >= 0 then d >= (stop + 1) * 1_000_000_000 else d > stop * 1_000_000_000
  {
  }

  /**
   Only a live Running workspace whose user has left times out: by the organization's timeout once that has passed, or, where
   workspaces have their own, by its own alone and only when a further second is over.
   */
  lemma TimedOutMeans(db: Db, policy: Policy, now: int, w: Id)
    requires Known(db) && w in db.state.rows
    ensures TimedOut(db, policy, now, w) <==>
            && db.state.rows[w].live && db.state.rows[w].status == Running && db.activity[w].lastInactivity.Some?
            && var gone := now - db.activity[w].lastInactivity.value;
               if policy.allowChange then
                 && db.activity[w].autoStop.Some?
                 && var stop := db.activity[w].autoStop.value;
                    if stop >= 0 then gone >= (stop + 1) * 1_000_000_000 else gone > stop * 1_000_000_000
               else
                 policy.autoStop.Some? && gone > policy.autoStop.value * 1_000_000_000
  {
    if policy.allowChange && db.activity[w].lastInactivity.Some? && db.activity[w].autoStop.Some? {
      WholeSeconds(now - db.activity[w].lastInactivity.value, db.activity[w].autoStop.value);
    }
  }

  // ---------- the program ----------

  method ListRows(keys: set<Id>) returns (s: seq<Id>)
    ensures forall w :: w in s <==> w in keys
    ensures NoRepeats(s)
  {
    s := [];
    var rest := keys;
    while rest != {}
      invariant rest <= keys
      invariant forall w :: w in s <==> w in keys && w !in rest
      invariant NoRepeats(s)
      decreases rest
    {
      var w :| w in rest;
      s, rest := s + [w], rest - {w};
    }
  }

  /** The clock is read once for the organization's query and once per row for the workspaces' own timeouts. */
  method FindTimedOut(db: Db, policy: Policy, clock: map<Id, int>) returns (workspaces: seq<Id>)
    requires Known(db) && db.state.rows.Keys <= clock.Keys
    ensures forall w :: w in workspaces <==> w in TimedOutBy(db, policy, clock)
    ensures NoRepeats(workspaces)
  {
    workspaces := [];
    if policy.autoStop == None && !policy.allowChange {
      return;
    }
    var rows := ListRows(db.state.rows.Keys);
    for i := 0 to |rows|
      invariant forall w :: w in workspaces <==> w in rows[..i] && TimedOut(db, policy, clock[w], w)
      invariant NoRepeats(workspaces)
    {
      assert rows[..i + 1] == rows[..i] + [rows[i]];
      assert rows[i] in rows;
      if TimedOut(db, policy, clock[rows[i]], rows[i]) {
        workspaces := workspaces + [rows[i]];
      }
    }
    assert rows[..|rows|] == rows;
  }

  method OrganizationAutoStopWorkspaces(db: Db, policy: Policy, clock: map<Id, int>) returns (remaining: seq<Id>)
    requires Known(db) && db.state.rows.Keys <= clock.Keys
    ensures forall w :: w in remaining <==> Selected(db, TimedOutBy(db, policy, clock), w)
    ensures NoRepeats(remaining)
  {
    var workspaces := FindTimedOut(db, policy, clock);
    var services := set w | w in workspaces && w in db.state.rows && db.state.rows[w].isCompose && db.state.rows[w].parent.Some?;
    ghost var all := TimedOutBy(db, policy, clock);
    remaining := [];
    for i := 0 to |workspaces|
      invariant forall w :: w in remaining <==> w in workspaces[..i] && Selected(db, all, w)
      invariant NoRepeats(remaining)
    {
      assert workspaces[..i + 1] == workspaces[..i] + [workspaces[i]];
      var w := workspaces[i];
      assert w in workspaces && w !in workspaces[..i];
      var row := db.state.rows[w];
      if !row.isCompose {
        remaining := remaining + [w];
      } else if row.parent == None {
        var children := set c | c in db.state.rows && LiveChild(db.state, c, w);
        if children <= services {
          assert forall c | LiveChild(db.state, c, w) :: c in children;
          remaining := remaining + [w];
        } else {
          var c :| c in children && c !in services;
          assert LiveChild(db.state, c, w) && c in db.state.rows;
        }
      }
    }
    assert workspaces[..|workspaces|] == workspaces;
  }

  // ---------- the two modes ----------

  /** Every workspace's own timeout is the organization's. */
  ghost predicate SameTimeout(db: Db, timeout: nat) {
    forall w | w in db.activity :: db.activity[w].autoStop == Some(timeout)
  }

  /**
   The modes agree to within a second, compose families included: what the workspaces' own timeouts stop at some time the
   organization's timeout stops too, and what the organization's stops, the own ones stop one second later.
   */
  lemma ModesAgreeWithinASecond(db: Db, timeout: nat, now: int, w: Id)
    requires Known(db) && SameTimeout(db, timeout)
    ensures var own, org := Policy(Some(timeout), true), Policy(Some(timeout), false);
            && (Selected(db, TimedOutSet(db, own, now), w) ==> Selected(db, TimedOutSet(db, org, now), w))
            && (Selected(db, TimedOutSet(db, org, now), w) ==> Selected(db, TimedOutSet(db, own, now + SECOND), w))
  {
  }

  /** At one instant the modes differ exactly while the second after the timeout is not over. */
  lemma ModesDifferExactly(db: Db, timeout: nat, now: int, w: Id)
    requires Known(db) && SameTimeout(db, timeout)
    ensures OrganizationTimeout(db, timeout, now, w) && !OwnTimeout(db, now, w) <==>
            && IsRunning(db, w) && db.activity[w].lastInactivity.Some?
            && timeout * SECOND < now - db.activity[w].lastInactivity.value < (timeout + 1) * SECOND
  {
  }

  /** Reading the clock row by row selects no less than its earliest reading would, and no more than its latest. */
  lemma ClockReadingsBound(db: Db, policy: Policy, clock: map<Id, int>, early: int, late: int, w: Id)
    requires Known(db) && db.state.rows.Keys <= clock.Keys
    requires forall v | v in clock :: early <= clock[v] <= late
    ensures Selected(db, TimedOutSet(db, policy, early), w) ==> Selected(db, TimedOutBy(db, policy, clock), w)
    ensures Selected(db, TimedOutBy(db, policy, clock), w) ==> Selected(db, TimedOutSet(db, policy, late), w)
  {
  }

  // ---------- families ----------

  /**
   On the forest that the life cycle keeps, no compose service is ever selected, and a compose main workspace is selected exactly
   if it and every one of its live services have timed out.
   */
  lemma SelectionRespectsFamilies(db: Db, timedOut: set<Id>, w: Id)
    requires Forest(db.state) && w in db.state.rows
    ensures Selected(db, timedOut, w) ==> db.state.rows[w].parent == None
    ensures db.state.rows[w].parent == None ==>
              (Selected(db, timedOut, w) <==> w in timedOut && forall c | LiveChild(db.state, c, w) :: c in timedOut)
  {
  }

  /** So in every state of every run, stopping a selected workspace with no background work under way is never refused. */
  lemma SelectedIsAccepted(states: seq<State>, steps: seq<Step>, k: nat, db: Db, policy: Policy, clock: map<Id, int>, w: Id)
    requires Run(states, steps) && states[0] == Empty() && k < |states| && db.state == states[k]
    requires Known(db) && db.state.rows.Keys <= clock.Keys && w !in db.state.tasks
    requires Selected(db, TimedOutBy(db, policy, clock), w)
    ensures Accepts(db.state, w)
    ensures db.state.rows[w].live && db.state.rows[w].status == Running && db.state.rows[w].parent == None
  {
    EmptyIsForest();
    RunIsForest(states, steps, k);
    SelectionRespectsFamilies(db, TimedOutBy(db, policy, clock), w);
  }

  // ---------- whose workspaces are stopped ----------

  /** The workspace times out under the policy if only enough time passes. */
  predicate CanTimeOut(db: Db, policy: Policy, w: Id)
    requires Known(db)
  {
    && w in db.state.rows && db.state.rows[w].live && db.state.rows[w].status == Running
    && db.activity[w].lastInactivity.Some?
    && (if policy.allowChange then db.activity[w].autoStop.Some? else policy.autoStop.Some?)
  }

  /** A main workspace that times out with all its live services if only enough time passes. */
  ghost predicate Endangered(db: Db, policy: Policy, w: Id)
    requires Known(db)
  {
    && CanTimeOut(db, policy, w) && db.state.rows[w].parent == None
    && forall c | LiveChild(db.state, c, w) :: CanTimeOut(db, policy, c)
  }

  lemma LateForOne(db: Db, policy: Policy, w: Id) returns (late: int)
    requires Known(db) && w in db.state.rows
    ensures CanTimeOut(db, policy, w) ==> TimedOut(db, policy, late, w)
  {
    late := 0;
    if CanTimeOut(db, policy, w) {
      var stop: int := if policy.allowChange then db.activity[w].autoStop.value else policy.autoStop.value;
      late := db.activity[w].lastInactivity.value + (if stop >= 0 then (stop + 1) * 1_000_000_000 else 0);
      TimedOutMeans(db, policy, late, w);
    }
  }

  lemma LaterIsNoLess(db: Db, policy: Policy, now: int, later: int, w: Id)
    requires Known(db) && w in db.state.rows && now <= later && TimedOut(db, policy, now, w)
    ensures TimedOut(db, policy, later, w)
  {
    TimedOutMeans(db, policy, now, w);
    TimedOutMeans(db, policy, later, w);
  }

  /** One time at which all of them have timed out. */
  lemma {:induction false} LateForAll(db: Db, policy: Policy, ws: set<Id>) returns (late: int)
    requires Known(db) && ws <= db.state.rows.Keys
    ensures forall w | w in ws && CanTimeOut(db, policy, w) :: TimedOut(db, policy, late, w)
    decreases ws
  {
    late := 0;
    if ws != {} {
      var w :| w in ws;
      var one := LateForOne(db, policy, w);
      var others := LateForAll(db, policy, ws - {w});
      late := if one >= others then one else others;
      forall v | v in ws && CanTimeOut(db, policy, v)
        ensures TimedOut(db, policy, late, v)
      {
        LaterIsNoLess(db, policy, if v == w then one else others, late, v);
      }
    }
  }

  lemma SelectedIsEndangered(db: Db, policy: Policy, clock: map<Id, int>, w: Id)
    requires Known(db) && Forest(db.state) && db.state.rows.Keys <= clock.Keys
    requires Selected(db, TimedOutBy(db, policy, clock), w)
    ensures Endangered(db, policy, w)
  {
    SelectionRespectsFamilies(db, TimedOutBy(db, policy, clock), w);
    forall v | v in TimedOutBy(db, policy, clock)
      ensures CanTimeOut(db, policy, v)
    {
      TimedOutMeans(db, policy, clock[v], v);
    }
  }

  lemma EndangeredIsSelected(db: Db, policy: Policy, w: Id) returns (clock: map<Id, int>)
    requires Known(db) && Forest(db.state) && Endangered(db, policy, w)
    ensures db.state.rows.Keys <= clock.Keys && Selected(db, TimedOutBy(db, policy, clock), w)
  {
    var late := LateForAll(db, policy, db.state.rows.Keys);
    clock := map v | v in db.state.rows :: late;
    SelectionRespectsFamilies(db, TimedOutBy(db, policy, clock), w);
  }

  /**
   The queries ask for no organization, so the check made for one stops the workspaces of all.  It stops no other organization's
   workspace, whenever it is made, exactly if no other organization has one that can time out with its services.
   */
  lemma StopsOnlyItsOwnExact(db: Db, policy: Policy, org: Id)
    requires Known(db) && Forest(db.state)
    ensures (forall clock: map<Id, int>, w | db.state.rows.Keys <= clock.Keys && Selected(db, TimedOutBy(db, policy, clock), w) ::
               db.activity[w].org == org) <==>
            (forall w | Endangered(db, policy, w) :: db.activity[w].org == org)
  {
    if forall clock: map<Id, int>, w | db.state.rows.Keys <= clock.Keys && Selected(db, TimedOutBy(db, policy, clock), w) ::
        db.activity[w].org == org
    {
      forall w | Endangered(db, policy, w)
        ensures db.activity[w].org == org
      {
        var clock := EndangeredIsSelected(db, policy, w);
        assert Selected(db, TimedOutBy(db, policy, clock), w);
      }
    }
    if forall w | Endangered(db, policy, w) :: db.activity[w].org == org {
      forall clock: map<Id, int>, w | db.state.rows.Keys <= clock.Keys && Selected(db, TimedOutBy(db, policy, clock), w)
        ensures db.activity[w].org == org
      {
        SelectedIsEndangered(db, policy, clock, w);
      }
    }
  }

  /** Organization 1 stops after a minute; the only workspace belongs to organization 2, whose user left two minutes ago. */
  lemma ForeignWorkspaceIsStopped(row: Row)
    requires row.live && row.status == Running && row.parent == None && !row.isCompose
    ensures var db := Db(Empty().(rows := map[0 := row]), map[0 := Activity(2, Some(0), None)]);
            Selected(db, TimedOutBy(db, Policy(Some(60), false), map[0 := 120 * SECOND]), 0)
  {
  }
}
