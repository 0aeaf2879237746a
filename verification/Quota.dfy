/**
 Admission under quotas.  A request that makes a workspace run locks the quota rows it depends on, counts committed rows,
 and only then writes and commits.  Transactions interleave: locking, counting for the user, counting for the
 organization and committing are steps of their own, and so is every unguarded change of a workspace.
 */
module Quota {
  import opened Common
  import opened Lifecycle
  import Runs

  /** The user whose row holds the default for all users. */
  const DEFAULT_USER: Id := 0

  /** One row per organization and user; no user means the organization's own limit. */
  datatype RowKey = RowKey(org: Id, user: Option<Id>)

  datatype QuotaRow = QuotaRow(user: Option<Id>, value: int)

  datatype QuotaValue = QuotaValue(user: nat, organization: nat)

  // ---------- reading the limits ----------

  function PositiveAt(limits: map<RowKey, int>, key: RowKey): nat {
    if key in limits && limits[key] > 0 then limits[key] else 0
  }

  /** The user's own limit first, else the default; zero means unlimited. */
  function UserLimit(limits: map<RowKey, int>, org: Id, user: Id): nat {
    var own := PositiveAt(limits, RowKey(org, Some(user)));
    if own > 0 then own else PositiveAt(limits, RowKey(org, Some(DEFAULT_USER)))
  }

  function OrganizationLimit(limits: map<RowKey, int>, org: Id): nat {
    PositiveAt(limits, RowKey(org, None))
  }

  predicate Relevant(key: RowKey, org: Id, user: Id) {
    key.org == org && (key.user == None || key.user == Some(user) || key.user == Some(DEFAULT_USER))
  }

  /** What the locking query returns, in any order: the relevant rows. */
  ghost predicate Listing(limits: map<RowKey, int>, org: Id, user: Id, quotas: seq<QuotaRow>) {
    && (forall i | 0 <= i < |quotas| ::
          var key := RowKey(org, quotas[i].user);
          key in limits && limits[key] == quotas[i].value && Relevant(key, org, user))
    && (forall key | key in limits && Relevant(key, org, user) :: QuotaRow(key.user, limits[key]) in quotas)
  }

  /** The positive value of a user's row among the first `n` rows. */
  ghost function Found(limits: map<RowKey, int>, org: Id, quotas: seq<QuotaRow>, n: nat, user: Option<Id>): nat
    requires n <= |quotas|
  {
    if exists i | 0 <= i < n :: quotas[i].user == user then PositiveAt(limits, RowKey(org, user)) else 0
  }

  lemma FoundStep(limits: map<RowKey, int>, org: Id, user: Id, quotas: seq<QuotaRow>, n: nat, wanted: Option<Id>)
    requires Listing(limits, org, user, quotas) && n < |quotas|
    ensures Found(limits, org, quotas, n + 1, wanted) ==
            if quotas[n].user == wanted && quotas[n].value > 0 then quotas[n].value
            else Found(limits, org, quotas, n, wanted)
  {
  }

  lemma FoundAll(limits: map<RowKey, int>, org: Id, user: Id, quotas: seq<QuotaRow>, wanted: Option<Id>)
    requires Listing(limits, org, user, quotas) && Relevant(RowKey(org, wanted), org, user)
    ensures Found(limits, org, quotas, |quotas|, wanted) == PositiveAt(limits, RowKey(org, wanted))
  {
  }

  /** The limits on the rows: the user's own row wins over the default row, whatever that says; no positive row, no limit. */
  lemma LimitsMean(limits: map<RowKey, int>, org: Id, user: Id)
    ensures var own, default := RowKey(org, Some(user)), RowKey(org, Some(0));
            && (own in limits && limits[own] > 0 ==> UserLimit(limits, org, user) == limits[own])
            && (!(own in limits && limits[own] > 0) && default in limits && limits[default] > 0 ==>
                  UserLimit(limits, org, user) == limits[default])
            && (!(own in limits && limits[own] > 0) && !(default in limits && limits[default] > 0) ==>
                  UserLimit(limits, org, user) == 0)
    ensures var whole := RowKey(org, None);
            OrganizationLimit(limits, org) == if whole in limits && limits[whole] > 0 then limits[whole] else 0
  {
  }

  /** The two passes over the locked rows find the limits, whatever order the rows come in. */
  method ReadQuotaValue(ghost limits: map<RowKey, int>, ghost org: Id, user: Id, quotas: seq<QuotaRow>)
    returns (value: QuotaValue)
    requires Listing(limits, org, user, quotas)
    ensures value == QuotaValue(UserLimit(limits, org, user), OrganizationLimit(limits, org))
    ensures var own, default := RowKey(org, Some(user)), RowKey(org, Some(0));
            if own in limits && limits[own] > 0 then value.user == limits[own]
            else if default in limits && limits[default] > 0 then value.user == limits[default]
            else value.user == 0
    ensures var whole := RowKey(org, None);
            value.organization == if whole in limits && limits[whole] > 0 then limits[whole] else 0
  {
    value := QuotaValue(0, 0);
    for n := 0 to |quotas|
      invariant value.user == Found(limits, org, quotas, n, Some(user))
      invariant value.organization == Found(limits, org, quotas, n, None)
    {
      FoundStep(limits, org, user, quotas, n, Some(user));
      FoundStep(limits, org, user, quotas, n, None);
      if quotas[n].user == None && quotas[n].value > 0 {
        value := value.(organization := quotas[n].value);
      } else if quotas[n].user == Some(user) && quotas[n].value > 0 {
        value := value.(user := quotas[n].value);
      }
    }
    FoundAll(limits, org, user, quotas, Some(user));
    FoundAll(limits, org, user, quotas, None);
    if value.user == 0 {
      for n := 0 to |quotas|
        invariant value.user == Found(limits, org, quotas, n, Some(DEFAULT_USER))
        invariant value.organization == OrganizationLimit(limits, org)
      {
        FoundStep(limits, org, user, quotas, n, Some(DEFAULT_USER));
        if quotas[n].user == Some(DEFAULT_USER) && quotas[n].value > 0 {
          value := value.(user := quotas[n].value);
        }
      }
      FoundAll(limits, org, user, quotas, Some(DEFAULT_USER));
    }
  }

  // ---------- the state ----------

  datatype Ws = Ws(org: Id, user: Id, live: bool, main: bool, status: Status)

  /** How a transaction makes a workspace run. */
  datatype Action = Create(w: Id) | Start(w: Id) | Rebuild(w: Id)

  datatype Phase = Locked | UserCounted | Admitted

  datatype Txn = Txn(org: Id, user: Id, action: Action, value: QuotaValue, phase: Phase)

  datatype State = Tables(workspaces: map<Id, Ws>, limits: map<RowKey, int>, txns: map<Id, Txn>)

  /**
   Two measures: `Counted` is the program's own query, everything but Stopped; `Active` leaves out what only winds
   down: Stopping, StopFailed, Deleting and DeleteFailed.
   */
  datatype Measure = Counted | Active

  predicate InMeasure(m: Measure, status: Status) {
    match m
    case Counted => status != Stopped
    case Active =>
      || UnderConstruction(status)
      || status == Starting || status == Running || status == Failed
  }

  predicate IsCounted(m: Measure, row: Ws) {
    row.live && row.main && InMeasure(m, row.status)
  }

  function UserSet(s: State, m: Measure, org: Id, user: Id): set<Id> {
    set w | w in s.workspaces && IsCounted(m, s.workspaces[w]) && s.workspaces[w].org == org && s.workspaces[w].user == user
  }

  function OrgSet(s: State, m: Measure, org: Id): set<Id> {
    set w | w in s.workspaces && IsCounted(m, s.workspaces[w]) && s.workspaces[w].org == org
  }

  // ---------- steps ----------

  datatype Step =
    | Lock(t: Id, org: Id, user: Id, action: Action)
    | CountUser(t: Id)
    | CountOrganization(t: Id)
    | Commit(t: Id)
    | CommitUnlicensed(org: Id, user: Id, action: Action)
    | Abort(t: Id)
    | Change(w: Id, status: Status)
    | InsertService(w: Id, main: Id)
    | RaiseLimit(key: RowKey, value: int)

  /** The existing rows that a transaction holds. */
  function Held(limits: map<RowKey, int>, txn: Txn): set<RowKey> {
    set key | key in limits && Relevant(key, txn.org, txn.user)
  }

  ghost predicate Free(s: State, key: RowKey) {
    forall t | t in s.txns :: key !in Held(s.limits, s.txns[t])
  }

  /** A start or rebuild is of a live main workspace of that user; a creation is of a new one. */
  predicate Targets(s: State, txn: Txn) {
    var w := txn.action.w;
    if txn.action.Create? then w !in s.workspaces
    else w in s.workspaces && s.workspaces[w].live && s.workspaces[w].org == txn.org && s.workspaces[w].user == txn.user
  }

  function Written(s: State, txn: Txn): Ws
    requires Targets(s, txn)
  {
    match txn.action
    case Create(_) => Ws(txn.org, txn.user, true, true, New)
    case Start(w) => s.workspaces[w].(status := Starting)
    case Rebuild(w) => s.workspaces[w].(status := Building)
  }

  /** The changes of status that no quota guards: background work, stopping, deleting, rebuilding what runs. */
  predicate Unguarded(from: Status, to: Status) {
    match to
    case New => false
    case PrebuildBuilding => UnderConstruction(from)
    case PrebuildCopying => UnderConstruction(from)
    case Building => UnderConstruction(from) || from == Running
    case Running => UnderConstruction(from) || from == Starting
    case Failed => UnderConstruction(from) || from == Running || from == Starting
    case Starting => false
    case Stopping => from != Stopped
    case Stopped => from == Stopping
    case StopFailed => from == Stopping
    case Deleting => !UnderConstruction(from)
    case Deleted => from == Deleting
    case DeleteFailed => from == Deleting
  }

  ghost predicate Next(s: State, a: Step, t: State) {
    match a
    case Lock(id, org, user, action) =>
      var txn := Txn(org, user, action, QuotaValue(UserLimit(s.limits, org, user), OrganizationLimit(s.limits, org)), Locked);
      && id !in s.txns && (forall key | key in Held(s.limits, txn) :: Free(s, key))
      && t.txns == s.txns[id := txn] && t.workspaces == s.workspaces && t.limits == s.limits
    case CountUser(id) =>
      && id in s.txns && s.txns[id].phase == Locked && t.workspaces == s.workspaces && t.limits == s.limits
      && var txn := s.txns[id];
         if txn.value.user > 0 && |UserSet(s, Counted, txn.org, txn.user)| >= txn.value.user then t.txns == s.txns - {id}
         else t.txns == s.txns[id := txn.(phase := UserCounted)]
    case CountOrganization(id) =>
      && id in s.txns && s.txns[id].phase == UserCounted && t.workspaces == s.workspaces && t.limits == s.limits
      && var txn := s.txns[id];
         if txn.value.organization > 0 && |OrgSet(s, Counted, txn.org)| >= txn.value.organization then t.txns == s.txns - {id}
         else t.txns == s.txns[id := txn.(phase := Admitted)]
    case Commit(id) =>
      && id in s.txns && s.txns[id].phase == Admitted && Targets(s, s.txns[id])
      && t.workspaces == s.workspaces[s.txns[id].action.w := Written(s, s.txns[id])]
      && t.limits == s.limits && t.txns == s.txns - {id}
    case CommitUnlicensed(org, user, action) =>
      // without a valid license nothing is locked and nothing counted
      var txn := Txn(org, user, action, QuotaValue(0, 0), Admitted);
      && Targets(s, txn)
      && t.workspaces == s.workspaces[action.w := Written(s, txn)] && t.limits == s.limits && t.txns == s.txns
    case Abort(id) =>
      id in s.txns && t.txns == s.txns - {id} && t.workspaces == s.workspaces && t.limits == s.limits
    case Change(w, status) =>
      && w in s.workspaces && s.workspaces[w].live && Unguarded(s.workspaces[w].status, status)
      && t.workspaces == s.workspaces[w := s.workspaces[w].(status := status, live := status != Deleted)]
      && t.limits == s.limits && t.txns == s.txns
    case InsertService(w, main) =>
      && w !in s.workspaces && main in s.workspaces
      && t.workspaces == s.workspaces[w := s.workspaces[main].(live := true, main := false, status := Running)]
      && t.limits == s.limits && t.txns == s.txns
    case RaiseLimit(key, value) =>
      && key in s.limits && 0 < s.limits[key] <= value && Free(s, key)
      && t.limits == s.limits[key := value] && t.workspaces == s.workspaces && t.txns == s.txns
  }

  ghost predicate Run(states: seq<State>, steps: seq<Step>) {
    |states| == |steps| + 1 && forall i | 0 <= i < |steps| :: Next(states[i], steps[i], states[i + 1])
  }

  /** The license is valid; and, for the program's own measure, no stopped workspace is deleted. */
  predicate Orderly(m: Measure, s: State, a: Step) {
    && !a.CommitUnlicensed?
    && (m == Counted && a.Change? && a.status == Deleting && a.w in s.workspaces ==> s.workspaces[a.w].status != Stopped)
  }

  /** Nothing runs yet, under whatever limits. */
  function Empty(limits: map<RowKey, int>): State {
    Tables(map[], limits, map[])
  }

  // ---------- the invariant ----------

  ghost predicate Within(s: State, m: Measure) {
    && (forall org, user | UserLimit(s.limits, org, user) > 0 :: |UserSet(s, m, org, user)| <= UserLimit(s.limits, org, user))
    && (forall org | OrganizationLimit(s.limits, org) > 0 :: |OrgSet(s, m, org)| <= OrganizationLimit(s.limits, org))
  }

  /** Different transactions hold different rows. */
  ghost predicate Exclusive(s: State) {
    forall t, u | t in s.txns && u in s.txns && t != u :: Held(s.limits, s.txns[t]) !! Held(s.limits, s.txns[u])
  }

  /** A transaction still knows the limits, and what it has counted still has room for one more. */
  ghost predicate Informed(s: State, m: Measure, txn: Txn) {
    && txn.value == QuotaValue(UserLimit(s.limits, txn.org, txn.user), OrganizationLimit(s.limits, txn.org))
    && (txn.phase != Locked && txn.value.user > 0 ==> |UserSet(s, m, txn.org, txn.user)| < txn.value.user)
    && (txn.phase == Admitted && txn.value.organization > 0 ==> |OrgSet(s, m, txn.org)| < txn.value.organization)
  }

  ghost predicate Admission(s: State, m: Measure) {
    Within(s, m) && Exclusive(s) && forall t | t in s.txns :: Informed(s, m, s.txns[t])
  }

  lemma Subsets(a: set<Id>, b: set<Id>)
    requires a <= b
    ensures |a| <= |b|
  {
    if a != b {
      assert b == a + (b - a);
    }
  }

  lemma OneMore(a: set<Id>, b: set<Id>, w: Id)
    requires a <= b + {w}
    ensures |a| <= |b| + 1
  {
    Subsets(a, b + {w});
    if w in b {
      assert b + {w} == b;
    }
  }

  /** The program's measure contains the other. */
  lemma CountedIsMore(s: State, m: Measure, org: Id, user: Id)
    ensures |UserSet(s, m, org, user)| <= |UserSet(s, Counted, org, user)|
    ensures |OrgSet(s, m, org)| <= |OrgSet(s, Counted, org)|
  {
    Subsets(UserSet(s, m, org, user), UserSet(s, Counted, org, user));
    Subsets(OrgSet(s, m, org), OrgSet(s, Counted, org));
  }

  /** A write that brings no workspace into the measure. */
  ghost predicate AddsNothing(s: State, m: Measure, t: State) {
    forall w | w in t.workspaces && IsCounted(m, t.workspaces[w]) ::
      && w in s.workspaces && IsCounted(m, s.workspaces[w])
      && s.workspaces[w].org == t.workspaces[w].org && s.workspaces[w].user == t.workspaces[w].user
  }

  lemma NothingAdded(s: State, m: Measure, t: State, org: Id, user: Id)
    requires AddsNothing(s, m, t)
    ensures |UserSet(t, m, org, user)| <= |UserSet(s, m, org, user)|
    ensures |OrgSet(t, m, org)| <= |OrgSet(s, m, org)|
  {
    Subsets(UserSet(t, m, org, user), UserSet(s, m, org, user));
    Subsets(OrgSet(t, m, org), OrgSet(s, m, org));
  }

  lemma AdmissionKept(s: State, m: Measure, t: State)
    requires Admission(s, m) && AddsNothing(s, m, t) && t.limits == s.limits && t.txns == s.txns
    ensures Admission(t, m)
  {
    forall org, user
      ensures |UserSet(t, m, org, user)| <= |UserSet(s, m, org, user)|
    {
      NothingAdded(s, m, t, org, user);
    }
    forall org
      ensures |OrgSet(t, m, org)| <= |OrgSet(s, m, org)|
    {
      NothingAdded(s, m, t, org, DEFAULT_USER);
    }
  }

  lemma ChangeStep(s: State, m: Measure, a: Step, t: State)
    requires Admission(s, m) && Next(s, a, t) && Orderly(m, s, a) && (a.Change? || a.InsertService?)
    ensures Admission(t, m)
  {
    AdmissionKept(s, m, t);
  }

  lemma LockStep(s: State, m: Measure, a: Step, t: State)
    requires Admission(s, m) && Next(s, a, t) && a.Lock?
    ensures Admission(t, m)
  {
    AddsNothingSame(s, m, t);
    ExclusiveLock(s, t, a.t);
  }

  lemma ExclusiveLock(s: State, t: State, id: Id)
    requires Exclusive(s) && id !in s.txns && id in t.txns && t.limits == s.limits && t.txns == s.txns[id := t.txns[id]]
    requires forall key | key in Held(s.limits, t.txns[id]) :: Free(s, key)
    ensures Exclusive(t)
  {
    forall u | u in s.txns
      ensures Held(t.limits, t.txns[id]) !! Held(t.limits, s.txns[u])
    {
      assert forall key | key in Held(s.limits, t.txns[id]) :: Free(s, key);
    }
  }

  lemma AddsNothingSame(s: State, m: Measure, t: State)
    requires t.workspaces == s.workspaces
    ensures forall org, user :: UserSet(t, m, org, user) == UserSet(s, m, org, user)
    ensures forall org :: OrgSet(t, m, org) == OrgSet(s, m, org)
  {
  }

  lemma WithinSame(s: State, m: Measure, t: State)
    requires Within(s, m) && t.workspaces == s.workspaces && t.limits == s.limits
    ensures Within(t, m)
    ensures forall txn :: Informed(s, m, txn) ==> Informed(t, m, txn)
  {
  }

  /** A refused or aborted transaction is forgotten. */
  lemma Forget(s: State, m: Measure, t: State, id: Id)
    requires Admission(s, m) && t.workspaces == s.workspaces && t.limits == s.limits && t.txns == s.txns - {id}
    ensures Admission(t, m)
  {
  }

  lemma Note(s: State, m: Measure, t: State, id: Id, txn: Txn)
    requires Admission(s, m) && id in s.txns && t.workspaces == s.workspaces && t.limits == s.limits
    requires txn.org == s.txns[id].org && txn.user == s.txns[id].user && Informed(s, m, txn) && t.txns == s.txns[id := txn]
    ensures Admission(t, m)
  {
    WithinSame(s, m, t);
    ExclusiveNote(s, t, id, txn);
  }

  lemma ExclusiveNote(s: State, t: State, id: Id, txn: Txn)
    requires Exclusive(s) && id in s.txns && t.limits == s.limits && t.txns == s.txns[id := txn]
    requires txn.org == s.txns[id].org && txn.user == s.txns[id].user
    ensures Exclusive(t)
  {
    ExclusiveSame(s, t);
  }

  lemma ExclusiveSame(s: State, t: State)
    requires Exclusive(s) && t.limits == s.limits && t.txns.Keys == s.txns.Keys
    requires forall u | u in s.txns :: t.txns[u].org == s.txns[u].org && t.txns[u].user == s.txns[u].user
    ensures Exclusive(t)
  {
  }

  lemma CountStep(s: State, m: Measure, a: Step, t: State)
    requires Admission(s, m) && Next(s, a, t) && (a.CountUser? || a.CountOrganization?)
    ensures Admission(t, m)
  {
    var txn := s.txns[a.t];
    assert Informed(s, m, txn);
    CountedIsMore(s, m, txn.org, txn.user);
    if a.t in t.txns {
      Note(s, m, t, a.t, t.txns[a.t]);
    } else {
      Forget(s, m, t, a.t);
    }
  }

  lemma RaiseStep(s: State, m: Measure, a: Step, t: State)
    requires Admission(s, m) && Next(s, a, t) && a.RaiseLimit?
    ensures Admission(t, m)
  {
    AddsNothingSame(s, m, t);
    forall key
      ensures PositiveAt(s.limits, key) <= PositiveAt(t.limits, key)
      ensures PositiveAt(s.limits, key) > 0 <==> PositiveAt(t.limits, key) > 0
      ensures key != a.key ==> PositiveAt(t.limits, key) == PositiveAt(s.limits, key)
    {
    }
    forall txn: Txn
      ensures Held(t.limits, txn) == Held(s.limits, txn)
    {
    }
    forall u | u in s.txns
      ensures Informed(t, m, s.txns[u])
    {
      var txn := s.txns[u];
      assert a.key !in Held(s.limits, txn);
      assert Informed(s, m, txn);
    }
  }

  // ---------- committing ----------

  lemma CommitCounts(s: State, m: Measure, a: Step, t: State, org: Id, user: Id)
    requires Next(s, a, t) && a.Commit?
    ensures var txn := s.txns[a.t];
            && (org == txn.org && user == txn.user ==> |UserSet(t, m, org, user)| <= |UserSet(s, m, org, user)| + 1)
            && (org != txn.org || user != txn.user ==> |UserSet(t, m, org, user)| <= |UserSet(s, m, org, user)|)
            && (org == txn.org ==> |OrgSet(t, m, org)| <= |OrgSet(s, m, org)| + 1)
            && (org != txn.org ==> |OrgSet(t, m, org)| <= |OrgSet(s, m, org)|)
  {
    var txn := s.txns[a.t];
    var w := txn.action.w;
    if org == txn.org && user == txn.user {
      OneMore(UserSet(t, m, org, user), UserSet(s, m, org, user), w);
    } else {
      Subsets(UserSet(t, m, org, user), UserSet(s, m, org, user));
    }
    if org == txn.org {
      OneMore(OrgSet(t, m, org), OrgSet(s, m, org), w);
    } else {
      Subsets(OrgSet(t, m, org), OrgSet(s, m, org));
    }
  }

  /** Two transactions never count against the same limit at the same time. */
  lemma OneCounter(s: State, t: Id, u: Id)
    requires Exclusive(s) && t in s.txns && u in s.txns && t != u && s.txns[t].org == s.txns[u].org
    ensures OrganizationLimit(s.limits, s.txns[t].org) == 0
    ensures s.txns[t].user == s.txns[u].user ==> UserLimit(s.limits, s.txns[t].org, s.txns[t].user) == 0
  {
    var org := s.txns[t].org;
    NoRow(s.limits, s.txns[t], s.txns[u], RowKey(org, None));
    NoRow(s.limits, s.txns[t], s.txns[u], RowKey(org, Some(DEFAULT_USER)));
    if s.txns[t].user == s.txns[u].user {
      NoRow(s.limits, s.txns[t], s.txns[u], RowKey(org, Some(s.txns[t].user)));
    }
  }

  lemma NoRow(limits: map<RowKey, int>, a: Txn, b: Txn, key: RowKey)
    requires Held(limits, a) !! Held(limits, b) && Relevant(key, a.org, a.user) && Relevant(key, b.org, b.user)
    ensures key !in limits
  {
    assert key in Held(limits, a) <==> key in limits;
    assert key in Held(limits, b) <==> key in limits;
  }

  lemma CommitWithin(s: State, m: Measure, a: Step, t: State)
    requires Admission(s, m) && Next(s, a, t) && a.Commit?
    ensures Within(t, m)
  {
    assert Informed(s, m, s.txns[a.t]);
    forall org, user
      ensures UserLimit(t.limits, org, user) > 0 ==> |UserSet(t, m, org, user)| <= UserLimit(t.limits, org, user)
    {
      CommitCounts(s, m, a, t, org, user);
    }
    forall org
      ensures OrganizationLimit(t.limits, org) > 0 ==> |OrgSet(t, m, org)| <= OrganizationLimit(t.limits, org)
    {
      CommitCounts(s, m, a, t, org, DEFAULT_USER);
    }
  }

  lemma CommitStep(s: State, m: Measure, a: Step, t: State)
    requires Admission(s, m) && Next(s, a, t) && a.Commit?
    ensures Admission(t, m)
  {
    CommitWithin(s, m, a, t);
    forall u | u in t.txns
      ensures Informed(t, m, t.txns[u])
    {
      var txn := s.txns[u];
      assert Informed(s, m, txn);
      CommitCounts(s, m, a, t, txn.org, txn.user);
      if txn.org == s.txns[a.t].org {
        OneCounter(s, u, a.t);
      }
    }
  }

  lemma AdmissionStep(s: State, m: Measure, a: Step, t: State)
    requires Admission(s, m) && Next(s, a, t) && Orderly(m, s, a)
    ensures Admission(t, m)
  {
    match a
    case Lock(_, _, _, _) => LockStep(s, m, a, t);
    case CountUser(_) => CountStep(s, m, a, t);
    case CountOrganization(_) => CountStep(s, m, a, t);
    case Commit(_) => CommitStep(s, m, a, t);
    case Abort(id) => Forget(s, m, t, id);
    case Change(_, _) => ChangeStep(s, m, a, t);
    case InsertService(_, _) => ChangeStep(s, m, a, t);
    case RaiseLimit(_, _) => RaiseStep(s, m, a, t);
  }

  /**
   No interleaving admits too many: the active workspaces never exceed a positive user or organization limit, and
   neither does the program's own count as long as no stopped workspace is deleted.
   */
  lemma {:induction false} RunIsWithinLimits(m: Measure, states: seq<State>, steps: seq<Step>, k: nat)
    requires Run(states, steps) && Admission(states[0], m) && k < |states|
    requires forall i | 0 <= i < |steps| :: Orderly(m, states[i], steps[i])
    ensures Admission(states[k], m)
  {
    if k > 0 {
      RunIsWithinLimits(m, states, steps, k - 1);
      AdmissionStep(states[k - 1], m, steps[k - 1], states[k]);
    }
  }

  lemma EmptyIsAdmitted(limits: map<RowKey, int>, m: Measure)
    ensures Admission(Empty(limits), m)
  {
  }

  /** From the beginning: every positive limit holds in every state of every orderly run. */
  lemma LimitsFromTheBeginning(m: Measure, limits: map<RowKey, int>, states: seq<State>, steps: seq<Step>, k: nat)
    requires Run(states, steps) && states[0] == Empty(limits) && k < |states|
    requires forall i | 0 <= i < |steps| :: Orderly(m, states[i], steps[i])
    ensures Within(states[k], m)
  {
    EmptyIsAdmitted(limits, m);
    RunIsWithinLimits(m, states, steps, k);
  }

  // ---------- who is admitted, in the words of the tables ----------

  /** The workspaces that the program counts: not deleted, no service of another one, and not stopped. */
  lemma CountedMeans(s: State, org: Id, user: Id)
    ensures UserSet(s, Counted, org, user) ==
            set w | w in s.workspaces && s.workspaces[w].live && s.workspaces[w].main && s.workspaces[w].status != Stopped
                    && s.workspaces[w].org == org && s.workspaces[w].user == user
    ensures OrgSet(s, Counted, org) ==
            set w | w in s.workspaces && s.workspaces[w].live && s.workspaces[w].main && s.workspaces[w].status != Stopped
                    && s.workspaces[w].org == org
  {
  }

  /** The narrower measure: everything that is not at rest and not winding down. */
  lemma ActiveMeans(status: Status)
    ensures InMeasure(Active, status) <==>
            status !in {Stopped, Stopping, StopFailed, Deleting, DeleteFailed, Deleted}
  {
  }

  /**
   The user's count passes exactly if it is below the positive value in the user's own row, else in the default row; with
   neither row it always passes.  A transaction that does not pass is gone.
   */
  lemma UserAdmittedExact(s: State, m: Measure, a: Step, t: State)
    requires Admission(s, m) && Next(s, a, t) && a.CountUser?
    ensures var txn := s.txns[a.t];
            var own, default := RowKey(txn.org, Some(txn.user)), RowKey(txn.org, Some(0));
            var count := |set w | w in s.workspaces && s.workspaces[w].live && s.workspaces[w].main
                                  && s.workspaces[w].status != Stopped
                                  && s.workspaces[w].org == txn.org && s.workspaces[w].user == txn.user|;
            && (a.t in t.txns <==>
                if own in s.limits && s.limits[own] > 0 then count < s.limits[own]
                else if default in s.limits && s.limits[default] > 0 then count < s.limits[default]
                else true)
            && (a.t in t.txns ==> t.txns[a.t] == txn.(phase := UserCounted))
  {
    var txn := s.txns[a.t];
    assert Informed(s, m, txn);
    LimitsMean(s.limits, txn.org, txn.user);
    CountedMeans(s, txn.org, txn.user);
  }

  /** The organization's count passes exactly if there is no positive row without a user, or it is below that row's value. */
  lemma OrganizationAdmittedExact(s: State, m: Measure, a: Step, t: State)
    requires Admission(s, m) && Next(s, a, t) && a.CountOrganization?
    ensures var txn := s.txns[a.t];
            var whole := RowKey(txn.org, None);
            var count := |set w | w in s.workspaces && s.workspaces[w].live && s.workspaces[w].main
                                  && s.workspaces[w].status != Stopped && s.workspaces[w].org == txn.org|;
            && (a.t in t.txns <==> whole !in s.limits || s.limits[whole] <= 0 || count < s.limits[whole])
            && (a.t in t.txns ==> t.txns[a.t] == txn.(phase := Admitted))
  {
    var txn := s.txns[a.t];
    assert Informed(s, m, txn);
    LimitsMean(s.limits, txn.org, txn.user);
    CountedMeans(s, txn.org, txn.user);
  }

  /** What an admitted transaction writes: one row, counted from then on; and it lets its locks go. */
  lemma CommitMeans(s: State, a: Step, t: State)
    requires Next(s, a, t) && a.Commit?
    ensures s.txns[a.t].phase == Admitted && a.t !in t.txns && t.limits == s.limits
    ensures var txn := s.txns[a.t];
            var w := txn.action.w;
            && w in t.workspaces && t.workspaces == s.workspaces[w := t.workspaces[w]]
            && t.workspaces[w].org == txn.org && t.workspaces[w].user == txn.user && t.workspaces[w].live
            && match txn.action {
               case Create(_) => w !in s.workspaces && t.workspaces[w].main && t.workspaces[w].status == New
               case Start(_) =>
                 w in s.workspaces && t.workspaces[w].main == s.workspaces[w].main && t.workspaces[w].status == Starting
               case Rebuild(_) =>
                 w in s.workspaces && t.workspaces[w].main == s.workspaces[w].main && t.workspaces[w].status == Building
            }
  {
  }

  /** No transaction gets ahead without its counts: in every run an admitted one has passed both, with the limits it now has. */
  lemma {:induction false} AdmittedHasCounted(limits: map<RowKey, int>, states: seq<State>, steps: seq<Step>, k: nat, id: Id)
    requires Run(states, steps) && states[0] == Empty(limits) && k < |states| && id in states[k].txns
    ensures states[k].txns[id].phase != Locked ==>
              exists i | 0 <= i < k :: steps[i] == CountUser(id) && id in states[i + 1].txns
                                       && states[i + 1].txns[id] == states[k].txns[id].(phase := UserCounted)
    ensures states[k].txns[id].phase == Admitted ==>
              exists i | 0 <= i < k :: steps[i] == CountOrganization(id) && id in states[i + 1].txns
                                       && states[i + 1].txns[id] == states[k].txns[id]
  {
    if k > 0 {
      assert Next(states[k - 1], steps[k - 1], states[k]);
      if id in states[k - 1].txns {
        AdmittedHasCounted(limits, states, steps, k - 1, id);
      }
    }
  }

  // ---------- exactly where a limit can be exceeded ----------

  /** A main workspace comes back into the program's count. */
  predicate Reappears(row: Ws, status: Status) {
    row.main && row.status == Stopped && status == Deleting
  }

  /** An unguarded change raises the program's own count of a user exactly if it starts deleting a stopped main workspace. */
  lemma ChangeExact(s: State, a: Step, t: State)
    requires Next(s, a, t) && a.Change?
    ensures var row := s.workspaces[a.w];
            |UserSet(t, Counted, row.org, row.user)| > |UserSet(s, Counted, row.org, row.user)| <==> Reappears(row, a.status)
  {
    var row := s.workspaces[a.w];
    if Reappears(row, a.status) {
      assert UserSet(t, Counted, row.org, row.user) == UserSet(s, Counted, row.org, row.user) + {a.w};
    } else {
      NothingAdded(s, Counted, t, row.org, row.user);
    }
  }

  /** The same for the organization's count. */
  lemma OrganizationChangeExact(s: State, a: Step, t: State)
    requires Next(s, a, t) && a.Change?
    ensures var row := s.workspaces[a.w];
            |OrgSet(t, Counted, row.org)| > |OrgSet(s, Counted, row.org)| <==> Reappears(row, a.status)
  {
    var row := s.workspaces[a.w];
    if Reappears(row, a.status) {
      assert OrgSet(t, Counted, row.org) == OrgSet(s, Counted, row.org) + {a.w};
    } else {
      NothingAdded(s, Counted, t, row.org, row.user);
    }
  }

  /** So a user at the limit goes over it by deleting a stopped workspace. */
  lemma DeletingAStoppedWorkspaceExceeds(s: State, a: Step, t: State)
    requires Next(s, a, t) && a.Change? && a.status == Deleting
    requires s.workspaces[a.w].main && s.workspaces[a.w].status == Stopped
    requires var row := s.workspaces[a.w];
             |UserSet(s, Counted, row.org, row.user)| == UserLimit(s.limits, row.org, row.user) > 0
    ensures !Within(t, Counted)
  {
    ChangeExact(s, a, t);
    var row := s.workspaces[a.w];
    assert UserLimit(t.limits, row.org, row.user) > 0;
  }

  /** There is room for one more under the limits of the user and of the organization. */
  predicate HasRoom(s: State, m: Measure, org: Id, user: Id) {
    && (UserLimit(s.limits, org, user) > 0 ==> |UserSet(s, m, org, user)| < UserLimit(s.limits, org, user))
    && (OrganizationLimit(s.limits, org) > 0 ==> |OrgSet(s, m, org)| < OrganizationLimit(s.limits, org))
  }

  /** An unguarded change keeps the limits exactly if no stopped workspace starts being deleted or there was room for it. */
  lemma ChangeWithinExact(s: State, a: Step, t: State)
    requires Within(s, Counted) && Next(s, a, t) && a.Change?
    ensures var row := s.workspaces[a.w];
            Within(t, Counted) <==> !Reappears(row, a.status) || HasRoom(s, Counted, row.org, row.user)
  {
    var row := s.workspaces[a.w];
    if Reappears(row, a.status) {
      ReappearanceWithin(s, a, t);
    } else {
      forall org, user
        ensures |UserSet(t, Counted, org, user)| <= |UserSet(s, Counted, org, user)|
      {
        NothingAdded(s, Counted, t, org, user);
      }
      forall org
        ensures |OrgSet(t, Counted, org)| <= |OrgSet(s, Counted, org)|
      {
        NothingAdded(s, Counted, t, org, DEFAULT_USER);
      }
    }
  }

  lemma ReappearanceCounts(s: State, a: Step, t: State, org: Id, user: Id)
    requires Next(s, a, t) && a.Change? && Reappears(s.workspaces[a.w], a.status)
    ensures var row := s.workspaces[a.w];
            && |UserSet(t, Counted, org, user)| ==
               |UserSet(s, Counted, org, user)| + (if row.org == org && row.user == user then 1 else 0)
            && |OrgSet(t, Counted, org)| == |OrgSet(s, Counted, org)| + (if row.org == org then 1 else 0)
  {
    PutCounts(s, Counted, t, a.w, t.workspaces[a.w], org, user);
    OneMoreExactly(UserSet(s, Counted, org, user), a.w);
    OneMoreExactly(OrgSet(s, Counted, org), a.w);
  }

  lemma ReappearanceWithin(s: State, a: Step, t: State)
    requires Within(s, Counted) && Next(s, a, t) && a.Change? && Reappears(s.workspaces[a.w], a.status)
    ensures Within(t, Counted) <==> HasRoom(s, Counted, s.workspaces[a.w].org, s.workspaces[a.w].user)
  {
    var row := s.workspaces[a.w];
    ReappearanceCounts(s, a, t, row.org, row.user);
    forall org, user
      ensures org != row.org || user != row.user ==> |UserSet(t, Counted, org, user)| == |UserSet(s, Counted, org, user)|
    {
      ReappearanceCounts(s, a, t, org, user);
    }
    forall org
      ensures org != row.org ==> |OrgSet(t, Counted, org)| == |OrgSet(s, Counted, org)|
    {
      ReappearanceCounts(s, a, t, org, DEFAULT_USER);
    }
  }

  /** The action brings a workspace into the measure that was not in it. */
  predicate Raises(s: State, m: Measure, a: Step)
    requires a.CommitUnlicensed?
  {
    var w := a.action.w;
    a.action.Create? || (w in s.workspaces && s.workspaces[w].main && s.workspaces[w].live && !IsCounted(m, s.workspaces[w]))
  }

  /** Writing a row that is counted at least where the old one was. */
  lemma PutCounts(s: State, m: Measure, t: State, w: Id, row: Ws, org: Id, user: Id)
    requires t.workspaces == s.workspaces[w := row]
    requires w in s.workspaces && IsCounted(m, s.workspaces[w]) ==>
               IsCounted(m, row) && s.workspaces[w].org == row.org && s.workspaces[w].user == row.user
    ensures UserSet(t, m, org, user) ==
            UserSet(s, m, org, user) + if IsCounted(m, row) && row.org == org && row.user == user then {w} else {}
    ensures OrgSet(t, m, org) == OrgSet(s, m, org) + if IsCounted(m, row) && row.org == org then {w} else {}
  {
  }

  lemma UnlicensedRow(s: State, m: Measure, a: Step, t: State)
    requires Next(s, a, t) && a.CommitUnlicensed?
    ensures a.action.w in t.workspaces
    ensures var w := a.action.w;
            var row := t.workspaces[w];
            && t.workspaces == s.workspaces[w := row] && row.org == a.org && row.user == a.user
            && (w in s.workspaces && IsCounted(m, s.workspaces[w]) ==>
                  IsCounted(m, row) && s.workspaces[w].org == row.org && s.workspaces[w].user == row.user)
            && (Raises(s, m, a) <==> IsCounted(m, row) && !(w in s.workspaces && IsCounted(m, s.workspaces[w])))
  {
  }

  lemma UnlicensedUserCount(s: State, m: Measure, a: Step, t: State, org: Id, user: Id)
    requires Next(s, a, t) && a.CommitUnlicensed?
    ensures |UserSet(t, m, org, user)| ==
            |UserSet(s, m, org, user)| + if Raises(s, m, a) && org == a.org && user == a.user then 1 else 0
  {
    var w := a.action.w;
    UnlicensedRow(s, m, a, t);
    PutCounts(s, m, t, w, t.workspaces[w], org, user);
    OneMoreExactly(UserSet(s, m, org, user), w);
  }

  lemma UnlicensedOrgCount(s: State, m: Measure, a: Step, t: State, org: Id)
    requires Next(s, a, t) && a.CommitUnlicensed?
    ensures |OrgSet(t, m, org)| == |OrgSet(s, m, org)| + if Raises(s, m, a) && org == a.org then 1 else 0
  {
    var w := a.action.w;
    UnlicensedRow(s, m, a, t);
    PutCounts(s, m, t, w, t.workspaces[w], org, a.user);
    OneMoreExactly(OrgSet(s, m, org), w);
  }

  lemma OneMoreExactly(a: set<Id>, w: Id)
    ensures |a + {w}| == |a| + (if w in a then 0 else 1) && a + {} == a
  {
    if w in a {
      assert a + {w} == a;
    }
  }

  /** Without a license the limits survive an admission exactly if it adds nothing or there was room for it. */
  lemma UnlicensedExact(s: State, m: Measure, a: Step, t: State)
    requires Within(s, m) && Next(s, a, t) && a.CommitUnlicensed?
    ensures Within(t, m) <==> !Raises(s, m, a) || HasRoom(s, m, a.org, a.user)
  {
    UnlicensedUserCount(s, m, a, t, a.org, a.user);
    UnlicensedOrgCount(s, m, a, t, a.org);
    if !Raises(s, m, a) || HasRoom(s, m, a.org, a.user) {
      forall org, user
        ensures UserLimit(t.limits, org, user) > 0 ==> |UserSet(t, m, org, user)| <= UserLimit(t.limits, org, user)
      {
        UnlicensedUserCount(s, m, a, t, org, user);
      }
      forall org
        ensures OrganizationLimit(t.limits, org) > 0 ==> |OrgSet(t, m, org)| <= OrganizationLimit(t.limits, org)
      {
        UnlicensedOrgCount(s, m, a, t, org);
      }
    }
  }

  // ---------- a run that exceeds a limit ----------

  ghost predicate Reachable(limits: map<RowKey, int>, s: State) {
    Runs.Reachable(Next, Empty(limits), s)
  }

  lemma Reaches(limits: map<RowKey, int>, s: State, a: Step, t: State)
    requires Reachable(limits, s) && Next(s, a, t)
    ensures Reachable(limits, t)
  {
    Runs.Reaches(Next, Empty(limits), s, a, t);
  }

  function Mine(status: Status): Ws {
    Ws(0, 1, true, true, status)
  }

  /** A transaction of user 1 under way. */
  function Creating(w: Id, limit: nat, phase: Phase): map<Id, Txn> {
    map[0 := Txn(0, 1, Action.Create(w), QuotaValue(limit, 0), phase)]
  }

  /** With room, a creation passes its two counts and commits. */
  lemma Created(limits: map<RowKey, int>, workspaces: map<Id, Ws>, w: Id, limit: nat)
    requires UserLimit(limits, 0, 1) == limit && OrganizationLimit(limits, 0) == 0 && w !in workspaces
    requires Reachable(limits, Tables(workspaces, limits, map[]))
    requires |UserSet(Tables(workspaces, limits, map[]), Counted, 0, 1)| < limit
    ensures Reachable(limits, Tables(workspaces[w := Mine(New)], limits, map[]))
  {
    var s0, s1 := Tables(workspaces, limits, map[]), Tables(workspaces, limits, Creating(w, limit, Locked));
    var s2, s3 := Tables(workspaces, limits, Creating(w, limit, UserCounted)), Tables(workspaces, limits, Creating(w, limit, Admitted));
    Reaches(limits, s0, Lock(0, 0, 1, Action.Create(w)), s1);
    AddsNothingSame(s0, Counted, s1);
    Reaches(limits, s1, CountUser(0), s2);
    Reaches(limits, s2, CountOrganization(0), s3);
    assert s3.txns - {0} == map[];
    Reaches(limits, s3, Commit(0), Tables(workspaces[w := Mine(New)], limits, map[]));
  }

  lemma Changed(limits: map<RowKey, int>, workspaces: map<Id, Ws>, w: Id, status: Status)
    requires w in workspaces && workspaces[w].live && Unguarded(workspaces[w].status, status) && status != Deleted
    requires Reachable(limits, Tables(workspaces, limits, map[]))
    ensures Reachable(limits, Tables(workspaces[w := workspaces[w].(status := status)], limits, map[]))
  {
    Reaches(limits, Tables(workspaces, limits, map[]), Change(w, status),
            Tables(workspaces[w := workspaces[w].(status := status)], limits, map[]));
  }

  lemma FirstIsStopped(limits: map<RowKey, int>)
    requires UserLimit(limits, 0, 1) == 1 && OrganizationLimit(limits, 0) == 0
    ensures Reachable(limits, Tables(map[0 := Mine(Stopped)], limits, map[]))
  {
    Runs.Starts(Next, Empty(limits));
    var none: map<Id, Ws> := map[];
    assert UserSet(Tables(none, limits, map[]), Counted, 0, 1) == {};
    Created(limits, none, 0, 1);
    assert none[0 := Mine(New)][0 := Mine(Failed)] == none[0 := Mine(Failed)];
    Changed(limits, none[0 := Mine(New)], 0, Failed);
    assert none[0 := Mine(Failed)][0 := Mine(Stopping)] == none[0 := Mine(Stopping)];
    Changed(limits, none[0 := Mine(Failed)], 0, Stopping);
    assert none[0 := Mine(Stopping)][0 := Mine(Stopped)] == map[0 := Mine(Stopped)];
    Changed(limits, none[0 := Mine(Stopping)], 0, Stopped);
  }

  /** Reachable: under a limit of one workspace, one is stopped, another created, and then the first deleted. */
  lemma DeletionGoesOverTheLimit(limits: map<RowKey, int>)
    requires UserLimit(limits, 0, 1) == 1 && OrganizationLimit(limits, 0) == 0
    ensures var s := Tables(map[0 := Mine(Deleting), 1 := Mine(New)], limits, map[]);
            Reachable(limits, s) && !Within(s, Counted)
  {
    FirstIsStopped(limits);
    var one: map<Id, Ws> := map[0 := Mine(Stopped)];
    assert UserSet(Tables(one, limits, map[]), Counted, 0, 1) == {};
    Created(limits, one, 1, 1);
    Changed(limits, one[1 := Mine(New)], 0, Deleting);
    var s := Tables(map[0 := Mine(Deleting), 1 := Mine(New)], limits, map[]);
    assert one[1 := Mine(New)][0 := Mine(Deleting)] == s.workspaces;
    assert UserSet(s, Counted, 0, 1) == {0, 1};
    assert UserLimit(s.limits, 0, 1) == 1;
  }
}
