/**
 Organizations and their members.  A handler first reads and checks, then writes in one transaction; other handlers may
 commit in between, so every check is a step of its own and may be stale when its handler writes.
 */
module Organization {
  import opened Common

  datatype Role = Owner | Admin | Plain

  datatype Member = Member(user: Id, org: Id, role: Role, live: bool)

  datatype Action = SetRole(role: Role) | Remove

  /** A handler between its reads and its transaction. */
  datatype Handler =
    | Joining(user: Id, org: Id)
    | Authorized(org: Id, action: Action)
    | Ready(m: Id, action: Action)
    | Closing(user: Id, m: Id)
    | ReadyToClose(m: Id, org: Id)

  datatype State = State(orgs: map<Id, bool>, members: map<Id, Member>, handlers: map<Id, Handler>)

  datatype Step =
    | CreateOrganization(org: Id, user: Id, m: Id)
    | CheckJoin(h: Id, user: Id, org: Id)
    | CommitJoin(h: Id, m: Id)
    | Authorize(h: Id, user: Id, org: Id, action: Action)
    | FindTarget(h: Id, user: Id)
    | CommitMember(h: Id)
    | AuthorizeClose(h: Id, user: Id, org: Id)
    | CheckNotLast(h: Id)
    | CommitClose(h: Id)
    | GiveUp(h: Id)

  /** Row `m` is the live membership of the user in the organization. */
  predicate IsMembership(s: State, m: Id, user: Id, org: Id) {
    m in s.members && s.members[m].live && s.members[m].user == user && s.members[m].org == org
  }

  predicate IsLive(s: State, org: Id) {
    org in s.orgs && s.orgs[org]
  }

  ghost predicate HasMembership(s: State, user: Id, org: Id) {
    exists m :: IsMembership(s, m, user, org)
  }

  /** The live memberships of a user. */
  function MembershipsOf(s: State, user: Id): set<Id> {
    set m | m in s.members && s.members[m].live && s.members[m].user == user
  }

  predicate Keeps(s: State, t: State) {
    t.orgs == s.orgs && t.members == s.members
  }

  ghost predicate Next(s: State, a: Step, t: State) {
    match a
    case CreateOrganization(org, user, m) =>
      && org !in s.orgs && m !in s.members
      && t.orgs == s.orgs[org := true]
      && t.members == s.members[m := Member(user, org, Owner, true)] && t.handlers == s.handlers
    case CheckJoin(h, user, org) =>
      && h !in s.handlers && org in s.orgs && !HasMembership(s, user, org)
      && Keeps(s, t) && t.handlers == s.handlers[h := Joining(user, org)]
    case CommitJoin(h, m) =>
      // the unique index on the live membership of a user in an organization refuses a second one
      && h in s.handlers && s.handlers[h].Joining? && m !in s.members
      && !HasMembership(s, s.handlers[h].user, s.handlers[h].org)
      && t.orgs == s.orgs && t.handlers == s.handlers - {h}
      && t.members == s.members[m := Member(s.handlers[h].user, s.handlers[h].org, Plain, true)]
    case Authorize(h, user, org, action) =>
      && h !in s.handlers
      && (exists m :: IsMembership(s, m, user, org) && s.members[m].role != Plain)
      && Keeps(s, t) && t.handlers == s.handlers[h := Authorized(org, action)]
    case FindTarget(h, user) =>
      && h in s.handlers && s.handlers[h].Authorized? && IsLive(s, s.handlers[h].org)
      && Keeps(s, t)
      && exists m ::
           && IsMembership(s, m, user, s.handlers[h].org) && s.members[m].role != Owner
           && t.handlers == s.handlers[h := Ready(m, s.handlers[h].action)]
    case CommitMember(h) =>
      && h in s.handlers && s.handlers[h].Ready? && s.handlers[h].m in s.members
      && t.orgs == s.orgs && t.handlers == s.handlers - {h}
      && var m := s.handlers[h].m;
         t.members == s.members[m := match s.handlers[h].action
                                     case SetRole(role) => s.members[m].(role := role)
                                     case Remove => s.members[m].(live := false)]
    case AuthorizeClose(h, user, org) =>
      && h !in s.handlers && IsLive(s, org) && Keeps(s, t)
      && exists m ::
           && IsMembership(s, m, user, org) && s.members[m].role == Owner
           && t.handlers == s.handlers[h := Closing(user, m)]
    case CheckNotLast(h) =>
      && h in s.handlers && s.handlers[h].Closing? && s.handlers[h].m in s.members
      && |MembershipsOf(s, s.handlers[h].user)| != 1
      && Keeps(s, t)
      && t.handlers == s.handlers[h := ReadyToClose(s.handlers[h].m, s.members[s.handlers[h].m].org)]
    case CommitClose(h) =>
      && h in s.handlers && s.handlers[h].ReadyToClose? && s.handlers[h].m in s.members && s.handlers[h].org in s.orgs
      && t.handlers == s.handlers - {h}
      && t.members == s.members[s.handlers[h].m := s.members[s.handlers[h].m].(live := false)]
      && t.orgs == s.orgs[s.handlers[h].org := false]
    case GiveUp(h) =>
      h in s.handlers && Keeps(s, t) && t.handlers == s.handlers - {h}
  }

  ghost predicate Run(states: seq<State>, steps: seq<Step>) {
    |states| == |steps| + 1 && forall i | 0 <= i < |steps| :: Next(states[i], steps[i], states[i + 1])
  }

  function Empty(): State {
    State(map[], map[], map[])
  }

  // ---------- the invariant ----------

  ghost predicate OneMembership(s: State) {
    forall m, n | m in s.members && n in s.members && m != n && s.members[m].live && s.members[n].live ::
      s.members[m].user != s.members[n].user || s.members[m].org != s.members[n].org
  }

  /** Handlers point at rows of existing organizations. */
  ghost predicate Linked(s: State) {
    && (forall m | m in s.members :: s.members[m].org in s.orgs)
    && (forall h | h in s.handlers ::
          match s.handlers[h]
          case Joining(_, org) => org in s.orgs
          case Authorized(_, _) => true
          case Ready(m, _) => m in s.members
          case Closing(_, m) => m in s.members
          case ReadyToClose(m, org) => m in s.members && s.members[m].org == org)
  }

  /** A live owner whose row no handler has picked for a change of role or removal. */
  ghost predicate Secure(s: State, org: Id, f: Id) {
    && f in s.members && s.members[f].live && s.members[f].role == Owner && s.members[f].org == org
    && forall h | h in s.handlers && s.handlers[h].Ready? :: s.handlers[h].m != f
  }

  ghost predicate Owned(s: State, org: Id) {
    exists f :: Secure(s, org, f)
  }

  ghost predicate Valid(s: State) {
    Linked(s) && OneMembership(s) && forall org | IsLive(s, org) :: Owned(s, org)
  }

  lemma EmptyIsValid()
    ensures Valid(Empty())
  {
  }

  lemma LinkedStep(s: State, a: Step, t: State)
    requires Linked(s) && Next(s, a, t)
    ensures Linked(t)
  {
  }

  lemma OneMembershipStep(s: State, a: Step, t: State)
    requires Linked(s) && OneMembership(s) && Next(s, a, t)
    ensures OneMembership(t)
  {
    if a.CommitJoin? {
      assert forall m | m in s.members && s.members[m].live ::
          !IsMembership(s, m, s.handlers[a.h].user, s.handlers[a.h].org);
    }
  }

  /** The secure owner of an organization stays secure unless the organization is closed. */
  lemma SecureStep(s: State, a: Step, t: State, org: Id, f: Id)
    requires Linked(s) && Next(s, a, t) && Secure(s, org, f) && IsLive(s, org) && IsLive(t, org)
    ensures Secure(t, org, f)
  {
  }

  lemma ValidStep(s: State, a: Step, t: State)
    requires Valid(s) && Next(s, a, t)
    ensures Valid(t)
  {
    LinkedStep(s, a, t);
    OneMembershipStep(s, a, t);
    forall org | IsLive(t, org)
      ensures Owned(t, org)
    {
      if IsLive(s, org) {
        var f :| Secure(s, org, f);
        SecureStep(s, a, t, org, f);
      } else {
        assert a.CreateOrganization? && a.org == org;
        assert Secure(t, org, a.m);
      }
    }
  }

  lemma {:induction false} RunIsValid(states: seq<State>, steps: seq<Step>, k: nat)
    requires Run(states, steps) && Valid(states[0]) && k < |states|
    ensures Valid(states[k])
  {
    if k > 0 {
      RunIsValid(states, steps, k - 1);
      ValidStep(states[k - 1], steps[k - 1], states[k]);
    }
  }

  /**
   In every state of every interleaving, each live organization has a live owner, although members may be promoted, demoted
   and removed by handlers whose checks are stale; and a user has at most one live membership in an organization.
   */
  lemma EveryOrganizationHasAnOwner(states: seq<State>, steps: seq<Step>, k: nat, org: Id)
    requires Run(states, steps) && states[0] == Empty() && k < |states| && IsLive(states[k], org)
    ensures exists m :: m in states[k].members && states[k].members[m].org == org && states[k].members[m].live
                        && states[k].members[m].role == Owner
    ensures forall user, m, n | IsMembership(states[k], m, user, org) && IsMembership(states[k], n, user, org) :: m == n
  {
    EmptyIsValid();
    RunIsValid(states, steps, k);
    var f :| Secure(states[k], org, f);
  }

  // ---------- who gives roles ----------

  /** Step `i` writes this role into row `m`: Owner with a new organization, Plain by joining, and anything by a change. */
  ghost predicate GivesRole(states: seq<State>, steps: seq<Step>, i: nat, m: Id, role: Role)
    requires i < |steps| && |states| == |steps| + 1
  {
    match steps[i]
    case CreateOrganization(_, _, n) => n == m && role == Owner
    case CommitJoin(_, n) => n == m && role == Plain
    case CommitMember(h) => h in states[i].handlers && states[i].handlers[h] == Ready(m, SetRole(role))
    case _ => false
  }

  /** A membership keeps its user and organization, is never revived, and changes its role only if a handler writes one. */
  lemma MemberStep(s: State, a: Step, t: State, m: Id)
    requires Next(s, a, t) && m in s.members
    ensures m in t.members && t.members[m].user == s.members[m].user && t.members[m].org == s.members[m].org
    ensures t.members[m].live ==> s.members[m].live
    ensures t.members[m].role ==
            if a.CommitMember? && s.handlers[a.h].m == m && s.handlers[a.h].action.SetRole? then s.handlers[a.h].action.role
            else s.members[m].role
  {
  }

  /**
   The role in every row, live or not, is the last one given to it.  So an owner was created with the organization or was
   made one by a committed change, and whoever joined stays a plain member until such a change.
   */
  lemma {:induction false} RoleWasGiven(states: seq<State>, steps: seq<Step>, k: nat, m: Id)
    requires Run(states, steps) && states[0] == Empty() && k < |states| && m in states[k].members
    ensures exists i | 0 <= i < k ::
              && GivesRole(states, steps, i, m, states[k].members[m].role)
              && forall j, role | i < j < k :: !GivesRole(states, steps, j, m, role)
  {
    var role := states[k].members[m].role;
    if k > 0 {
      assert Next(states[k - 1], steps[k - 1], states[k]);
      if m !in states[k - 1].members {
        assert GivesRole(states, steps, k - 1, m, role);
      } else {
        MemberStep(states[k - 1], steps[k - 1], states[k], m);
        var a := steps[k - 1];
        if a.CommitMember? && states[k - 1].handlers[a.h].m == m && states[k - 1].handlers[a.h].action.SetRole? {
          assert GivesRole(states, steps, k - 1, m, role);
        } else {
          RoleWasGiven(states, steps, k - 1, m);
          var i :| 0 <= i < k - 1 && GivesRole(states, steps, i, m, role)
                   && forall j, r | i < j < k - 1 :: !GivesRole(states, steps, j, m, r);
          assert forall j, r | i < j < k :: !GivesRole(states, steps, j, m, r);
        }
      }
    }
  }

  /** At step `i` the handler was authorized for this by a live owner or admin of the organization. */
  ghost predicate AuthorizedAt(states: seq<State>, steps: seq<Step>, i: nat, h: Id, org: Id, action: Action)
    requires i < |steps| && |states| == |steps| + 1
  {
    && steps[i].Authorize? && steps[i].h == h && steps[i].org == org && steps[i].action == action
    && exists n :: n in states[i].members && states[i].members[n].live && states[i].members[n].org == org
                   && states[i].members[n].user == steps[i].user && states[i].members[n].role in {Owner, Admin}
  }

  /** At step `j` the handler picked row `m`, then a live membership, and no owner's, of a live organization. */
  ghost predicate PickedAt(states: seq<State>, steps: seq<Step>, j: nat, h: Id, m: Id, org: Id)
    requires j < |steps| && |states| == |steps| + 1
  {
    && steps[j].FindTarget? && steps[j].h == h && org in states[j].orgs && states[j].orgs[org]
    && m in states[j].members && states[j].members[m].live && states[j].members[m].org == org
    && states[j].members[m].user == steps[j].user && states[j].members[m].role in {Admin, Plain}
  }

  lemma {:induction false} AuthorizedWasChecked(states: seq<State>, steps: seq<Step>, k: nat, h: Id)
    requires Run(states, steps) && states[0] == Empty() && k < |states|
    requires h in states[k].handlers && states[k].handlers[h].Authorized?
    ensures exists i | 0 <= i < k ::
              AuthorizedAt(states, steps, i, h, states[k].handlers[h].org, states[k].handlers[h].action)
  {
    if k > 0 {
      assert Next(states[k - 1], steps[k - 1], states[k]);
      if h in states[k - 1].handlers {
        AuthorizedWasChecked(states, steps, k - 1, h);
      } else {
        AuthorizeMeans(states[k - 1], steps[k - 1], states[k]);
        assert AuthorizedAt(states, steps, k - 1, h, states[k].handlers[h].org, states[k].handlers[h].action);
      }
    }
  }

  lemma AuthorizeMeans(s: State, a: Step, t: State)
    requires Next(s, a, t) && a.Authorize?
    ensures exists n :: n in s.members && s.members[n].live && s.members[n].org == a.org
                        && s.members[n].user == a.user && s.members[n].role in {Owner, Admin}
  {
    var n :| IsMembership(s, n, a.user, a.org) && s.members[n].role != Plain;
  }

  /**
   Nobody changes a member without having been an owner or admin of the same organization when the handler began, and without
   the target having been a member and no owner when it was found.
   */
  lemma {:induction false} ChangesAreAuthorized(states: seq<State>, steps: seq<Step>, k: nat, h: Id)
    requires Run(states, steps) && states[0] == Empty() && k < |states|
    requires h in states[k].handlers && states[k].handlers[h].Ready?
    ensures var m, action := states[k].handlers[h].m, states[k].handlers[h].action;
            && m in states[k].members
            && exists i, j | 0 <= i < j < k ::
                 && AuthorizedAt(states, steps, i, h, states[k].members[m].org, action)
                 && PickedAt(states, steps, j, h, m, states[k].members[m].org)
  {
    if k > 0 {
      assert Next(states[k - 1], steps[k - 1], states[k]);
      if steps[k - 1].FindTarget? && steps[k - 1].h == h {
        AuthorizedWasChecked(states, steps, k - 1, h);
        assert PickedAt(states, steps, k - 1, h, states[k].handlers[h].m, states[k - 1].handlers[h].org);
      } else {
        ChangesAreAuthorized(states, steps, k - 1, h);
        MemberStep(states[k - 1], steps[k - 1], states[k], states[k].handlers[h].m);
      }
    }
  }

  /** At step `i` the handler was let in to close the organization: row `m` was then the live membership of an owner of it. */
  ghost predicate ClosingAt(states: seq<State>, steps: seq<Step>, i: nat, h: Id, user: Id, m: Id)
    requires i < |steps| && |states| == |steps| + 1
  {
    && steps[i].AuthorizeClose? && steps[i].h == h && steps[i].user == user
    && steps[i].org in states[i].orgs && states[i].orgs[steps[i].org]
    && m in states[i].members && states[i].members[m] == Member(user, steps[i].org, Owner, true)
  }

  /** At step `j` the owner was in more than this one organization, or in none any more. */
  ghost predicate NotLastAt(states: seq<State>, steps: seq<Step>, j: nat, h: Id, user: Id)
    requires j < |steps| && |states| == |steps| + 1
  {
    && steps[j] == CheckNotLast(h)
    && |set m | m in states[j].members && states[j].members[m].live && states[j].members[m].user == user| != 1
  }

  lemma {:induction false} ClosingWasChecked(states: seq<State>, steps: seq<Step>, k: nat, h: Id)
    requires Run(states, steps) && states[0] == Empty() && k < |states|
    requires h in states[k].handlers && states[k].handlers[h].Closing?
    ensures exists i | 0 <= i < k :: ClosingAt(states, steps, i, h, states[k].handlers[h].user, states[k].handlers[h].m)
  {
    if k > 0 {
      assert Next(states[k - 1], steps[k - 1], states[k]);
      if h in states[k - 1].handlers {
        ClosingWasChecked(states, steps, k - 1, h);
      } else {
        assert ClosingAt(states, steps, k - 1, h, states[k].handlers[h].user, states[k].handlers[h].m);
      }
    }
  }

  /** Nobody closes an organization who was not an owner of it when the handler began, or whose only organization it was at the check. */
  lemma {:induction false} ClosesAreAuthorized(states: seq<State>, steps: seq<Step>, k: nat, h: Id)
    requires Run(states, steps) && states[0] == Empty() && k < |states|
    requires h in states[k].handlers && states[k].handlers[h].ReadyToClose?
    ensures var m, org := states[k].handlers[h].m, states[k].handlers[h].org;
            && m in states[k].members && states[k].members[m].org == org
            && exists i, j | 0 <= i < j < k ::
                 && ClosingAt(states, steps, i, h, states[k].members[m].user, m)
                 && NotLastAt(states, steps, j, h, states[k].members[m].user)
  {
    if k > 0 {
      var a := steps[k - 1];
      assert Next(states[k - 1], a, states[k]);
      if a == CheckNotLast(h) {
        var user, m := states[k - 1].handlers[h].user, states[k - 1].handlers[h].m;
        ClosingWasChecked(states, steps, k - 1, h);
        var i :| 0 <= i < k - 1 && ClosingAt(states, steps, i, h, user, m);
        MemberKeeps(states, steps, i, k - 1, m);
        NotLastNow(states, steps, k - 1, h);
      } else {
        ClosesAreAuthorized(states, steps, k - 1, h);
        MemberStep(states[k - 1], a, states[k], states[k].handlers[h].m);
      }
    }
  }

  lemma NotLastNow(states: seq<State>, steps: seq<Step>, j: nat, h: Id)
    requires Run(states, steps) && j < |steps| && steps[j] == CheckNotLast(h)
    ensures h in states[j].handlers && states[j].handlers[h].Closing?
    ensures NotLastAt(states, steps, j, h, states[j].handlers[h].user)
  {
    assert Next(states[j], steps[j], states[j + 1]);
    var user := states[j].handlers[h].user;
    assert MembershipsOf(states[j], user) ==
           set m | m in states[j].members && states[j].members[m].live && states[j].members[m].user == user;
  }

  lemma {:induction false} MemberKeeps(states: seq<State>, steps: seq<Step>, i: nat, k: nat, m: Id)
    requires Run(states, steps) && i <= k < |states| && m in states[i].members
    ensures m in states[k].members && states[k].members[m].user == states[i].members[m].user
    ensures states[k].members[m].org == states[i].members[m].org && (states[k].members[m].live ==> states[i].members[m].live)
    decreases k
  {
    if i < k {
      MemberKeeps(states, steps, i, k - 1, m);
      MemberStep(states[k - 1], steps[k - 1], states[k], m);
    }
  }

  // ---------- the handlers, in place ----------

  class Organizations {
    var orgs: map<Id, bool>
    var members: map<Id, Member>
    var handlers: map<Id, Handler>

    function View(): State
      reads this
    {
      State(orgs, members, handlers)
    }

    constructor ()
      ensures View() == Empty() && Valid(View())
    {
      orgs, members, handlers := map[], map[], map[];
    }

    /** The query for a live membership: some row, and none exactly if there is none. */
    method FindMembership(user: Id, org: Id) returns (r: Option<Id>)
      ensures match r
              case Some(m) => m in members && members[m].live && members[m].user == user && members[m].org == org
              case None => forall m | m in members :: !(members[m].live && members[m].user == user && members[m].org == org)
      ensures r.Some? <==> HasMembership(View(), user, org)
    {
      var rest := members.Keys;
      while rest != {}
        invariant rest <= members.Keys
        invariant forall m | m in members.Keys && m !in rest :: !IsMembership(View(), m, user, org)
        decreases rest
      {
        var m :| m in rest;
        rest := rest - {m};
        if members[m].live && members[m].user == user && members[m].org == org {
          assert IsMembership(View(), m, user, org);
          return Some(m);
        }
      }
      return None;
    }

    /** Three inserts in one transaction: the organization, its owner, and the audit row that is not modelled. */
    method Create(org: Id, user: Id, m: Id)
      requires Valid(View()) && org !in orgs && m !in members
      modifies this
      ensures Next(old(View()), CreateOrganization(org, user, m), View()) && Valid(View())
      ensures members == old(members)[m := Member(user, org, Owner, true)] && orgs == old(orgs)[org := true]
    {
      ghost var s := View();
      orgs := orgs[org := true];
      members := members[m := Member(user, org, Owner, true)];
      ValidStep(s, CreateOrganization(org, user, m), View());
    }

    method BeginJoin(h: Id, user: Id, org: Id) returns (ok: bool)
      requires Valid(View()) && h !in handlers && org in orgs
      modifies this
      ensures ok <==> !old(HasMembership(View(), user, org))
      ensures ok ==> Next(old(View()), CheckJoin(h, user, org), View())
      ensures !ok ==> View() == old(View())
      ensures Valid(View())
    {
      ghost var s := View();
      var found := FindMembership(user, org);
      ok := found == None;
      if ok {
        handlers := handlers[h := Joining(user, org)];
        ValidStep(s, CheckJoin(h, user, org), View());
      }
    }

    /** The insert fails on the unique index if the user has joined meanwhile. */
    method Join(h: Id, m: Id) returns (ok: bool)
      requires Valid(View()) && h in handlers && handlers[h].Joining? && m !in members
      modifies this
      ensures ok <==> !old(HasMembership(View(), handlers[h].user, handlers[h].org))
      ensures Next(old(View()), if ok then CommitJoin(h, m) else GiveUp(h), View()) && Valid(View())
      ensures ok ==> members == old(members)[m := Member(old(handlers)[h].user, old(handlers)[h].org, Plain, true)]
    {
      ghost var s := View();
      var user, org := handlers[h].user, handlers[h].org;
      var found := FindMembership(user, org);
      ok := found == None;
      handlers := handlers - {h};
      if ok {
        members := members[m := Member(user, org, Plain, true)];
      }
      ValidStep(s, if ok then CommitJoin(h, m) else GiveUp(h), View());
    }

    /** Owners and admins may change members. */
    method BeginMemberChange(h: Id, user: Id, org: Id, action: Action) returns (ok: bool)
      requires Valid(View()) && h !in handlers
      modifies this
      ensures ok <==> old(exists m :: IsMembership(View(), m, user, org) && View().members[m].role != Plain)
      ensures ok ==> Next(old(View()), Authorize(h, user, org, action), View())
      ensures !ok ==> View() == old(View())
      ensures Valid(View())
    {
      ghost var s := View();
      var found := FindMembership(user, org);
      if found == None {
        return false;
      }
      ok := members[found.value].role != Plain;
      if ok {
        handlers := handlers[h := Authorized(org, action)];
        ValidStep(s, Authorize(h, user, org, action), View());
      }
    }

    /** The target must be a member and not an owner. */
    method FindMember(h: Id, user: Id) returns (ok: bool)
      requires Valid(View()) && h in handlers && handlers[h].Authorized?
      modifies this
      ensures Next(old(View()), if ok then FindTarget(h, user) else GiveUp(h), View()) && Valid(View())
      ensures ok <==> old(var org := handlers[h].org;
                          && org in orgs && orgs[org]
                          && exists m :: m in members && members[m].live && members[m].user == user && members[m].org == org
                                         && (members[m].role == Admin || members[m].role == Plain))
    {
      ghost var s := View();
      var org, action := handlers[h].org, handlers[h].action;
      var found := FindMembership(user, org);
      ok := org in orgs && orgs[org] && found.Some? && members[found.value].role != Owner;
      if ok {
        handlers := handlers[h := Ready(found.value, action)];
      } else {
        handlers := handlers - {h};
      }
      ValidStep(s, if ok then FindTarget(h, user) else GiveUp(h), View());
    }

    method ChangeMember(h: Id)
      requires Valid(View()) && h in handlers && handlers[h].Ready?
      modifies this
      ensures Next(old(View()), CommitMember(h), View()) && Valid(View())
      ensures var m := old(handlers)[h].m;
              m in old(members) && m in members && members[m] == match old(handlers)[h].action
                                                                 case SetRole(role) => old(members)[m].(role := role)
                                                                 case Remove => old(members)[m].(live := false)
    {
      ghost var s := View();
      var m, action := handlers[h].m, handlers[h].action;
      members := members[m := match action
                              case SetRole(role) => members[m].(role := role)
                              case Remove => members[m].(live := false)];
      handlers := handlers - {h};
      ValidStep(s, CommitMember(h), View());
    }

    method BeginClose(h: Id, user: Id, org: Id) returns (ok: bool)
      requires Valid(View()) && h !in handlers
      modifies this
      ensures ok ==> Next(old(View()), AuthorizeClose(h, user, org), View())
      ensures !ok ==> View() == old(View())
      ensures ok <==> old(IsLive(View(), org) && exists m :: IsMembership(View(), m, user, org) && View().members[m].role == Owner)
      ensures Valid(View())
    {
      ghost var s := View();
      var found := FindMembership(user, org);
      if found == None {
        return false;
      }
      ok := members[found.value].role == Owner && org in orgs && orgs[org];
      if ok {
        handlers := handlers[h := Closing(user, found.value)];
        ValidStep(s, AuthorizeClose(h, user, org), View());
      }
    }

    /** Nobody may close the last organization he is in. */
    method CheckLast(h: Id) returns (ok: bool)
      requires Valid(View()) && h in handlers && handlers[h].Closing?
      modifies this
      ensures ok <==> old(|set m | m in members && members[m].live && members[m].user == handlers[h].user| != 1)
      ensures Next(old(View()), if ok then CheckNotLast(h) else GiveUp(h), View()) && Valid(View())
    {
      ghost var s := View();
      var mine := set m | m in members && members[m].live && members[m].user == handlers[h].user;
      ok := |mine| != 1;
      assert mine == MembershipsOf(s, handlers[h].user);
      if ok {
        handlers := handlers[h := ReadyToClose(handlers[h].m, members[handlers[h].m].org)];
      } else {
        handlers := handlers - {h};
      }
      ValidStep(s, if ok then CheckNotLast(h) else GiveUp(h), View());
    }

    /** The last step of closing: the owner's own membership and the organization go together. */
    method Close(h: Id)
      requires Valid(View()) && h in handlers && handlers[h].ReadyToClose?
      modifies this
      ensures Next(old(View()), CommitClose(h), View()) && Valid(View())
    {
      ghost var s := View();
      var m, org := handlers[h].m, handlers[h].org;
      members := members[m := members[m].(live := false)];
      orgs := orgs[org := false];
      handlers := handlers - {h};
      ValidStep(s, CommitClose(h), View());
    }
  }
}
