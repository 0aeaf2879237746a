/**
 The registry of devbox tunnels.  A command line client that connects takes a generation number, inserts itself into its
 user's map under the lock, and is removed by a cleanup task some time after it has closed.  Taking a number, inserting,
 closing, cleaning up and looking up interleave freely.
 */
module TunnelRegistry {
  import opened Common

  const GENERATION_LIMIT: nat := 0x1_0000_0000_0000_0000

  datatype Phase = Numbered | Inserted | Removed

  datatype Client = Client(user: Id, generation: nat, phase: Phase, open: bool)

  datatype Registry = Registry(sessions: map<Id, map<nat, Id>>, counter: nat, clients: map<Id, Client>)

  datatype Step =
    | TakeGeneration(c: Id, user: Id)
    | Insert(c: Id)
    | Close(c: Id)
    | Cleanup(c: Id)

  function Sessions(sessions: map<Id, map<nat, Id>>, user: Id): map<nat, Id> {
    if user in sessions then sessions[user] else map[]
  }

  /** The map of a user without one generation; an empty map is not kept. */
  function Without(sessions: map<Id, map<nat, Id>>, user: Id, generation: nat): map<Id, map<nat, Id>> {
    if user in sessions && generation in sessions[user] then
      var rest := sessions[user] - {generation};
      if rest == map[] then sessions - {user} else sessions[user := rest]
    else
      sessions
  }

  /** The counter is an unsigned 64-bit number and wraps around. */
  predicate Next(s: Registry, a: Step, t: Registry) {
    match a
    case TakeGeneration(c, user) =>
      && c !in s.clients
      && t.clients == s.clients[c := Client(user, s.counter, Numbered, true)]
      && t.counter == (s.counter + 1) % GENERATION_LIMIT
      && t.sessions == s.sessions
    case Insert(c) =>
      && c in s.clients && s.clients[c].phase == Numbered && t.counter == s.counter
      && var client := s.clients[c];
         && t.clients == s.clients[c := client.(phase := Inserted)]
         && t.sessions == s.sessions[client.user := Sessions(s.sessions, client.user)[client.generation := c]]
    case Close(c) =>
      && c in s.clients
      && t.clients == s.clients[c := s.clients[c].(open := false)]
      && t.counter == s.counter && t.sessions == s.sessions
    case Cleanup(c) =>
      && c in s.clients && s.clients[c].phase == Inserted && !s.clients[c].open
      && t.clients == s.clients[c := s.clients[c].(phase := Removed)]
      && t.sessions == Without(s.sessions, s.clients[c].user, s.clients[c].generation)
      && t.counter == s.counter
  }

  predicate Empty(s: Registry) {
    s == Registry(map[], 1, map[])
  }

  ghost predicate Run(states: seq<Registry>, steps: seq<Step>) {
    |states| == |steps| + 1 && forall i | 0 <= i < |steps| :: Next(states[i], steps[i], states[i + 1])
  }

  /** The counter has not come to its end. */
  predicate Unwrapped(s: Registry, a: Step) {
    a.TakeGeneration? ==> s.counter + 1 < GENERATION_LIMIT
  }

  // ---------- the invariant ----------

  predicate Registered(s: Registry, u: Id, g: nat, c: Id) {
    u in s.sessions && g in s.sessions[u] && s.sessions[u][g] == c
  }

  predicate Inside(s: Registry, u: Id, g: nat, c: Id) {
    c in s.clients && s.clients[c].phase == Inserted && s.clients[c].user == u && s.clients[c].generation == g
  }

  ghost predicate NumbersDiffer(s: Registry) {
    && (forall c | c in s.clients :: s.clients[c].generation < s.counter)
    && (forall c, d | c in s.clients && d in s.clients && c != d :: s.clients[c].generation != s.clients[d].generation)
  }

  /** The maps hold exactly the clients that are inserted and not yet cleaned up, and no map is empty. */
  ghost predicate Valid(s: Registry) {
    && NumbersDiffer(s)
    && (forall u: Id, g: nat, c: Id :: Registered(s, u, g, c) <==> Inside(s, u, g, c))
    && (forall u | u in s.sessions :: s.sessions[u] != map[])
  }

  lemma EmptyIsValid(s: Registry)
    requires Empty(s)
    ensures Valid(s)
  {
  }

  /** An insert finds its generation free. */
  lemma InsertNeverOverwrites(s: Registry, c: Id)
    requires Valid(s) && c in s.clients && s.clients[c].phase == Numbered
    ensures s.clients[c].generation !in Sessions(s.sessions, s.clients[c].user)
  {
    var u, g := s.clients[c].user, s.clients[c].generation;
    if g in Sessions(s.sessions, u) {
      assert Registered(s, u, g, s.sessions[u][g]);
    }
  }

  lemma InsertRegisters(s: Registry, a: Step, t: Registry, u: Id, g: nat, d: Id)
    requires Valid(s) && Next(s, a, t) && a.Insert?
    ensures Registered(t, u, g, d) <==> Registered(s, u, g, d) || (d == a.c && u == s.clients[d].user && g == s.clients[d].generation)
  {
  }

  lemma InsertIsValid(s: Registry, a: Step, t: Registry)
    requires Valid(s) && Next(s, a, t) && a.Insert?
    ensures Valid(t)
  {
    forall u: Id, g: nat, d: Id
      ensures Registered(t, u, g, d) <==> Inside(t, u, g, d)
    {
      InsertRegisters(s, a, t, u, g, d);
    }
    assert s.clients[a.c].generation in t.sessions[s.clients[a.c].user];
  }

  /** A cleanup removes its own client and nobody else's. */
  lemma CleanupRemovesOnlyItsOwn(s: Registry, a: Step, t: Registry, u: Id, g: nat, d: Id)
    requires Valid(s) && Next(s, a, t) && a.Cleanup?
    ensures Registered(t, u, g, d) <==> Registered(s, u, g, d) && d != a.c
    ensures Registered(s, s.clients[a.c].user, s.clients[a.c].generation, a.c)
  {
    var user, generation := s.clients[a.c].user, s.clients[a.c].generation;
    assert Inside(s, user, generation, a.c);
    assert Registered(s, u, g, d) ==> Inside(s, u, g, d);
    var rest := s.sessions[user] - {generation};
    if rest == map[] {
      assert forall k | k in s.sessions[user] && k != generation :: k in rest;
    }
  }

  lemma CleanupIsValid(s: Registry, a: Step, t: Registry)
    requires Valid(s) && Next(s, a, t) && a.Cleanup?
    ensures Valid(t)
  {
    forall u: Id, g: nat, d: Id
      ensures Registered(t, u, g, d) <==> Inside(t, u, g, d)
    {
      CleanupRemovesOnlyItsOwn(s, a, t, u, g, d);
    }
  }

  lemma OthersAreValid(s: Registry, a: Step, t: Registry)
    requires Valid(s) && Next(s, a, t) && Unwrapped(s, a) && (a.TakeGeneration? || a.Close?)
    ensures Valid(t)
  {
    forall u: Id, g: nat, d: Id
      ensures Registered(t, u, g, d) <==> Inside(t, u, g, d)
    {
      assert Registered(t, u, g, d) <==> Registered(s, u, g, d);
      assert Inside(t, u, g, d) <==> Inside(s, u, g, d);
    }
  }

  lemma ValidStep(s: Registry, a: Step, t: Registry)
    requires Valid(s) && Next(s, a, t) && Unwrapped(s, a)
    ensures Valid(t)
  {
    match a
    case Insert(_) => InsertIsValid(s, a, t);
    case Cleanup(_) => CleanupIsValid(s, a, t);
    case TakeGeneration(_, _) => OthersAreValid(s, a, t);
    case Close(_) => OthersAreValid(s, a, t);
  }

  /** In every interleaving the registry holds exactly the inserted clients. */
  lemma {:induction false} RunIsValid(states: seq<Registry>, steps: seq<Step>, k: nat)
    requires Run(states, steps) && Valid(states[0]) && k < |states|
    requires forall i | 0 <= i < |steps| :: Unwrapped(states[i], steps[i])
    ensures Valid(states[k])
  {
    if k > 0 {
      RunIsValid(states, steps, k - 1);
      ValidStep(states[k - 1], steps[k - 1], states[k]);
    }
  }

  /** Every run that starts with an empty registry and does not come to the counter's end. */
  lemma RegistryFromTheBeginning(states: seq<Registry>, steps: seq<Step>, k: nat)
    requires Run(states, steps) && Empty(states[0]) && k < |states|
    requires forall i | 0 <= i < |steps| :: Unwrapped(states[i], steps[i])
    ensures Valid(states[k])
  {
    EmptyIsValid(states[0]);
    RunIsValid(states, steps, k);
  }

  // ---------- looking a client up ----------

  /** An inserted client of the user that is still open. */
  predicate Usable(s: Registry, user: Id, c: Id) {
    c in s.clients && s.clients[c].phase == Inserted && s.clients[c].user == user && s.clients[c].open
  }

  /** The newest usable client, and nothing exactly if there is none. */
  ghost predicate IsNewest(s: Registry, user: Id, r: Option<Id>) {
    match r
    case None => forall c :: !Usable(s, user, c)
    case Some(c) =>
      Usable(s, user, c) && forall d | Usable(s, user, d) && d != c :: s.clients[d].generation < s.clients[c].generation
  }

  /** In the words of the tables: inserted, not cleaned up, still open, of this user, and of the greatest generation. */
  lemma NewestMeans(s: Registry, user: Id, r: Option<Id>)
    requires Valid(s) && IsNewest(s, user, r)
    ensures r.Some? <==>
            exists d :: d in s.clients && s.clients[d].user == user && s.clients[d].phase == Inserted && s.clients[d].open
    ensures r.Some? ==>
              && r.value in s.clients && s.clients[r.value].user == user
              && s.clients[r.value].phase == Inserted && s.clients[r.value].open
              && forall d | d in s.clients && s.clients[d].user == user && s.clients[d].phase == Inserted && s.clients[d].open ::
                   s.clients[d].generation <= s.clients[r.value].generation
  {
    assert forall d | d in s.clients && s.clients[d].user == user && s.clients[d].phase == Inserted && s.clients[d].open ::
        Usable(s, user, d);
  }

  predicate Descending(keys: seq<nat>) {
    forall i, j | 0 <= i < j < |keys| :: keys[i] > keys[j]
  }

  method Greatest(keys: set<nat>) returns (g: nat)
    requires keys != {}
    ensures g in keys && forall k | k in keys :: k <= g
  {
    g :| g in keys;
    var rest := keys - {g};
    while rest != {}
      invariant rest <= keys && g in keys
      invariant forall k | k in keys && k !in rest :: k <= g
      decreases rest
    {
      var k :| k in rest;
      g, rest := if k > g then k else g, rest - {k};
    }
  }

  /** The reverse key order of a B-tree map. */
  method Reversed(keys: set<nat>) returns (s: seq<nat>)
    ensures Descending(s) && forall k :: k in s <==> k in keys
  {
    s := [];
    var rest := keys;
    while rest != {}
      invariant rest <= keys && Descending(s)
      invariant forall k :: k in s <==> k in keys && k !in rest
      invariant forall i, l | 0 <= i < |s| && l in rest :: s[i] > l
      decreases rest
    {
      var g := Greatest(rest);
      s, rest := s + [g], rest - {g};
    }
  }

  lemma NoneUsable(s: Registry, user: Id)
    requires Valid(s)
    requires user in s.sessions ==>
               forall g | g in s.sessions[user] :: s.sessions[user][g] in s.clients ==> !s.clients[s.sessions[user][g]].open
    ensures forall c :: !Usable(s, user, c)
  {
    forall c
      ensures !Usable(s, user, c)
    {
      assert c in s.clients ==> (Registered(s, user, s.clients[c].generation, c) <==> Inside(s, user, s.clients[c].generation, c));
    }
  }

  lemma NewestFound(s: Registry, user: Id, keys: seq<nat>, i: nat)
    requires Valid(s) && user in s.sessions && Descending(keys) && i < |keys|
    requires forall k :: k in keys <==> k in s.sessions[user]
    requires forall j | 0 <= j < i :: !Usable(s, user, s.sessions[user][keys[j]])
    requires Usable(s, user, s.sessions[user][keys[i]])
    ensures IsNewest(s, user, Some(s.sessions[user][keys[i]]))
  {
    var c := s.sessions[user][keys[i]];
    assert Registered(s, user, keys[i], c);
    forall d | Usable(s, user, d) && d != c
      ensures s.clients[d].generation < s.clients[c].generation
    {
      var g := s.clients[d].generation;
      assert Inside(s, user, g, d);
      assert Registered(s, user, g, d);
      var j :| 0 <= j < |keys| && keys[j] == g;
      assert j != i;
    }
  }

  class DevboxTunnelRegistry {
    var sessions: map<Id, map<nat, Id>>
    var counter: nat
    var clients: map<Id, Client>

    function View(): Registry
      reads this
    {
      Registry(sessions, counter, clients)
    }

    constructor ()
      ensures Empty(View()) && Valid(View())
    {
      sessions, counter, clients := map[], 1, map[];
    }

    method NextGeneration(c: Id, user: Id) returns (generation: nat)
      requires Valid(View()) && c !in clients && counter + 1 < GENERATION_LIMIT
      modifies this
      ensures Next(old(View()), TakeGeneration(c, user), View()) && Valid(View())
      ensures generation == old(counter) && forall d | d in old(clients) :: old(clients)[d].generation != generation
    {
      ghost var s := View();
      generation := counter;
      counter := (counter + 1) % GENERATION_LIMIT;
      clients := clients[c := Client(user, generation, Numbered, true)];
      ValidStep(s, TakeGeneration(c, user), View());
    }

    /** The locked section of a registration. */
    method InsertClient(c: Id) returns (overwrote: bool)
      requires Valid(View()) && c in clients && clients[c].phase == Numbered
      modifies this
      ensures Next(old(View()), Insert(c), View()) && Valid(View())
      ensures !overwrote
    {
      ghost var s := View();
      InsertNeverOverwrites(s, c);
      var client := clients[c];
      if client.user !in sessions {
        sessions := sessions[client.user := map[]];
      }
      var entry: map<nat, Id> := sessions[client.user];
      overwrote := client.generation in entry;
      entry := entry[client.generation := c];
      sessions := sessions[client.user := entry];
      clients := clients[c := client.(phase := Inserted)];
      ValidStep(s, Insert(c), View());
    }

    method CloseClient(c: Id)
      requires Valid(View()) && c in clients
      modifies this
      ensures Next(old(View()), Close(c), View()) && Valid(View())
    {
      ghost var s := View();
      clients := clients[c := clients[c].(open := false)];
      ValidStep(s, Close(c), View());
    }

    /** The cleanup task of a closed client always finds its own entry. */
    method CleanupClient(c: Id) returns (found: bool)
      requires Valid(View()) && c in clients && clients[c].phase == Inserted && !clients[c].open
      modifies this
      ensures Next(old(View()), Cleanup(c), View()) && Valid(View())
      ensures found
    {
      ghost var s := View();
      var user, generation := clients[c].user, clients[c].generation;
      assert Inside(s, user, generation, c);
      assert Registered(s, user, generation, c);
      found := false;
      if user in sessions && generation in sessions[user] {
        found := true;
        sessions := sessions[user := sessions[user] - {generation}];
        if |sessions[user]| == 0 {
          sessions := sessions - {user};
          assert sessions == s.sessions - {user};
        }
      }
      clients := clients[c := clients[c].(phase := Removed)];
      ValidStep(s, Cleanup(c), View());
    }

    /** What a sidecar gets: the newest open client of its user, or a refusal. */
    method Lookup(user: Id) returns (r: Option<Id>)
      requires Valid(View())
      ensures IsNewest(View(), user, r)
    {
      if user !in sessions {
        NoneUsable(View(), user);
        return None;
      }
      var keys := Reversed(sessions[user].Keys);
      for i := 0 to |keys|
        invariant forall j | 0 <= j < i :: !Usable(View(), user, sessions[user][keys[j]])
      {
        assert keys[i] in keys;
        var c := sessions[user][keys[i]];
        assert Registered(View(), user, keys[i], c);
        assert Inside(View(), user, keys[i], c);
        if clients[c].open {
          NewestFound(View(), user, keys, i);
          return Some(c);
        }
      }
      assert forall g | g in sessions[user] :: g in keys && Registered(View(), user, g, sessions[user][g]);
      NoneUsable(View(), user);
      return None;
    }
  }
}
