/**
 Build output and status events of workspaces and prebuilds.  A publisher records an event and copies the subscriber
 list under the mutex, but sends after releasing it; a new subscriber gets the recorded output replayed under the mutex.
 Every lock section and every single send is a step of its own, and steps of all tasks interleave freely.
 */
module Updates {
  import opened Common

  datatype Event = Stdout(line: string) | Stderr(line: string) | Status(status: nat)

  predicate IsLine(e: Event) {
    !e.Status?
  }

  /** The map entry of one workspace or prebuild. */
  datatype Entry = Entry(seen: seq<Event>, subscribers: seq<Id>)

  /** `received` is everything that was ever put into the channel; `open` means that the receiver still exists. */
  datatype Channel = Channel(key: Id, open: bool, received: seq<Event>)

  /** A publisher after its lock section: whom it has still to send the event to. */
  datatype Publication = Publication(key: Id, event: Event, targets: seq<Id>)

  datatype Hub = Hub(entries: map<Id, Entry>, channels: map<Id, Channel>, sends: map<Id, Publication>)

  datatype Step =
    | Record(p: Id, key: Id, event: Event)
    | SendNext(p: Id)
    | Subscribe(c: Id, key: Id)
    | Close(c: Id)
    | Cleanup(key: Id)

  function EntryAt(entries: map<Id, Entry>, key: Id): Entry {
    if key in entries then entries[key] else Entry([], [])
  }

  function Logged(seen: seq<Event>, e: Event): seq<Event> {
    if IsLine(e) then seen + [e] else seen
  }

  /** Sending to a channel whose receiver is gone fails silently. */
  function Delivered(ch: Channel, e: Event): Channel {
    if ch.open then ch.(received := ch.received + [e]) else ch
  }

  function Retained(subscribers: seq<Id>, channels: map<Id, Channel>): (r: seq<Id>)
    ensures forall c :: c in r <==> c in subscribers && c in channels && channels[c].open
    ensures Unique(subscribers) ==> Unique(r)
  {
    if subscribers == [] then
      []
    else
      var last := subscribers[|subscribers| - 1];
      var rest := Retained(subscribers[..|subscribers| - 1], channels);
      if last in channels && channels[last].open then rest + [last] else rest
  }

  predicate Unique(s: seq<Id>) {
    forall i, j | 0 <= i < j < |s| :: s[i] != s[j]
  }

  /** `drops`: whether cleanup removes an entry without subscribers.  It does for workspaces, not for prebuilds. */
  predicate Next(drops: bool, s: Hub, a: Step, t: Hub) {
    match a
    case Record(p, key, event) =>
      var entry := EntryAt(s.entries, key);
      && p !in s.sends
      && t.entries == s.entries[key := entry.(seen := Logged(entry.seen, event))]
      && t.channels == s.channels
      && t.sends == s.sends[p := Publication(key, event, entry.subscribers)]
    case SendNext(p) =>
      && p in s.sends && s.sends[p].targets != [] && s.sends[p].targets[0] in s.channels
      && var c := s.sends[p].targets[0];
         && t.entries == s.entries
         && t.channels == s.channels[c := Delivered(s.channels[c], s.sends[p].event)]
         && t.sends == s.sends[p := s.sends[p].(targets := s.sends[p].targets[1..])]
    case Subscribe(c, key) =>
      var entry := EntryAt(s.entries, key);
      && c !in s.channels
      && t.entries == s.entries[key := entry.(subscribers := entry.subscribers + [c])]
      && t.channels == s.channels[c := Channel(key, true, entry.seen)]
      && t.sends == s.sends
    case Close(c) =>
      && c in s.channels
      && t.entries == s.entries
      && t.channels == s.channels[c := s.channels[c].(open := false)]
      && t.sends == s.sends
    case Cleanup(key) =>
      && t.channels == s.channels
      && t.sends == s.sends
      && if key !in s.entries then
           t.entries == s.entries
         else
           var kept := Retained(s.entries[key].subscribers, s.channels);
           t.entries == if drops && kept == [] then s.entries - {key}
                        else s.entries[key := s.entries[key].(subscribers := kept)]
  }

  ghost predicate Run(drops: bool, states: seq<Hub>, steps: seq<Step>) {
    && |states| == |steps| + 1
    && forall i | 0 <= i < |steps| :: Next(drops, states[i], steps[i], states[i + 1])
  }

  function Empty(): Hub {
    Hub(map[], map[], map[])
  }

  // ---------- what a subscriber is owed ----------

  /** The output lines among the events of a channel. */
  function Lines(events: seq<Event>): (r: seq<Event>)
    ensures (forall e | e in events :: IsLine(e)) ==> r == events
  {
    if events == [] then
      []
    else
      var last := events[|events| - 1];
      Lines(events[..|events| - 1]) + if IsLine(last) then [last] else []
  }

  lemma LinesAppend(events: seq<Event>, e: Event)
    ensures Lines(events + [e]) == Lines(events) + if IsLine(e) then [e] else []
  {
  }

  predicate Owes(p: Publication, c: Id) {
    IsLine(p.event) && c in p.targets
  }

  function Debt(p: Publication, c: Id): multiset<Event> {
    if Owes(p, c) then multiset{p.event} else multiset{}
  }

  /** The lines that are on their way to `c`. */
  ghost function Pending(sends: map<Id, Publication>, c: Id): multiset<Event> {
    if sends == map[] then multiset{} else var p :| p in sends; Debt(sends[p], c) + Pending(sends - {p}, c)
  }

  lemma PendingPick(sends: map<Id, Publication>, c: Id) returns (q: Id)
    requires sends != map[]
    ensures q in sends && Pending(sends, c) == Debt(sends[q], c) + Pending(sends - {q}, c)
  {
    q :| q in sends && Pending(sends, c) == Debt(sends[q], c) + Pending(sends - {q}, c);
  }

  lemma {:induction false} PendingRemove(sends: map<Id, Publication>, p: Id, c: Id)
    requires p in sends
    ensures Pending(sends, c) == Debt(sends[p], c) + Pending(sends - {p}, c)
    decreases |sends|
  {
    var q := PendingPick(sends, c);
    if q != p {
      PendingRemove(sends - {q}, p, c);
      PendingRemove(sends - {p}, q, c);
      assert sends - {q} - {p} == sends - {p} - {q};
      Recombine(Pending(sends, c), Pending(sends - {p}, c), Pending(sends - {q}, c), Pending(sends - {p} - {q}, c),
                Debt(sends[p], c), Debt(sends[q], c));
    }
  }

  lemma Recombine(whole: multiset<Event>, noP: multiset<Event>, noQ: multiset<Event>, rest: multiset<Event>,
                  p: multiset<Event>, q: multiset<Event>)
    requires whole == q + noQ && noQ == p + rest && noP == q + rest
    ensures whole == p + noP
  {
  }

  lemma PendingPut(sends: map<Id, Publication>, p: Id, v: Publication, c: Id)
    ensures Pending(sends[p := v], c) == Debt(v, c) + Pending(sends - {p}, c)
    ensures p !in sends ==> Pending(sends[p := v], c) == Debt(v, c) + Pending(sends, c)
  {
    PendingRemove(sends[p := v], p, c);
    assert sends[p := v] - {p} == sends - {p};
    assert p !in sends ==> sends - {p} == sends;
  }

  lemma {:induction false} NothingPending(sends: map<Id, Publication>, c: Id)
    requires forall p | p in sends :: !Owes(sends[p], c)
    ensures Pending(sends, c) == multiset{}
    decreases |sends|
  {
    if sends != map[] {
      var p :| p in sends;
      PendingRemove(sends, p, c);
      NothingPending(sends - {p}, c);
    }
  }

  /** Different channels, all of this key. */
  ghost predicate Names(channels: map<Id, Channel>, key: Id, ids: seq<Id>) {
    Unique(ids) && forall c | c in ids :: c in channels && channels[c].key == key
  }

  ghost predicate Listed(s: Hub, c: Id)
    requires c in s.channels
  {
    s.channels[c].key in s.entries && c in s.entries[s.channels[c].key].subscribers
  }

  /** Subscriber lists and pending sends name channels of the right key, nobody twice, and every open channel is listed. */
  ghost predicate Wired(s: Hub) {
    && (forall k | k in s.entries :: Names(s.channels, k, s.entries[k].subscribers))
    && (forall p | p in s.sends :: Names(s.channels, s.sends[p].key, s.sends[p].targets))
    && (forall c | c in s.channels && s.channels[c].open :: Listed(s, c))
    && (forall k, e | k in s.entries && e in s.entries[k].seen :: IsLine(e))
  }

  predicate KeysKept(before: map<Id, Channel>, after: map<Id, Channel>) {
    forall c | c in before :: c in after && after[c].key == before[c].key
  }

  lemma NamesKept(before: map<Id, Channel>, after: map<Id, Channel>, key: Id, ids: seq<Id>)
    requires KeysKept(before, after) && Names(before, key, ids)
    ensures Names(after, key, ids)
  {
  }

  /** Names survive when channels keep their keys, and an entry's log keeps to lines. */
  lemma WiredUpdate(s: Hub, t: Hub)
    requires Wired(s) && KeysKept(s.channels, t.channels)
    requires forall k | k in t.entries :: (k in s.entries && t.entries[k] == s.entries[k]) || Names(t.channels, k, t.entries[k].subscribers)
    requires forall k, e | k in t.entries && e in t.entries[k].seen :: IsLine(e)
    requires forall p | p in t.sends :: (p in s.sends && t.sends[p] == s.sends[p]) || Names(t.channels, t.sends[p].key, t.sends[p].targets)
    requires forall c | c in t.channels && t.channels[c].open :: Listed(t, c)
    ensures Wired(t)
  {
  }

  ghost predicate Settled(s: Hub, c: Id)
    requires c in s.channels && s.channels[c].key in s.entries
  {
    multiset(Lines(s.channels[c].received)) + Pending(s.sends, c) == multiset(s.entries[s.channels[c].key].seen)
  }

  /** Each recorded line is in the channel of every open subscriber or on its way to it, exactly once. */
  ghost predicate ExactlyOnce(s: Hub) {
    Wired(s) && forall c | c in s.channels && s.channels[c].open :: Settled(s, c)
  }

  lemma EmptyExactlyOnce()
    ensures ExactlyOnce(Empty())
  {
  }

  lemma TailNames(channels: map<Id, Channel>, key: Id, ids: seq<Id>)
    requires Names(channels, key, ids) && ids != []
    ensures Names(channels, key, ids[1..]) && ids[0] !in ids[1..]
  {
  }

  lemma WiredRecord(drops: bool, s: Hub, a: Step, t: Hub)
    requires Wired(s) && Next(drops, s, a, t) && a.Record?
    ensures Wired(t)
  {
  }

  lemma WiredSend(drops: bool, s: Hub, a: Step, t: Hub)
    requires Wired(s) && Next(drops, s, a, t) && a.SendNext?
    ensures Wired(t)
  {
    TailNames(s.channels, s.sends[a.p].key, s.sends[a.p].targets);
    NamesKept(s.channels, t.channels, s.sends[a.p].key, s.sends[a.p].targets[1..]);
    assert forall c | c in s.channels && s.channels[c].open :: Listed(s, c);
    WiredUpdate(s, t);
  }

  lemma WiredSubscribe(drops: bool, s: Hub, a: Step, t: Hub)
    requires Wired(s) && Next(drops, s, a, t) && a.Subscribe?
    ensures Wired(t)
  {
    assert Names(s.channels, a.key, EntryAt(s.entries, a.key).subscribers);
    assert Names(t.channels, a.key, t.entries[a.key].subscribers);
    assert forall c | c in s.channels && s.channels[c].open :: Listed(s, c);
    WiredUpdate(s, t);
  }

  lemma WiredCleanup(drops: bool, s: Hub, a: Step, t: Hub)
    requires Wired(s) && Next(drops, s, a, t) && a.Cleanup?
    ensures Wired(t)
  {
  }

  lemma WiredStep(drops: bool, s: Hub, a: Step, t: Hub)
    requires Wired(s) && Next(drops, s, a, t)
    ensures Wired(t)
  {
    match a
    case Record(_, _, _) => WiredRecord(drops, s, a, t);
    case SendNext(_) => WiredSend(drops, s, a, t);
    case Subscribe(_, _) => WiredSubscribe(drops, s, a, t);
    case Close(_) => WiredUpdate(s, t);
    case Cleanup(_) => WiredCleanup(drops, s, a, t);
  }

  lemma SettledRecord(drops: bool, s: Hub, a: Step, t: Hub, c: Id)
    requires ExactlyOnce(s) && Next(drops, s, a, t) && a.Record?
    requires c in t.channels && t.channels[c].open && t.channels[c].key in t.entries
    ensures Settled(t, c)
  {
    PendingPut(s.sends, a.p, t.sends[a.p], c);
    assert Settled(s, c);
    assert c in EntryAt(s.entries, a.key).subscribers <==> s.channels[c].key == a.key;
  }

  lemma SettledSend(drops: bool, s: Hub, a: Step, t: Hub, c: Id)
    requires ExactlyOnce(s) && Next(drops, s, a, t) && a.SendNext?
    requires c in t.channels && t.channels[c].open && t.channels[c].key in t.entries
    ensures Settled(t, c)
  {
    var p := s.sends[a.p];
    PendingPut(s.sends, a.p, t.sends[a.p], c);
    PendingRemove(s.sends, a.p, c);
    assert Settled(s, c);
    assert p.targets == [p.targets[0]] + p.targets[1..];
    TailNames(s.channels, p.key, p.targets);
    if c == p.targets[0] {
      LinesAppend(s.channels[c].received, p.event);
    }
  }

  lemma NewChannelSettled(drops: bool, s: Hub, a: Step, t: Hub)
    requires ExactlyOnce(s) && Next(drops, s, a, t) && a.Subscribe?
    ensures a.key in t.entries && Settled(t, a.c)
  {
    NothingPending(s.sends, a.c);
  }

  /** Every single step keeps the promise, whoever takes it. */
  lemma ExactlyOnceStep(drops: bool, s: Hub, a: Step, t: Hub)
    requires ExactlyOnce(s) && Next(drops, s, a, t)
    ensures ExactlyOnce(t)
  {
    WiredStep(drops, s, a, t);
    forall c | c in t.channels && t.channels[c].open
      ensures Settled(t, c)
    {
      match a
      case Record(_, _, _) => SettledRecord(drops, s, a, t, c);
      case SendNext(_) => SettledSend(drops, s, a, t, c);
      case Subscribe(d, _) =>
        if c == d {
          NewChannelSettled(drops, s, a, t);
        } else {
          assert Settled(s, c);
        }
      case Close(_) => assert Settled(s, c);
      case Cleanup(_) => assert Settled(s, c);
    }
  }

  /** Exactly-once delivery in every state of every interleaving. */
  lemma {:induction false} RunIsExactlyOnce(drops: bool, states: seq<Hub>, steps: seq<Step>, k: nat)
    requires Run(drops, states, steps) && ExactlyOnce(states[0]) && k < |states|
    ensures ExactlyOnce(states[k])
  {
    if k > 0 {
      RunIsExactlyOnce(drops, states, steps, k - 1);
      ExactlyOnceStep(drops, states[k - 1], steps[k - 1], states[k]);
    }
  }

  /** Once nothing is on its way to an open subscriber, it has every recorded line, with the right multiplicity. */
  lemma QuietMeansComplete(s: Hub, c: Id)
    requires ExactlyOnce(s) && c in s.channels && s.channels[c].open
    requires forall p | p in s.sends :: c !in s.sends[p].targets
    ensures multiset(Lines(s.channels[c].received)) == multiset(s.entries[s.channels[c].key].seen)
  {
    NothingPending(s.sends, c);
    assert Settled(s, c);
  }

  /** Cleanup keeps exactly the open subscribers, and drops an entry only when none is left. */
  lemma CleanupDropsNoOpenSubscriber(drops: bool, s: Hub, key: Id, t: Hub)
    requires Wired(s) && Next(drops, s, Cleanup(key), t) && key in s.entries
    ensures forall c | c in s.channels && s.channels[c].key == key && s.channels[c].open ::
              key in t.entries && c in t.entries[key].subscribers && t.entries[key].seen == s.entries[key].seen
    ensures key in t.entries ==> forall c | c in t.entries[key].subscribers :: s.channels[c].open
    ensures key !in t.entries <==> drops && forall c | c in s.channels && s.channels[c].key == key :: !s.channels[c].open
  {
    var kept := Retained(s.entries[key].subscribers, s.channels);
    if kept != [] {
      assert kept[0] in kept;
    }
  }

  // ---------- order ----------

  /** The lines a subscriber has are the beginning of the log. */
  ghost predicate InOrderFor(s: Hub, c: Id)
    requires c in s.channels && s.channels[c].key in s.entries
  {
    Lines(s.channels[c].received) <= s.entries[s.channels[c].key].seen
  }

  /** If the step sends a line to the open subscriber `c`, it is the oldest line of the log that `c` is still owed. */
  ghost predicate InTurn(s: Hub, a: Step, c: Id) {
    Serves(s, a, c) && s.channels[c].open && IsLine(s.sends[a.p].event) ==>
      var n, seen := |Lines(s.channels[c].received)|, EntryAt(s.entries, s.channels[c].key).seen;
      n < |seen| && seen[n] == s.sends[a.p].event
  }

  /** The step is a send, and `c` is its target. */
  predicate Serves(s: Hub, a: Step, c: Id) {
    a.SendNext? && a.p in s.sends && s.sends[a.p].targets != [] && s.sends[a.p].targets[0] == c && c in s.channels
  }

  ghost predicate InOrder(s: Hub) {
    ExactlyOnce(s) && forall c | c in s.channels && s.channels[c].open && s.channels[c].key in s.entries :: InOrderFor(s, c)
  }

  lemma NotLongerThanLog(lines: seq<Event>, pending: multiset<Event>, seen: seq<Event>)
    requires multiset(lines) + pending == multiset(seen)
    ensures |lines| <= |seen|
  {
    assert |multiset(lines)| == |lines| && |multiset(seen)| == |seen|;
  }

  lemma PrefixOfLonger(lines: seq<Event>, seen: seq<Event>, e: Event)
    requires |lines| <= |seen|
    ensures lines <= seen + [e] <==> lines <= seen
  {
    if lines <= seen + [e] {
      assert forall i | 0 <= i < |lines| :: lines[i] == (seen + [e])[i];
    }
  }

  lemma PrefixWithOneMore(lines: seq<Event>, e: Event, seen: seq<Event>)
    ensures lines + [e] <= seen <==> lines <= seen && |lines| < |seen| && seen[|lines|] == e
  {
    if lines + [e] <= seen {
      assert seen[|lines|] == (lines + [e])[|lines|];
      assert seen[..|lines|] == (lines + [e])[..|lines|] == lines;
    }
    if lines <= seen && |lines| < |seen| && seen[|lines|] == e {
      assert seen[..|lines| + 1] == lines + [e];
    }
  }

  /** A step changes the channel of an open subscriber by a send to it, and by nothing else. */
  lemma ReceivedBySendsOnly(drops: bool, s: Hub, a: Step, t: Hub, c: Id)
    requires Next(drops, s, a, t) && c in s.channels && c in t.channels && t.channels[c].open
    ensures s.channels[c].open && t.channels[c].key == s.channels[c].key
    ensures t.channels[c].received == s.channels[c].received + if Serves(s, a, c) then [s.sends[a.p].event] else []
  {
  }

  /** For an open subscriber, order survives a step exactly if the step is in turn; once lost it stays lost. */
  lemma OrderStepExact(drops: bool, s: Hub, a: Step, t: Hub, c: Id)
    requires ExactlyOnce(s) && Next(drops, s, a, t) && c in s.channels && c in t.channels && t.channels[c].open
    requires s.channels[c].key in s.entries && t.channels[c].key in t.entries
    ensures InOrderFor(t, c) <==> InOrderFor(s, c) && InTurn(s, a, c)
  {
    ReceivedBySendsOnly(drops, s, a, t, c);
    var key := s.channels[c].key;
    var lines, seen := Lines(s.channels[c].received), s.entries[key].seen;
    if a.SendNext? {
      if Serves(s, a, c) {
        LinesAppend(s.channels[c].received, s.sends[a.p].event);
        PrefixWithOneMore(lines, s.sends[a.p].event, seen);
      }
    } else if a.Record? && a.key == key {
      assert Settled(s, c);
      NotLongerThanLog(lines, Pending(s.sends, c), seen);
      PrefixOfLonger(lines, seen, a.event);
    }
  }

  lemma NewChannelInOrder(drops: bool, s: Hub, a: Step, t: Hub, c: Id)
    requires Wired(s) && Next(drops, s, a, t) && c !in s.channels && c in t.channels
    ensures t.channels[c].key in t.entries && InOrderFor(t, c)
  {
  }

  lemma {:induction false} ChannelsStay(drops: bool, states: seq<Hub>, steps: seq<Step>, i: nat, k: nat, c: Id)
    requires Run(drops, states, steps) && i <= k < |states| && c in states[i].channels
    ensures c in states[k].channels
    decreases k
  {
    if i < k {
      ChannelsStay(drops, states, steps, i, k - 1, c);
      assert Next(drops, states[k - 1], steps[k - 1], states[k]);
    }
  }

  ghost predicate AllInTurn(states: seq<Hub>, steps: seq<Step>, k: nat, c: Id)
    requires k <= |steps| < |states|
  {
    forall i | 0 <= i < k :: InTurn(states[i], steps[i], c)
  }

  lemma OpenIsListed(s: Hub, c: Id)
    requires ExactlyOnce(s) && c in s.channels && s.channels[c].open
    ensures Listed(s, c)
  {
  }

  /** The same seen from the state after the step, for old and new subscribers. */
  lemma OrderExactBack(drops: bool, s: Hub, a: Step, t: Hub, c: Id)
    requires ExactlyOnce(s) && Next(drops, s, a, t) && c in t.channels && t.channels[c].open
    ensures t.channels[c].key in t.entries
    ensures c in s.channels ==>
              && s.channels[c].open && s.channels[c].key in s.entries
              && (InOrderFor(t, c) <==> InOrderFor(s, c) && InTurn(s, a, c))
    ensures c !in s.channels ==> InOrderFor(t, c) && InTurn(s, a, c)
  {
    ExactlyOnceStep(drops, s, a, t);
    OpenIsListed(t, c);
    if c in s.channels {
      ReceivedBySendsOnly(drops, s, a, t, c);
      OpenIsListed(s, c);
      OrderStepExact(drops, s, a, t, c);
    } else {
      NewChannelInOrder(drops, s, a, t, c);
    }
  }

  lemma NothingSentBefore(drops: bool, states: seq<Hub>, steps: seq<Step>, k: nat, c: Id)
    requires Run(drops, states, steps) && k < |states| && c !in states[k].channels
    ensures AllInTurn(states, steps, k, c)
  {
    forall i | 0 <= i < k
      ensures InTurn(states[i], steps[i], c)
    {
      if c in states[i].channels {
        ChannelsStay(drops, states, steps, i, k, c);
      }
    }
  }

  /** In every run, an open subscriber has its lines in the order of the log exactly if every send to it was in turn. */
  lemma {:induction false} RunOrderExact(drops: bool, states: seq<Hub>, steps: seq<Step>, k: nat, c: Id)
    requires Run(drops, states, steps) && InOrder(states[0]) && k < |states|
    requires c in states[k].channels && states[k].channels[c].open
    ensures states[k].channels[c].key in states[k].entries
    ensures InOrderFor(states[k], c) <==> AllInTurn(states, steps, k, c)
  {
    if k == 0 {
      OpenIsListed(states[0], c);
    } else {
      RunIsExactlyOnce(drops, states, steps, k - 1);
      OrderExactBack(drops, states[k - 1], steps[k - 1], states[k], c);
      if c in states[k - 1].channels {
        RunOrderExact(drops, states, steps, k - 1, c);
      } else {
        NothingSentBefore(drops, states, steps, k - 1, c);
      }
      assert AllInTurn(states, steps, k, c) <==> AllInTurn(states, steps, k - 1, c) && InTurn(states[k - 1], steps[k - 1], c);
    }
  }

  // ---------- publishers that take turns ----------

  ghost predicate Busy(s: Hub, key: Id) {
    exists p | p in s.sends :: s.sends[p].key == key && s.sends[p].targets != []
  }

  /** Publications for one key do not overlap. */
  ghost predicate Serial(s: Hub, a: Step) {
    a.Record? ==> !Busy(s, a.key)
  }

  ghost predicate OneAtATime(s: Hub) {
    forall p, q | p in s.sends && q in s.sends && p != q && s.sends[p].key == s.sends[q].key ::
      s.sends[p].targets == [] || s.sends[q].targets == []
  }

  lemma OneAtATimeStep(drops: bool, s: Hub, a: Step, t: Hub)
    requires OneAtATime(s) && Next(drops, s, a, t) && Serial(s, a)
    ensures OneAtATime(t)
  {
  }

  /** What an open subscriber has, followed by what is on its way to it, is the log itself. */
  ghost predicate Continues(s: Hub, c: Id)
    requires c in s.channels && s.channels[c].key in s.entries
  {
    var seen := s.entries[s.channels[c].key].seen;
    var lines := Lines(s.channels[c].received);
    && (forall p | p in s.sends && Owes(s.sends[p], c) :: lines + [s.sends[p].event] == seen)
    && ((forall p | p in s.sends :: !Owes(s.sends[p], c)) ==> lines == seen)
  }

  /** Then at most one publication owes anything to a subscriber. */
  lemma OnlyDebt(s: Hub, p: Id, c: Id)
    requires Wired(s) && OneAtATime(s) && p in s.sends && Owes(s.sends[p], c)
    ensures Pending(s.sends, c) == multiset{s.sends[p].event}
  {
    forall q | q in s.sends && q != p
      ensures !Owes(s.sends[q], c)
    {
      assert Names(s.channels, s.sends[p].key, s.sends[p].targets);
      assert Names(s.channels, s.sends[q].key, s.sends[q].targets);
    }
    PendingRemove(s.sends, p, c);
    NothingPending(s.sends - {p}, c);
  }

  lemma RestOfLog(lines: seq<Event>, pending: multiset<Event>, seen: seq<Event>)
    requires lines <= seen && multiset(lines) + pending == multiset(seen)
    ensures multiset(seen[|lines|..]) == pending
  {
    assert seen == lines + seen[|lines|..];
    Cancel(multiset(lines), multiset(seen[|lines|..]), pending);
  }

  lemma Cancel(a: multiset<Event>, b: multiset<Event>, c: multiset<Event>)
    requires a + b == a + c
    ensures b == c
  {
    forall e: Event
      ensures b[e] == c[e]
    {
      assert (a + b)[e] == a[e] + b[e] && (a + c)[e] == a[e] + c[e];
    }
  }

  lemma SingleRest(rest: seq<Event>, e: Event)
    requires multiset(rest) == multiset{e}
    ensures rest == [e]
  {
    assert |multiset(rest)| == |rest| == 1;
    assert rest[0] in multiset(rest);
  }

  lemma SerialContinues(s: Hub, c: Id)
    requires InOrder(s) && OneAtATime(s) && c in s.channels && s.channels[c].open && s.channels[c].key in s.entries
    ensures Continues(s, c)
  {
    var lines, seen := Lines(s.channels[c].received), s.entries[s.channels[c].key].seen;
    assert Settled(s, c) && InOrderFor(s, c);
    RestOfLog(lines, Pending(s.sends, c), seen);
    assert seen == lines + seen[|lines|..];
    forall p | p in s.sends && Owes(s.sends[p], c)
      ensures lines + [s.sends[p].event] == seen
    {
      OnlyDebt(s, p, c);
      SingleRest(seen[|lines|..], s.sends[p].event);
    }
    if forall p | p in s.sends :: !Owes(s.sends[p], c) {
      NothingPending(s.sends, c);
      assert |multiset(seen[|lines|..])| == |seen[|lines|..]|;
    }
  }

  lemma SerialInTurn(s: Hub, a: Step, c: Id)
    requires InOrder(s) && OneAtATime(s) && c in s.channels && s.channels[c].open && s.channels[c].key in s.entries
    ensures InTurn(s, a, c)
  {
    SerialContinues(s, c);
    if Serves(s, a, c) && IsLine(s.sends[a.p].event) {
      assert Owes(s.sends[a.p], c);
    }
  }

  lemma InOrderStep(drops: bool, s: Hub, a: Step, t: Hub)
    requires InOrder(s) && OneAtATime(s) && Next(drops, s, a, t) && Serial(s, a)
    ensures InOrder(t) && OneAtATime(t)
  {
    ExactlyOnceStep(drops, s, a, t);
    OneAtATimeStep(drops, s, a, t);
    forall c | c in t.channels && t.channels[c].open && t.channels[c].key in t.entries
      ensures InOrderFor(t, c)
    {
      if c in s.channels {
        ReceivedBySendsOnly(drops, s, a, t, c);
        assert Listed(s, c);
        SerialInTurn(s, a, c);
        OrderStepExact(drops, s, a, t, c);
      } else {
        NewChannelInOrder(drops, s, a, t, c);
      }
    }
  }

  lemma {:induction false} SerialRun(drops: bool, states: seq<Hub>, steps: seq<Step>, k: nat)
    requires Run(drops, states, steps) && InOrder(states[0]) && OneAtATime(states[0]) && k < |states|
    requires forall i | 0 <= i < |steps| :: Serial(states[i], steps[i])
    ensures InOrder(states[k]) && OneAtATime(states[k])
  {
    if k > 0 {
      SerialRun(drops, states, steps, k - 1);
      InOrderStep(drops, states[k - 1], steps[k - 1], states[k]);
    }
  }

  /**
   Publishers of one key that take turns deliver the log in order, to early and late subscribers alike: what a subscriber has,
   followed by what is on its way to it, is the log.
   */
  lemma RunIsInOrder(drops: bool, states: seq<Hub>, steps: seq<Step>, k: nat, c: Id)
    requires Run(drops, states, steps) && InOrder(states[0]) && OneAtATime(states[0]) && k < |states|
    requires forall i | 0 <= i < |steps| :: Serial(states[i], steps[i])
    requires c in states[k].channels && states[k].channels[c].open
    ensures states[k].channels[c].key in states[k].entries
    ensures InOrderFor(states[k], c) && Continues(states[k], c)
    ensures AllInTurn(states, steps, k, c)
  {
    SerialRun(drops, states, steps, k);
    assert Listed(states[k], c);
    SerialContinues(states[k], c);
    RunOrderExact(drops, states, steps, k, c);
  }

  // ---------- every event, statuses included ----------

  /** How often the publication `p` has been sent to `c` between two states of a run. */
  function TimesSent(states: seq<Hub>, steps: seq<Step>, j: nat, k: nat, p: Id, c: Id): nat
    requires j <= k < |states| == |steps| + 1
    decreases k
  {
    if j == k then 0
    else
      TimesSent(states, steps, j, k - 1, p, c) +
      if steps[k - 1] == SendNext(p) && Serves(states[k - 1], steps[k - 1], c) then 1 else 0
  }

  ghost predicate SentOnce(states: seq<Hub>, steps: seq<Step>, j: nat, k: nat, p: Id, c: Id)
    requires j <= k < |states| == |steps| + 1 && p in states[j].sends
  {
    && p in states[k].sends && states[k].sends[p].event == states[j].sends[p].event
    && (c in states[k].sends[p].targets ==> c in states[j].sends[p].targets)
    && TimesSent(states, steps, j, k, p, c) ==
       if c in states[j].sends[p].targets && c !in states[k].sends[p].targets then 1 else 0
  }

  /** A publication is sent to each of its targets once, and it is still to come while the target is on the list. */
  lemma {:induction false} TargetsServedOnce(drops: bool, states: seq<Hub>, steps: seq<Step>, j: nat, k: nat, p: Id, c: Id)
    requires Run(drops, states, steps) && j <= k < |states| && ExactlyOnce(states[0]) && p in states[j].sends
    ensures SentOnce(states, steps, j, k, p, c)
    decreases k
  {
    if j < k {
      TargetsServedOnce(drops, states, steps, j, k - 1, p, c);
      RunIsExactlyOnce(drops, states, steps, k - 1);
      SentOnceStep(drops, states, steps, j, k, p, c);
    }
  }

  lemma SentOnceStep(drops: bool, states: seq<Hub>, steps: seq<Step>, j: nat, k: nat, p: Id, c: Id)
    requires j < k < |states| == |steps| + 1 && p in states[j].sends && SentOnce(states, steps, j, k - 1, p, c)
    requires Wired(states[k - 1]) && Next(drops, states[k - 1], steps[k - 1], states[k])
    ensures SentOnce(states, steps, j, k, p, c)
  {
    ServedStep(drops, states[k - 1], steps[k - 1], states[k], p, c);
  }

  lemma ServedStep(drops: bool, s: Hub, a: Step, t: Hub, p: Id, c: Id)
    requires Wired(s) && Next(drops, s, a, t) && p in s.sends
    ensures p in t.sends && t.sends[p].event == s.sends[p].event
    ensures Serves(s, a, c) && a == SendNext(p) ==> c in s.sends[p].targets
    ensures c in t.sends[p].targets <==> c in s.sends[p].targets && !(a == SendNext(p) && Serves(s, a, c))
  {
    if a == SendNext(p) {
      var targets := s.sends[p].targets;
      assert targets == [targets[0]] + targets[1..];
      TailNames(s.channels, s.sends[p].key, targets);
      assert targets[0] in targets;
    }
  }

  lemma TargetsAreSubscribers(drops: bool, s: Hub, a: Step, t: Hub, c: Id)
    requires Wired(s) && Next(drops, s, a, t) && a.Record?
    ensures a.p in t.sends && t.sends[a.p].event == a.event
    ensures c in s.channels && s.channels[c].open && s.channels[c].key == a.key ==> c in t.sends[a.p].targets
    ensures c !in s.channels ==> c !in t.sends[a.p].targets
  {
    assert c in s.channels && s.channels[c].open ==> Listed(s, c);
    assert Names(s.channels, a.key, EntryAt(s.entries, a.key).subscribers);
  }

  /**
   An event of any kind, a status too, is sent exactly once to every subscriber that is open when it is recorded, and never
   to one that comes later.
   */
  lemma EventReachesItsSubscribersOnce(drops: bool, states: seq<Hub>, steps: seq<Step>, j: nat, k: nat, c: Id)
    requires Run(drops, states, steps) && j < k < |states| && ExactlyOnce(states[0]) && steps[j].Record?
    ensures steps[j].p in states[k].sends && states[k].sends[steps[j].p].event == steps[j].event
    ensures c in states[j].channels && states[j].channels[c].open && states[j].channels[c].key == steps[j].key ==>
              TimesSent(states, steps, j + 1, k, steps[j].p, c) == if c in states[k].sends[steps[j].p].targets then 0 else 1
    ensures c !in states[j].channels ==> TimesSent(states, steps, j + 1, k, steps[j].p, c) == 0
  {
    RunIsExactlyOnce(drops, states, steps, j);
    TargetsAreSubscribers(drops, states[j], steps[j], states[j + 1], c);
    TargetsServedOnce(drops, states, steps, j + 1, k, steps[j].p, c);
  }

  /**
   In every run from the beginning: exactly-once delivery of the current log, and order exactly if every send is in turn.
   What the current log is, the next section says.
   */
  lemma DeliveryFromTheBeginning(drops: bool, states: seq<Hub>, steps: seq<Step>, k: nat, c: Id)
    requires Run(drops, states, steps) && states[0] == Empty() && k < |states|
    requires c in states[k].channels && states[k].channels[c].open
    ensures ExactlyOnce(states[k]) && states[k].channels[c].key in states[k].entries
    ensures states[k].entries[states[k].channels[c].key].seen == Recorded(states, steps, k, states[k].channels[c].key)
    ensures InOrderFor(states[k], c) <==> AllInTurn(states, steps, k, c)
  {
    EmptyExactlyOnce();
    RunIsExactlyOnce(drops, states, steps, k);
    RunOrderExact(drops, states, steps, k, c);
    LogIsRecorded(drops, states, steps, k, states[k].channels[c].key);
  }

  // ---------- the log and the whole output ----------

  /** The step is a cleanup that throws the entry of the key away, log and all. */
  predicate DropsEntry(s: Hub, a: Step, t: Hub, key: Id) {
    a == Cleanup(key) && key in s.entries && key !in t.entries
  }

  /** The output that a step records for a key: what was written to either of the two streams, and no status. */
  function NewLines(a: Step, key: Id): seq<Event> {
    if a.Record? && a.key == key && (a.event.Stdout? || a.event.Stderr?) then [a.event] else []
  }

  /** All lines recorded for a key in a run. */
  function Output(steps: seq<Step>, k: nat, key: Id): seq<Event>
    requires k <= |steps|
  {
    if k == 0 then [] else Output(steps, k - 1, key) + NewLines(steps[k - 1], key)
  }

  /** Those recorded since the entry was last thrown away. */
  function Recorded(states: seq<Hub>, steps: seq<Step>, k: nat, key: Id): seq<Event>
    requires k < |states| == |steps| + 1
  {
    if k == 0 then []
    else if DropsEntry(states[k - 1], steps[k - 1], states[k], key) then []
    else Recorded(states, steps, k - 1, key) + NewLines(steps[k - 1], key)
  }

  lemma LogStep(drops: bool, s: Hub, a: Step, t: Hub, key: Id)
    requires Next(drops, s, a, t)
    ensures EntryAt(t.entries, key).seen ==
            if DropsEntry(s, a, t, key) then [] else EntryAt(s.entries, key).seen + NewLines(a, key)
  {
  }

  /** The log of a key is what was recorded for it since a cleanup last threw its entry away. */
  lemma {:induction false} LogIsRecorded(drops: bool, states: seq<Hub>, steps: seq<Step>, k: nat, key: Id)
    requires Run(drops, states, steps) && states[0] == Empty() && k < |states|
    ensures EntryAt(states[k].entries, key).seen == Recorded(states, steps, k, key)
  {
    if k > 0 {
      LogIsRecorded(drops, states, steps, k - 1, key);
      LogStep(drops, states[k - 1], steps[k - 1], states[k], key);
    }
  }

  lemma OldLinesStay(drops: bool, s: Hub, a: Step, t: Hub, key: Id, e: Event)
    requires Next(drops, s, a, t) && !DropsEntry(s, a, t, key) && e in EntryAt(s.entries, key).seen
    ensures e in EntryAt(t.entries, key).seen
  {
    LogStep(drops, s, a, t, key);
  }

  /** Output that was written to either stream stays in the log until a cleanup drops the entry. */
  lemma {:induction false} RecordedLineStays(drops: bool, states: seq<Hub>, steps: seq<Step>, i: nat, k: nat)
    requires Run(drops, states, steps) && i < k < |states|
    requires steps[i].Record? && (steps[i].event.Stdout? || steps[i].event.Stderr?)
    requires forall m | i < m < k :: !DropsEntry(states[m], steps[m], states[m + 1], steps[i].key)
    ensures steps[i].event in EntryAt(states[k].entries, steps[i].key).seen
    decreases k
  {
    if k == i + 1 {
      LogStep(drops, states[i], steps[i], states[k], steps[i].key);
    } else {
      RecordedLineStays(drops, states, steps, i, k - 1);
      OldLinesStay(drops, states[k - 1], steps[k - 1], states[k], steps[i].key, steps[i].event);
    }
  }

  lemma {:induction false} ReceivedGrows(drops: bool, states: seq<Hub>, steps: seq<Step>, i: nat, k: nat, c: Id)
    requires Run(drops, states, steps) && i <= k < |states| && c in states[i].channels
    ensures c in states[k].channels && states[i].channels[c].received <= states[k].channels[c].received
    decreases k
  {
    if i < k {
      ReceivedGrows(drops, states, steps, i, k - 1, c);
      assert Next(drops, states[k - 1], steps[k - 1], states[k]);
    }
  }

  lemma {:induction false} NoStatusInLog(drops: bool, states: seq<Hub>, steps: seq<Step>, k: nat, key: Id)
    requires Run(drops, states, steps) && states[0] == Empty() && k < |states|
    ensures forall e | e in EntryAt(states[k].entries, key).seen :: e.Stdout? || e.Stderr?
  {
    if k > 0 {
      NoStatusInLog(drops, states, steps, k - 1, key);
      LogStep(drops, states[k - 1], steps[k - 1], states[k], key);
    }
  }

  /**
   A page that is opened at any time after some output was recorded (at `i`), with the entry not dropped in between, has
   that output from its subscription (at `j`) on.  What is replayed to it holds no status.
   */
  lemma LateSubscribersSeeOutput(drops: bool, states: seq<Hub>, steps: seq<Step>, i: nat, j: nat, k: nat, c: Id)
    requires Run(drops, states, steps) && states[0] == Empty() && i < j < k < |states|
    requires steps[i].Record? && (steps[i].event.Stdout? || steps[i].event.Stderr?)
    requires forall m | i < m < j :: !DropsEntry(states[m], steps[m], states[m + 1], steps[i].key)
    requires steps[j] == Subscribe(c, steps[i].key)
    ensures c in states[j + 1].channels && c in states[k].channels
    ensures steps[i].event in states[k].channels[c].received
    ensures forall e | e in states[j + 1].channels[c].received :: !e.Status?
    ensures states[j + 1].channels[c].received <= states[k].channels[c].received
  {
    RecordedLineStays(drops, states, steps, i, j);
    NoStatusInLog(drops, states, steps, j, steps[i].key);
    assert Next(drops, states[j], steps[j], states[j + 1]);
    ReceivedGrows(drops, states, steps, j + 1, k, c);
  }

  /** A cleanup has thrown recorded lines away. */
  ghost predicate LinesLost(states: seq<Hub>, steps: seq<Step>, k: nat, key: Id)
    requires k < |states| == |steps| + 1
  {
    exists i | 0 <= i < k :: DropsEntry(states[i], steps[i], states[i + 1], key) && Output(steps, i, key) != []
  }

  lemma {:induction false} OutputGrows(steps: seq<Step>, i: nat, k: nat, key: Id)
    requires i <= k <= |steps|
    ensures Output(steps, i, key) <= Output(steps, k, key)
    decreases k
  {
    if i < k {
      OutputGrows(steps, i, k - 1, key);
    }
  }

  /** What is recorded since then is the end of the whole output, and all of it exactly if nothing was thrown away. */
  lemma {:induction false} RecordedExact(states: seq<Hub>, steps: seq<Step>, k: nat, key: Id)
    requires k < |states| == |steps| + 1
    ensures |Recorded(states, steps, k, key)| <= |Output(steps, k, key)|
    ensures Recorded(states, steps, k, key) == Output(steps, k, key) <==> !LinesLost(states, steps, k, key)
  {
    if k > 0 {
      RecordedExact(states, steps, k - 1, key);
      if DropsEntry(states[k - 1], steps[k - 1], states[k], key) {
        if LinesLost(states, steps, k, key) {
          var i :| 0 <= i < k && DropsEntry(states[i], steps[i], states[i + 1], key) && Output(steps, i, key) != [];
          OutputGrows(steps, i, k - 1, key);
        }
      } else {
        SameEnd(Recorded(states, steps, k - 1, key), Output(steps, k - 1, key), NewLines(steps[k - 1], key));
        LostEarlier(states, steps, k, key);
      }
    }
  }

  lemma SameEnd(a: seq<Event>, b: seq<Event>, e: seq<Event>)
    ensures a + e == b + e <==> a == b
  {
    if a + e == b + e {
      assert |a| == |b|;
      assert a == (a + e)[..|a|] && b == (b + e)[..|b|];
    }
  }

  lemma LostEarlier(states: seq<Hub>, steps: seq<Step>, k: nat, key: Id)
    requires 0 < k < |states| == |steps| + 1 && !DropsEntry(states[k - 1], steps[k - 1], states[k], key)
    ensures LinesLost(states, steps, k, key) <==> LinesLost(states, steps, k - 1, key)
  {
  }

  lemma EqualBags(a: seq<Event>, b: seq<Event>)
    requires multiset(a) == multiset(b)
    ensures |a| == |b|
  {
    assert |multiset(a)| == |a| && |multiset(b)| == |b|;
  }

  /**
   An open subscriber has the whole output of the run so far, or has it on its way, exactly if no cleanup has thrown recorded
   lines away.
   */
  lemma WholeOutputExact(drops: bool, states: seq<Hub>, steps: seq<Step>, k: nat, c: Id)
    requires Run(drops, states, steps) && states[0] == Empty() && k < |states|
    requires c in states[k].channels && states[k].channels[c].open
    ensures var key := states[k].channels[c].key;
            multiset(Lines(states[k].channels[c].received)) + Pending(states[k].sends, c) == multiset(Output(steps, k, key)) <==>
            !LinesLost(states, steps, k, key)
  {
    var key := states[k].channels[c].key;
    DeliveryFromTheBeginning(drops, states, steps, k, c);
    assert Settled(states[k], c);
    RecordedExact(states, steps, k, key);
    if multiset(Recorded(states, steps, k, key)) == multiset(Output(steps, k, key)) {
      EqualBags(Recorded(states, steps, k, key), Output(steps, k, key));
      RecordedIsEnd(states, steps, k, key);
    }
  }

  lemma {:induction false} RecordedIsEnd(states: seq<Hub>, steps: seq<Step>, k: nat, key: Id)
    requires k < |states| == |steps| + 1
    ensures var all, end := Output(steps, k, key), Recorded(states, steps, k, key);
            |end| <= |all| && all[|all| - |end|..] == end
  {
    if k > 0 && !DropsEntry(states[k - 1], steps[k - 1], states[k], key) {
      RecordedIsEnd(states, steps, k - 1, key);
    }
  }

  /** Prebuilds keep their entries, so that nothing is ever lost. */
  lemma PrebuildOutputIsWhole(states: seq<Hub>, steps: seq<Step>, k: nat, key: Id)
    requires Run(false, states, steps) && k < |states|
    ensures !LinesLost(states, steps, k, key)
  {
    forall i | 0 <= i < k
      ensures !DropsEntry(states[i], steps[i], states[i + 1], key)
    {
      assert Next(false, states[i], steps[i], states[i + 1]);
    }
  }

  // ---------- a page that is loaded again ----------

  function ReloadStates(e: Event): seq<Hub> {
    var sent := map[1 := Publication(0, e, [])];
    [Empty(), Single([], [], map[]), Single([e], [], map[1 := Publication(0, e, [0])]), Single([e], [e], sent),
     Hub(map[0 := Entry([e], [0])], map[0 := Channel(0, false, [e])], sent),
     Hub(map[], map[0 := Channel(0, false, [e])], sent),
     Hub(map[0 := Entry([], [1])], map[0 := Channel(0, false, [e]), 1 := Channel(0, true, [])], sent)]
  }

  function ReloadSteps(e: Event): seq<Step> {
    [Subscribe(0, 0), Record(1, 0, e), SendNext(1), Close(0), Cleanup(0), Subscribe(1, 0)]
  }

  lemma ReloadBegins(e: Event)
    requires IsLine(e)
    ensures Next(true, ReloadStates(e)[0], ReloadSteps(e)[0], ReloadStates(e)[1])
    ensures Next(true, ReloadStates(e)[1], ReloadSteps(e)[1], ReloadStates(e)[2])
    ensures Next(true, ReloadStates(e)[2], ReloadSteps(e)[2], ReloadStates(e)[3])
  {
    assert [] + [0] == [0] && [] + [e] == [e] && [0][1..] == [];
  }

  lemma NobodyRetained(channels: map<Id, Channel>)
    requires 0 in channels && !channels[0].open
    ensures Retained([0], channels) == []
  {
    assert [0][..0] == [];
  }

  lemma ReloadCloses(e: Event)
    ensures Next(true, ReloadStates(e)[3], ReloadSteps(e)[3], ReloadStates(e)[4])
    ensures Next(true, ReloadStates(e)[4], ReloadSteps(e)[4], ReloadStates(e)[5])
  {
    NobodyRetained(ReloadStates(e)[4].channels);
    assert map[0 := Entry([e], [0])] - {0} == map[];
  }

  lemma ReloadEnds(e: Event)
    ensures Next(true, ReloadStates(e)[5], ReloadSteps(e)[5], ReloadStates(e)[6])
  {
    assert [] + [1] == [1];
  }

  /** A page is closed and loaded again during a build: the new subscriber has nothing, and nothing is on its way to it. */
  lemma ReloadLosesLines(e: Event)
    requires IsLine(e)
    ensures Run(true, ReloadStates(e), ReloadSteps(e)) && ReloadStates(e)[0] == Empty()
    ensures var s := ReloadStates(e)[6];
            && s.channels[1] == Channel(0, true, []) && (forall p | p in s.sends :: 1 !in s.sends[p].targets)
            && Output(ReloadSteps(e), 6, 0) == [e] && LinesLost(ReloadStates(e), ReloadSteps(e), 6, 0)
  {
    ReloadRun(e);
    OutputOfReload(e);
    ReloadDrops(e);
    LostAt(ReloadStates(e), ReloadSteps(e), 4, 6, 0);
  }

  lemma ReloadRun(e: Event)
    requires IsLine(e)
    ensures Run(true, ReloadStates(e), ReloadSteps(e))
  {
    ReloadBegins(e);
    ReloadCloses(e);
    ReloadEnds(e);
  }

  lemma ReloadDrops(e: Event)
    ensures DropsEntry(ReloadStates(e)[4], ReloadSteps(e)[4], ReloadStates(e)[5], 0)
  {
  }

  lemma LostAt(states: seq<Hub>, steps: seq<Step>, i: nat, k: nat, key: Id)
    requires i < k < |states| == |steps| + 1
    requires DropsEntry(states[i], steps[i], states[i + 1], key) && Output(steps, i, key) != []
    ensures LinesLost(states, steps, k, key)
  {
  }

  lemma OutputOfReload(e: Event)
    requires IsLine(e)
    ensures Output(ReloadSteps(e), 4, 0) == [e] && Output(ReloadSteps(e), 6, 0) == [e]
  {
    var steps := ReloadSteps(e);
    assert Output(steps, 1, 0) == [];
    assert Output(steps, 2, 0) == [e];
    assert Output(steps, 3, 0) == [e];
    assert Output(steps, 4, 0) == [e];
    assert Output(steps, 5, 0) == [e];
  }

  // ---------- overlapping publishers ----------

  /** One subscriber, and the publications that are under way. */
  function Single(seen: seq<Event>, received: seq<Event>, sends: map<Id, Publication>): Hub {
    Hub(map[0 := Entry(seen, [0])], map[0 := Channel(0, true, received)], sends)
  }

  function Sent(e: Event, f: Event, first: seq<Id>, second: seq<Id>): map<Id, Publication> {
    map[1 := Publication(0, e, first), 2 := Publication(0, f, second)]
  }

  function SwapStates(e: Event, f: Event): seq<Hub> {
    [Empty(), Single([], [], map[]), Single([e], [], map[1 := Publication(0, e, [0])]),
     Single([e, f], [], Sent(e, f, [0], [0])), Single([e, f], [f], Sent(e, f, [0], [])),
     Single([e, f], [f, e], Sent(e, f, [], []))]
  }

  function SwapSteps(e: Event, f: Event): seq<Step> {
    [Subscribe(0, 0), Record(1, 0, e), Record(2, 0, f), SendNext(2), SendNext(1)]
  }

  /** Without that hypothesis the order is lost: a subscriber may see two overlapping lines swapped. */
  lemma OverlapSwapsLines(drops: bool, e: Event, f: Event)
    requires IsLine(e) && IsLine(f)
    ensures Run(drops, SwapStates(e, f), SwapSteps(e, f))
    ensures var last := SwapStates(e, f)[5];
            && last.entries[0].seen == [e, f] && last.channels[0].received == [f, e]
            && !Busy(last, 0)
            && (InOrderFor(last, 0) <==> e == f)
  {
    SwapRun(drops, e, f);
    SwapResult(e, f);
  }

  lemma SwapRun(drops: bool, e: Event, f: Event)
    requires IsLine(e) && IsLine(f)
    ensures Run(drops, SwapStates(e, f), SwapSteps(e, f))
  {
    forall i | 0 <= i < 5
      ensures Next(drops, SwapStates(e, f)[i], SwapSteps(e, f)[i], SwapStates(e, f)[i + 1])
    {
      SwapStep(drops, e, f, i);
    }
  }

  lemma SwapResult(e: Event, f: Event)
    requires IsLine(e) && IsLine(f)
    ensures var last := Single([e, f], [f, e], Sent(e, f, [], []));
            !Busy(last, 0) && (InOrderFor(last, 0) <==> e == f)
  {
    assert Lines([f, e]) == [f, e];
    assert [f, e][0] == f && [e, f][0] == e;
  }

  lemma SwapStep(drops: bool, e: Event, f: Event, i: nat)
    requires IsLine(e) && IsLine(f) && i < 5
    ensures Next(drops, SwapStates(e, f)[i], SwapSteps(e, f)[i], SwapStates(e, f)[i + 1])
  {
    SwapStart(drops, e, f);
    SwapRecords(drops, e, f);
    SwapSends(drops, e, f);
  }

  lemma SwapStart(drops: bool, e: Event, f: Event)
    ensures Next(drops, Empty(), Subscribe(0, 0), Single([], [], map[]))
  {
    assert [] + [0] == [0];
  }

  lemma SwapRecords(drops: bool, e: Event, f: Event)
    requires IsLine(e) && IsLine(f)
    ensures Next(drops, Single([], [], map[]), Record(1, 0, e), Single([e], [], map[1 := Publication(0, e, [0])]))
    ensures Next(drops, Single([e], [], map[1 := Publication(0, e, [0])]), Record(2, 0, f), Single([e, f], [], Sent(e, f, [0], [0])))
  {
    assert [] + [e] == [e] && [e] + [f] == [e, f];
  }

  lemma SwapSends(drops: bool, e: Event, f: Event)
    ensures Next(drops, Single([e, f], [], Sent(e, f, [0], [0])), SendNext(2), Single([e, f], [f], Sent(e, f, [0], [])))
    ensures Next(drops, Single([e, f], [f], Sent(e, f, [0], [])), SendNext(1), Single([e, f], [f, e], Sent(e, f, [], [])))
  {
    assert [0][1..] == [] && [] + [f] == [f] && [f] + [e] == [f, e];
  }

  // ---------- the lock sections and sends, in place ----------

  /** The channels in `done` have got the event, the others have not. */
  ghost predicate Progress(before: map<Id, Channel>, now: map<Id, Channel>, done: seq<Id>, event: Event) {
    && now.Keys == before.Keys
    && forall c | c in before :: now[c] == if c in done then Delivered(before[c], event) else before[c]
  }

  lemma ProgressMade(before: map<Id, Channel>, now: map<Id, Channel>, all: seq<Id>, n: nat, event: Event)
    requires n < |all| && Unique(all) && Progress(before, now, all[..n], event) && all[n] in now
    ensures Progress(before, now[all[n] := Delivered(now[all[n]], event)], all[..n + 1], event)
  {
  }

  lemma AllListed(s: Hub, key: Id)
    requires Wired(s) && key in s.entries
    ensures Names(s.channels, key, s.entries[key].subscribers)
    ensures forall c | c in s.channels && s.channels[c].key == key && s.channels[c].open :: c in s.entries[key].subscribers
  {
  }

  class UpdateHub {
    var entries: map<Id, Entry>
    var channels: map<Id, Channel>
    var sends: map<Id, Publication>
    const drops: bool

    function View(): Hub
      reads this
    {
      Hub(entries, channels, sends)
    }

    ghost predicate Valid()
      reads this
    {
      ExactlyOnce(View())
    }

    constructor (drops: bool)
      ensures View() == Empty() && Valid() && this.drops == drops
    {
      entries, channels, sends := map[], map[], map[];
      this.drops := drops;
    }

    /** The lock section of a publisher. */
    method RecordEvent(p: Id, key: Id, event: Event)
      requires Valid() && p !in sends
      modifies this
      ensures Next(drops, old(View()), Record(p, key, event), View()) && Valid()
      ensures var seen := if key in old(entries) then old(entries)[key].seen else [];
              key in entries && entries[key].seen == if event.Stdout? || event.Stderr? then seen + [event] else seen
    {
      ghost var s := View();
      if key !in entries {
        entries := entries[key := Entry([], [])];
      }
      var entry := entries[key];
      if !event.Status? {
        entry := entry.(seen := entry.seen + [event]);
      }
      entries := entries[key := entry];
      sends := sends[p := Publication(key, event, entry.subscribers)];
      ExactlyOnceStep(drops, s, Record(p, key, event), View());
    }

    /** One send of a publisher, without the lock. */
    method Send(p: Id)
      requires Valid() && p in sends && sends[p].targets != []
      modifies this
      ensures Next(drops, old(View()), SendNext(p), View()) && Valid()
    {
      ghost var s := View();
      var c := sends[p].targets[0];
      assert c in sends[p].targets;
      if channels[c].open {
        channels := channels[c := channels[c].(received := channels[c].received + [sends[p].event])];
      }
      sends := sends[p := sends[p].(targets := sends[p].targets[1..])];
      ExactlyOnceStep(drops, s, SendNext(p), View());
    }

    /** All the sends of a publisher, if nobody comes in between. */
    method SendAll(p: Id)
      requires Valid() && p in sends
      modifies this
      ensures Valid() && entries == old(entries)
      ensures sends == old(sends)[p := old(sends)[p].(targets := [])]
      ensures Progress(old(channels), channels, old(sends)[p].targets, old(sends)[p].event)
    {
      ghost var before, first := channels, sends[p];
      ghost var n := 0;
      while sends[p].targets != []
        invariant Valid() && n <= |first.targets| && entries == old(entries)
        invariant sends == old(sends)[p := first.(targets := first.targets[n..])]
        invariant Unique(first.targets) && Progress(before, channels, first.targets[..n], first.event)
        decreases |first.targets| - n
      {
        assert first.targets[n..][0] == first.targets[n] && first.targets[n..][1..] == first.targets[n + 1..];
        ProgressMade(before, channels, first.targets, n, first.event);
        Send(p);
        n := n + 1;
      }
      assert first.targets[..n] == first.targets;
    }

    /** A publisher that is not interleaved with anyone: every open subscriber gets the event once, at the end. */
    method AddUpdateEvent(p: Id, key: Id, event: Event)
      requires Valid() && p !in sends
      modifies this
      ensures Valid()
      ensures var entry := EntryAt(old(entries), key);
              entries == old(entries)[key := Entry(if event.Status? then entry.seen else entry.seen + [event], entry.subscribers)]
      ensures channels.Keys == old(channels).Keys
      ensures forall c | c in channels ::
                channels[c] == if old(channels)[c].key == key && old(channels)[c].open
                               then Channel(key, true, old(channels)[c].received + [event]) else old(channels)[c]
      ensures sends == old(sends)[p := Publication(key, event, [])]
    {
      RecordEvent(p, key, event);
      AllListed(View(), key);
      SendAll(p);
    }

    /** A subscriber gets the log replayed before it joins the list, all in one lock section. */
    method SubscribeTo(c: Id, key: Id)
      requires Valid() && c !in channels
      modifies this
      ensures Next(drops, old(View()), Subscribe(c, key), View()) && Valid()
      ensures c in channels && channels[c] == Channel(key, true, if key in old(entries) then old(entries)[key].seen else [])
    {
      ghost var s := View();
      var entry := if key in entries then entries[key] else Entry([], []);
      var received := [];
      for i := 0 to |entry.seen|
        invariant received == entry.seen[..i]
      {
        received := received + [entry.seen[i]];
      }
      assert received == entry.seen;
      channels := channels[c := Channel(key, true, received)];
      entries := entries[key := entry.(subscribers := entry.subscribers + [c])];
      ExactlyOnceStep(drops, s, Subscribe(c, key), View());
    }

    /** The receiver is dropped. */
    method CloseChannel(c: Id)
      requires Valid() && c in channels
      modifies this
      ensures Next(drops, old(View()), Close(c), View()) && Valid()
    {
      ghost var s := View();
      channels := channels[c := channels[c].(open := false)];
      ExactlyOnceStep(drops, s, Close(c), View());
    }

    method RetainOpen(subscribers: seq<Id>) returns (kept: seq<Id>)
      ensures kept == Retained(subscribers, channels)
    {
      kept := [];
      for i := 0 to |subscribers|
        invariant kept == Retained(subscribers[..i], channels)
      {
        assert subscribers[..i + 1][..i] == subscribers[..i];
        if subscribers[i] in channels && channels[subscribers[i]].open {
          kept := kept + [subscribers[i]];
        }
      }
      assert subscribers[..|subscribers|] == subscribers;
    }

    method CleanupUpdates(key: Id)
      requires Valid()
      modifies this
      ensures Next(drops, old(View()), Cleanup(key), View()) && Valid()
    {
      ghost var s := View();
      if key in entries {
        var kept := RetainOpen(entries[key].subscribers);
        entries := entries[key := entries[key].(subscribers := kept)];
        if drops && |kept| == 0 {
          entries := entries - {key};
          assert entries == s.entries - {key};
        }
      }
      ExactlyOnceStep(drops, s, Cleanup(key), View());
    }
  }
}
