/**
 * The engine side of the AIs: the tables of active AIs and of AIs per team, the hosts, and the
 * loaded libraries, through arbitrary runs of creation, events, kill flags and destruction.
 */
module Engine {
  import opened LibraryKeys
  import opened Libraries
  import opened Lifecycle

  datatype State = State(hosts: seq<Host>, teams: seq<seq<int>>, active: seq<int>, slots: Slots)

  datatype Step =
    | Create(id: int, team: int, key: SkirmishKey, answers: Answers)
    | Deliver(id: int, response: Response)
    | SetFlag(id: int, reason: int)
    | Remove(id: int)
    | PostLoad(id: int, supported: bool, fetchStarts: bool, releaseStarts: bool, events: seq<Response>)
    | Destroy(id: int, releaseEvent: Response, libraryRelease: Response, interfaceStarts: bool)

  // ----- sequences without duplicates -----

  ghost predicate NoDup(xs: seq<int>) {
    forall i, j :: 0 <= i < j < |xs| ==> xs[i] != xs[j]
  }

  /** Removes the first occurrence, as std::find and erase do. */
  function Erase(xs: seq<int>, x: int): seq<int> {
    if xs == [] then [] else if xs[0] == x then xs[1..] else [xs[0]] + Erase(xs[1..], x)
  }

  lemma {:induction false} EraseContents(xs: seq<int>, x: int)
    requires NoDup(xs)
    ensures NoDup(Erase(xs, x))
    ensures forall y :: y in Erase(xs, x) <==> y in xs && y != x
    ensures x in xs ==> |Erase(xs, x)| == |xs| - 1
  {
    if xs != [] {
      assert xs == [xs[0]] + xs[1..];
      assert NoDup(xs[1..]);
      if xs[0] != x {
        EraseContents(xs[1..], x);
        var rest := Erase(xs[1..], x);
        assert xs[0] !in rest;
        assert Erase(xs, x) == [xs[0]] + rest;
        forall i, j | 0 <= i < j < |rest| + 1
          ensures ([xs[0]] + rest)[i] != ([xs[0]] + rest)[j]
        {
          assert rest[j - 1] in rest;
        }
      }
    }
  }

  // ----- the tables -----

  /**
   * The active list and the team lists have no duplicates; an id is in the list of a team exactly if it
   * is active and its wrapper carries that team. So the active list is the disjoint union of the team lists.
   */
  ghost predicate ListsAgree(s: State) {
    && NoDup(s.active)
    && InRange(s.active, |s.hosts|)
    && (forall id :: id in s.active ==> 0 <= s.hosts[id].teamId < |s.teams|)
    && (forall t :: 0 <= t < |s.teams| ==> NoDup(s.teams[t]))
    && (forall t, id :: 0 <= t < |s.teams| ==> (id in s.teams[t] <==> id in s.active && s.hosts[id].teamId == t))
  }

  /** Every host reflects its log; the active ones carry their own id, the others none. */
  ghost predicate HostsAgree(cfg: Config, s: State) {
    forall id :: 0 <= id < |s.hosts| ==>
      && Settled(s.hosts[id])
      && s.hosts[id].aiId == (if id in s.active then id else -1)
      && (id in s.active ==> cfg.IsResolved(s.hosts[id].key))
  }

  ghost predicate InRange(ids: seq<int>, n: nat) {
    forall i :: 0 <= i < |ids| ==> 0 <= ids[i] < n
  }

  predicate Holds(h: Host, k: SkirmishKey) {
    h.library && h.key == k
  }

  /** How many of the listed AIs hold the library of k. */
  ghost function Holders(ids: seq<int>, hosts: seq<Host>, k: SkirmishKey): nat
    requires InRange(ids, |hosts|)
  {
    if ids == [] then 0 else (if Holds(hosts[ids[0]], k) then 1 else 0) + Holders(ids[1..], hosts, k)
  }

  /** Load counts are conserved: the count of every AI is the number of active wrappers that hold its library. */
  ghost predicate CountsAgree(cfg: Config, s: State)
    requires ListsAgree(s)
  {
    && (forall k :: k in cfg.ais ==> CountOf(s.slots, k) == Holders(s.active, s.hosts, k))
    && (forall id :: id in s.active ==>
         if s.hosts[id].library then s.hosts[id].key in cfg.ais else FetchFails(cfg, s.slots, s.hosts[id].key))
  }

  ghost predicate Invariant(cfg: Config, idle: set<InterfaceKey>, s: State) {
    && cfg.Valid()
    && SlotsSound(cfg, idle, s.slots)
    && ListsAgree(s)
    && HostsAgree(cfg, s)
    && CountsAgree(cfg, s)
  }

  // ----- counting holders -----

  lemma {:induction false} HoldersFrame(ids: seq<int>, hosts: seq<Host>, hosts': seq<Host>, k: SkirmishKey)
    requires |hosts| == |hosts'| && InRange(ids, |hosts|)
    requires forall i :: 0 <= i < |ids| ==> Holds(hosts[ids[i]], k) == Holds(hosts'[ids[i]], k)
    ensures Holders(ids, hosts, k) == Holders(ids, hosts', k)
  {
    if ids != [] {
      HoldersFrame(ids[1..], hosts, hosts', k);
    }
  }

  lemma {:induction false} HoldersSnoc(ids: seq<int>, id: int, hosts: seq<Host>, k: SkirmishKey)
    requires InRange(ids, |hosts|)
    requires 0 <= id < |hosts|
    ensures Holders(ids + [id], hosts, k) == Holders(ids, hosts, k) + (if Holds(hosts[id], k) then 1 else 0)
  {
    if ids == [] {
      assert ids + [id] == [id] && [id][1..] == [];
    } else {
      assert (ids + [id])[1..] == ids[1..] + [id];
      HoldersSnoc(ids[1..], id, hosts, k);
    }
  }

  lemma {:induction false} HoldersErase(ids: seq<int>, id: int, hosts: seq<Host>, k: SkirmishKey)
    requires InRange(ids, |hosts|)
    requires id in ids && NoDup(ids)
    ensures InRange(Erase(ids, id), |hosts|)
    ensures Holders(Erase(ids, id), hosts, k) == Holders(ids, hosts, k) - (if Holds(hosts[id], k) then 1 else 0)
  {
    EraseContents(ids, id);
    if ids[0] != id {
      assert ids == [ids[0]] + ids[1..];
      assert NoDup(ids[1..]);
      HoldersErase(ids[1..], id, hosts, k);
      assert Erase(ids, id)[1..] == Erase(ids[1..], id);
    }
  }

  lemma {:induction false} HolderCounts(ids: seq<int>, id: int, hosts: seq<Host>, k: SkirmishKey)
    requires InRange(ids, |hosts|)
    requires id in ids && Holds(hosts[id], k)
    ensures Holders(ids, hosts, k) > 0
  {
    if ids[0] != id {
      assert ids == [ids[0]] + ids[1..];
      HolderCounts(ids[1..], id, hosts, k);
    }
  }

  // ----- the steps -----

  /** What the source demands of its callers. */
  ghost predicate Enabled(cfg: Config, s: State, step: Step) {
    match step
    case Create(id, team, key, _) =>
      0 <= id < |s.hosts| && id !in s.active && 0 <= team < |s.teams| && cfg.IsResolved(key)
    case Deliver(id, _) => id in s.active
    case SetFlag(id, reason) => 0 <= id < |s.hosts| && reason != NOT_KILLED
    case Remove(id) => 0 <= id < |s.hosts|
    case PostLoad(id, _, _, _, _) => id in s.active && 0 <= id < |s.hosts| && !s.hosts[id].Killed()
    case Destroy(id, _, _, _) => id in s.active
  }

  ghost function Apply(cfg: Config, idle: set<InterfaceKey>, s: State, step: Step): (s': State)
    requires Invariant(cfg, idle, s) && (Enabled(cfg, s, step))
    ensures Invariant(cfg, idle, s') && |s'.hosts| == |s.hosts| && |s'.teams| == |s.teams|
  {
    match step
    case Create(id, team, key, a) =>
      CreateKeeps(cfg, idle, s, id, team, key, a);
      CreateAI(cfg, s, id, team, key, a)
    case Deliver(id, r) =>
      EventKeepsSettled(s.hosts[id], r);
      var h' := HandleEvent(s.hosts[id], Other, r).0;
      HostUpdateKeeps(cfg, idle, s, id, h');
      s.(hosts := s.hosts[id := h'])
    case SetFlag(id, reason) =>
      var h' := SetKillFlag(s.hosts[id], reason);
      SetKillFlagKeepsSettled(s.hosts[id], reason);
      HostUpdateKeeps(cfg, idle, s, id, h');
      s.(hosts := s.hosts[id := h'])
    case Remove(id) =>
      var h' := s.hosts[id].(killFlag := NOT_KILLED).Logged(FlagCleared);
      ClearFlagKeepsSettled(s.hosts[id]);
      HostUpdateKeeps(cfg, idle, s, id, h');
      s.(hosts := s.hosts[id := h'])
    case PostLoad(id, supported, f, r, events) =>
      PostLoadKeeps(cfg, idle, s, id, f, r);
      var s1 := s.(slots := Libraries.Release(cfg, Fetch(cfg, s.slots, s.hosts[id].key, f).0, s.hosts[id].key, r));
      if supported then s1
      else
        EventsKeepSettled(s.hosts[id], events);
        var h' := HandleEvents(s.hosts[id], events);
        HostUpdateKeeps(cfg, idle, s1, id, h');
        s1.(hosts := s.hosts[id := h'])
    case Destroy(id, e, l, starts) =>
      DestroyKeeps(cfg, idle, s, id, e, l, starts);
      DestroyAI(cfg, s, id, e, l, starts)
  }

  /** CreateSkirmishAI for an AI that is not a Lua AI. */
  function CreateAI(cfg: Config, s: State, id: int, team: int, key: SkirmishKey, a: Answers): State
    requires 0 <= id < |s.hosts| && 0 <= team < |s.teams|
  {
    var (slots', fetched) := Fetch(cfg, s.slots, key, a.interfaceStarts);
    State(s.hosts[id := Created(s.hosts[id], id, team, key, fetched, a)],
      s.teams[team := s.teams[team] + [id]], s.active + [id], slots')
  }

  /** DestroySkirmishAI of an active AI. */
  function DestroyAI(cfg: Config, s: State, id: int, e: Response, l: Response, starts: bool): State
    requires 0 <= id < |s.hosts| && 0 <= s.hosts[id].teamId < |s.teams| &&
             (s.hosts[id].initialized ==> s.hosts[id].library)
  {
    var h := s.hosts[id];
    State(s.hosts[id := Stop(h, e, l)], s.teams[h.teamId := Erase(s.teams[h.teamId], id)], Erase(s.active, id),
          Libraries.Release(cfg, s.slots, h.key, starts))
  }

  lemma HostUpdateKeeps(cfg: Config, idle: set<InterfaceKey>, s: State, id: int, h': Host)
    requires Invariant(cfg, idle, s) && 0 <= id < |s.hosts| && Settled(h') && SameInstance(s.hosts[id], h')
    ensures Invariant(cfg, idle, s.(hosts := s.hosts[id := h']))
  {
    hide Settled, CountOf, FetchFails, SlotsSound;
    var s' := s.(hosts := s.hosts[id := h']);
    assert ListsAgree(s') by {
      forall t, x | 0 <= t < |s'.teams|
        ensures x in s'.teams[t] <==> x in s'.active && s'.hosts[x].teamId == t
      {
        assert x in s.teams[t] <==> x in s.active && s.hosts[x].teamId == t;
      }
    }
    forall k | k in cfg.ais
      ensures CountOf(s'.slots, k) == Holders(s'.active, s'.hosts, k)
    {
      HoldersFrame(s.active, s.hosts, s'.hosts, k);
    }
  }

  lemma CreateKeeps(cfg: Config, idle: set<InterfaceKey>, s: State, id: int, team: int, key: SkirmishKey, a: Answers)
    requires Invariant(cfg, idle, s) && Enabled(cfg, s, Create(id, team, key, a))
    ensures Invariant(cfg, idle, CreateAI(cfg, s, id, team, key, a))
  {
    hide Settled, CountOf, Created, Fetch;
    var (slots', fetched) := Fetch(cfg, s.slots, key, a.interfaceStarts);
    var s' := CreateAI(cfg, s, id, team, key, a);
    CreatedIsSettled(s.hosts[id], id, team, key, fetched, a);
    FetchKeepsSound(cfg, s.slots, key, a.interfaceStarts, idle);
    CreateKeepsLists(s, id, team, s'.hosts[id], slots');
    FetchIsOfKnown(cfg, s.slots, key, a.interfaceStarts);
    forall k | k in cfg.ais
      ensures CountOf(slots', k) == Holders(s'.active, s'.hosts, k)
    {
      FetchCounts(cfg, s.slots, key, a.interfaceStarts, k);
      HoldersSnoc(s.active, id, s'.hosts, k);
      HoldersFrame(s.active, s.hosts, s'.hosts, k);
    }
    CreateKeepsFailures(cfg, s, id, key, a.interfaceStarts, s'.hosts[id]);
  }

  /** Whoever has no library after a creation can have none. */
  lemma CreateKeepsFailures(cfg: Config, s: State, id: int, key: SkirmishKey, starts: bool, h': Host)
    requires cfg.Valid() && s.slots.Keys <= cfg.interfaces && ListsAgree(s) && CountsAgree(cfg, s)
    requires 0 <= id < |s.hosts| && id !in s.active && cfg.IsResolved(key)
    requires var (slots', fetched) := Fetch(cfg, s.slots, key, starts); h'.library == fetched && h'.key == key
    ensures var slots' := Fetch(cfg, s.slots, key, starts).0;
            forall x :: x in s.active + [id] ==>
              var h := s.hosts[id := h'][x]; if h.library then h.key in cfg.ais else FetchFails(cfg, slots', h.key)
  {
    hide CountOf, Fetch;
    var (slots', fetched) := Fetch(cfg, s.slots, key, starts);
    FetchIsOfKnown(cfg, s.slots, key, starts);
    if !fetched {
      FailedFetchIsBalanced(cfg, s.slots, key, starts, false);
    }
    forall x | x in s.active && !s.hosts[x].library
      ensures FetchFails(cfg, slots', s.hosts[x].key)
    {
      FetchFailsStays(cfg, s.slots, key, starts, s.hosts[x].key);
    }
  }

  lemma FetchIsOfKnown(cfg: Config, slots: Slots, k: SkirmishKey, initialises: bool)
    requires cfg.Valid() && cfg.IsResolved(k)
    ensures Fetch(cfg, slots, k, initialises).1 ==> k in cfg.ais
  {
  }

  lemma FetchFailsStays(cfg: Config, slots: Slots, k: SkirmishKey, initialises: bool, k': SkirmishKey)
    requires FetchFails(cfg, slots, k')
    ensures FetchFails(cfg, Fetch(cfg, slots, k, initialises).0, k')
    ensures FetchFails(cfg, Libraries.Release(cfg, slots, k, initialises), k')
  {
    if k' != NO_AI {
      FailedStays(cfg, slots, k, initialises, k'.interface);
    }
  }

  lemma ReleaseOfFailed(cfg: Config, slots: Slots, k: SkirmishKey, initialises: bool)
    requires cfg.Valid() && slots.Keys <= cfg.interfaces && FetchFails(cfg, slots, k)
    ensures Libraries.Release(cfg, slots, k, initialises) == slots
  {
  }

  lemma CreateKeepsLists(s: State, id: int, team: int, h': Host, slots': Slots)
    requires ListsAgree(s) && 0 <= id < |s.hosts| && id !in s.active && 0 <= team < |s.teams| && h'.teamId == team
    ensures ListsAgree(State(s.hosts[id := h'], s.teams[team := s.teams[team] + [id]], s.active + [id], slots'))
  {
    var s' := State(s.hosts[id := h'], s.teams[team := s.teams[team] + [id]], s.active + [id], slots');
    assert id !in s.teams[team];
    forall t, x | 0 <= t < |s'.teams|
      ensures x in s'.teams[t] <==> x in s'.active && s'.hosts[x].teamId == t
    {
      assert x in s.teams[t] <==> x in s.active && s.hosts[x].teamId == t;
    }
  }

  lemma PostLoadKeeps(cfg: Config, idle: set<InterfaceKey>, s: State, id: int, f: bool, r: bool)
    requires Invariant(cfg, idle, s) && id in s.active
    ensures var k := s.hosts[id].key;
            Invariant(cfg, idle, s.(slots := Libraries.Release(cfg, Fetch(cfg, s.slots, k, f).0, k, r)))
  {
    hide Settled, CountOf, Fetch, Libraries.Release;
    var k := s.hosts[id].key;
    var mid := Fetch(cfg, s.slots, k, f).0;
    FetchKeepsSound(cfg, s.slots, k, f, idle);
    ReleaseKeepsSound(cfg, mid, k, r, idle);
    var s' := s.(slots := Libraries.Release(cfg, mid, k, r));
    assert ListsAgree(s');
    forall k' | k' in cfg.ais
      ensures CountOf(s'.slots, k') == Holders(s'.active, s'.hosts, k')
    {
      FetchReleaseIsNeutral(cfg, s.slots, k, f, r, k');
    }
    forall x | x in s.active && !s.hosts[x].library
      ensures FetchFails(cfg, s'.slots, s.hosts[x].key)
    {
      FetchFailsStays(cfg, s.slots, k, f, s.hosts[x].key);
      FetchFailsStays(cfg, mid, k, r, s.hosts[x].key);
    }
  }

  /** An active AI has a library while it is not blocked. */
  lemma ActiveHost(cfg: Config, idle: set<InterfaceKey>, s: State, id: int)
    requires Invariant(cfg, idle, s) && id in s.active
    ensures 0 <= id < |s.hosts| && cfg.IsResolved(s.hosts[id].key)
    ensures !s.hosts[id].blockEvents ==> s.hosts[id].library
  {
    assert HostsAgree(cfg, s) && ListsAgree(s);
    SettledHasLibrary(s.hosts[id]);
  }

  /** The library of an active AI is counted already, or cannot be had: fetching and releasing it changes no slot. */
  lemma PostLoadKeepsSlots(cfg: Config, idle: set<InterfaceKey>, s: State, id: int, f: bool, r: bool)
    requires Invariant(cfg, idle, s) && id in s.active
    ensures 0 <= id < |s.hosts|
    ensures var k := s.hosts[id].key;
            Libraries.Release(cfg, Fetch(cfg, s.slots, k, f).0, k, r) == s.slots
  {
    ActiveHost(cfg, idle, s, id);
    var k := s.hosts[id].key;
    if s.hosts[id].library {
      HolderCounts(s.active, id, s.hosts, k);
      hide Invariant;
      CountedStays(cfg, s.slots, k, f, r);
    } else {
      ReleaseOfFailed(cfg, s.slots, k, r);
      assert Fetch(cfg, s.slots, k, f).0 == s.slots;
    }
  }

  lemma CountedStays(cfg: Config, slots: Slots, k: SkirmishKey, f: bool, r: bool)
    requires cfg.Valid() && k in cfg.ais && CountOf(slots, k) > 0
    ensures Libraries.Release(cfg, Fetch(cfg, slots, k, f).0, k, r) == slots
  {
    var counts, n := slots[k.interface].counts, CountOf(slots, k);
    var once := counts[IdOf(k) := n + 1];
    assert once[IdOf(k) := n] == counts;
    assert Fetch(cfg, slots, k, f).0 == slots[k.interface := Loaded(once)];
    assert !AllZero(counts);
    assert slots[k.interface := Loaded(once)][k.interface := Loaded(counts)] == slots;
  }

  lemma DestroyKeeps(cfg: Config, idle: set<InterfaceKey>, s: State, id: int, e: Response, l: Response, starts: bool)
    requires Invariant(cfg, idle, s) && id in s.active
    ensures s.hosts[id].initialized ==> s.hosts[id].library
    ensures Invariant(cfg, idle, DestroyAI(cfg, s, id, e, l, starts))
  {
    SettledHasLibrary(s.hosts[id]);
    hide Settled, Stop, Libraries.Release, CountsAgree;
    var h := s.hosts[id];
    StopSettles(h, e, l);
    ReleaseKeepsSound(cfg, s.slots, h.key, starts, idle);
    DestroyKeepsLists(s, id, Stop(h, e, l), Libraries.Release(cfg, s.slots, h.key, starts));
    DestroyKeepsCounts(cfg, s, id, Stop(h, e, l), starts);
    EraseContents(s.active, id);
  }

  lemma DestroyKeepsCounts(cfg: Config, s: State, id: int, h': Host, starts: bool)
    requires cfg.Valid() && s.slots.Keys <= cfg.interfaces && ListsAgree(s) && CountsAgree(cfg, s)
    requires id in s.active && cfg.IsResolved(s.hosts[id].key)
    ensures var h := s.hosts[id];
            var s' := State(s.hosts[id := h'], s.teams[h.teamId := Erase(s.teams[h.teamId], id)], Erase(s.active, id),
                            Libraries.Release(cfg, s.slots, h.key, starts));
            ListsAgree(s') && CountsAgree(cfg, s')
  {
    hide CountOf, Libraries.Release;
    var h := s.hosts[id];
    var slots' := Libraries.Release(cfg, s.slots, h.key, starts);
    DestroyKeepsLists(s, id, h', slots');
    EraseContents(s.active, id);
    hide NoDup;
    forall k | k in cfg.ais
      ensures CountOf(slots', k) == Holders(Erase(s.active, id), s.hosts[id := h'], k)
    {
      ReleasedCount(cfg, s, id, starts, k);
      assert forall i :: 0 <= i < |Erase(s.active, id)| ==> Erase(s.active, id)[i] in Erase(s.active, id);
      HoldersFrame(Erase(s.active, id), s.hosts, s.hosts[id := h'], k);
    }
    forall x | x in s.active && !s.hosts[x].library
      ensures FetchFails(cfg, slots', s.hosts[x].key)
    {
      FetchFailsStays(cfg, s.slots, h.key, starts, s.hosts[x].key);
    }
  }

  /** The release takes away exactly the destroyed AI's share of the counts, none if it never got a library. */
  lemma ReleasedCount(cfg: Config, s: State, id: int, starts: bool, k: SkirmishKey)
    requires cfg.Valid() && s.slots.Keys <= cfg.interfaces && ListsAgree(s) && CountsAgree(cfg, s)
    requires id in s.active && cfg.IsResolved(s.hosts[id].key) && k in cfg.ais
    ensures InRange(Erase(s.active, id), |s.hosts|)
    ensures CountOf(Libraries.Release(cfg, s.slots, s.hosts[id].key, starts), k) ==
            Holders(Erase(s.active, id), s.hosts, k)
  {
    hide CountOf, Libraries.Release;
    var h := s.hosts[id];
    HoldersErase(s.active, id, s.hosts, k);
    ReleaseCounts(cfg, s.slots, h.key, starts, k);
    if h.library {
      HolderCounts(s.active, id, s.hosts, h.key);
    } else {
      ReleaseOfFailed(cfg, s.slots, h.key, starts);
    }
  }

  lemma DestroyKeepsLists(s: State, id: int, h': Host, slots': Slots)
    requires ListsAgree(s) && id in s.active
    ensures var t := s.hosts[id].teamId;
            ListsAgree(State(s.hosts[id := h'], s.teams[t := Erase(s.teams[t], id)], Erase(s.active, id), slots'))
  {
    var t := s.hosts[id].teamId;
    EraseContents(s.active, id);
    EraseContents(s.teams[t], id);
    var s' := State(s.hosts[id := h'], s.teams[t := Erase(s.teams[t], id)], Erase(s.active, id), slots');
    assert InRange(s'.active, |s'.hosts|) by {
      forall i | 0 <= i < |s'.active| ensures 0 <= s'.active[i] < |s'.hosts| {
        assert s'.active[i] in s'.active;
      }
    }
    forall u, x | 0 <= u < |s'.teams|
      ensures x in s'.teams[u] <==> x in s'.active && s'.hosts[x].teamId == u
    {
      assert x in s.teams[u] <==> x in s.active && s.hosts[x].teamId == u;
    }
  }

  // ----- runs -----

  ghost predicate CanRun(cfg: Config, idle: set<InterfaceKey>, s: State, steps: seq<Step>)
    requires Invariant(cfg, idle, s)
    decreases |steps|
  {
    steps == [] || (Enabled(cfg, s, steps[0]) && CanRun(cfg, idle, Apply(cfg, idle, s, steps[0]), steps[1..]))
  }

  ghost function Run(cfg: Config, idle: set<InterfaceKey>, s: State, steps: seq<Step>): (s': State)
    requires Invariant(cfg, idle, s) && CanRun(cfg, idle, s, steps)
    ensures Invariant(cfg, idle, s')
    decreases |steps|
  {
    if steps == [] then s else Run(cfg, idle, Apply(cfg, idle, s, steps[0]), steps[1..])
  }

  /** Where every run starts: no AI yet, and at most some interfaces that were loaded to look up their AIs. */
  ghost predicate IsInitial(cfg: Config, idle: set<InterfaceKey>, s: State) {
    && cfg.Valid()
    && SlotsSound(cfg, idle, s.slots)
    && (forall id :: 0 <= id < |s.hosts| ==> s.hosts[id] == NEW_HOST)
    && (forall t :: 0 <= t < |s.teams| ==> s.teams[t] == [])
    && s.active == []
    && (forall i :: i in s.slots && s.slots[i].Loaded? ==> AllZero(s.slots[i].counts))
  }

  lemma InitialInvariant(cfg: Config, idle: set<InterfaceKey>, s: State)
    requires IsInitial(cfg, idle, s)
    ensures Invariant(cfg, idle, s)
  {
    assert Replay(NEW_HOST.log) == START;
    assert Settled(NEW_HOST);
  }

  /** In every run, the calls into the library of every AI obey the protocol. */
  lemma EveryLogConforms(cfg: Config, idle: set<InterfaceKey>, s: State, steps: seq<Step>, id: int)
    requires IsInitial(cfg, idle, s) && Invariant(cfg, idle, s) && CanRun(cfg, idle, s, steps)
    requires 0 <= id < |Run(cfg, idle, s, steps).hosts|
    ensures Conforms(Run(cfg, idle, s, steps).hosts[id].log)
  {
    var h := Run(cfg, idle, s, steps).hosts[id];
    assert Settled(h);
    BadIsFinal(h.log);
  }

  /** In every reachable state, the library of every active AI that has one is still loaded. */
  lemma NoDanglingLibrary(cfg: Config, idle: set<InterfaceKey>, s: State, id: int)
    requires Invariant(cfg, idle, s) && id in s.active && s.hosts[id].library
    ensures IsLoaded(s.slots, s.hosts[id].key.interface)
    ensures CountOf(s.slots, s.hosts[id].key) > 0
  {
    HolderCounts(s.active, id, s.hosts, s.hosts[id].key);
  }

  /** The answers of the foreign code to the destruction of one AI. */
  datatype Farewell = Farewell(releaseEvent: Response, libraryRelease: Response, interfaceStarts: bool)

  /** The loop of the engine's Kill: destroys the last active AI until there is none. */
  ghost function KillAll(cfg: Config, idle: set<InterfaceKey>, s: State, farewell: int -> Farewell): (s': State)
    requires Invariant(cfg, idle, s)
    ensures Invariant(cfg, idle, s') && s'.active == []
    decreases |s.active|
  {
    if s.active == [] then s
    else
      var id := s.active[|s.active| - 1];
      var f := farewell(id);
      var step := Destroy(id, f.releaseEvent, f.libraryRelease, f.interfaceStarts);
      EraseContents(s.active, id);
      KillAll(cfg, idle, Apply(cfg, idle, s, step), farewell)
  }

  /** The destructions of the active AIs, the last one first. */
  function Departures(active: seq<int>, farewell: int -> Farewell): (steps: seq<Step>)
    ensures |steps| == |active|
  {
    seq(|active|, i requires 0 <= i < |active| =>
      var id := active[|active| - 1 - i];
      var f := farewell(id);
      Destroy(id, f.releaseEvent, f.libraryRelease, f.interfaceStarts))
  }

  lemma {:induction false} EraseLast(xs: seq<int>)
    requires xs != [] && NoDup(xs)
    ensures Erase(xs, xs[|xs| - 1]) == xs[..|xs| - 1]
  {
    if |xs| > 1 {
      assert NoDup(xs[1..]);
      EraseLast(xs[1..]);
      assert xs[..|xs| - 1] == [xs[0]] + xs[1..][..|xs| - 2];
    }
  }

  lemma LastDeparts(cfg: Config, idle: set<InterfaceKey>, s: State, f: Farewell)
    requires Invariant(cfg, idle, s) && s.active != []
    ensures var id := s.active[|s.active| - 1];
            var step := Destroy(id, f.releaseEvent, f.libraryRelease, f.interfaceStarts);
            Apply(cfg, idle, s, step).active == s.active[..|s.active| - 1]
  {
    EraseLast(s.active);
    hide ListsAgree, HostsAgree, CountsAgree, SlotsSound, Stop, Libraries.Release, Erase;
  }

  lemma DeparturesRest(active: seq<int>, farewell: int -> Farewell)
    requires active != []
    ensures Departures(active, farewell)[1..] == Departures(active[..|active| - 1], farewell)
  {
  }

  /** What Kill does is a run: it destroys the active AIs one by one, the last one first. */
  lemma {:induction false} KillAllIsRun(cfg: Config, idle: set<InterfaceKey>, s: State, farewell: int -> Farewell)
    requires Invariant(cfg, idle, s)
    ensures CanRun(cfg, idle, s, Departures(s.active, farewell))
    ensures Run(cfg, idle, s, Departures(s.active, farewell)) == KillAll(cfg, idle, s, farewell)
    decreases |s.active|
  {
    if s.active != [] {
      hide ListsAgree, HostsAgree, CountsAgree, SlotsSound, Config.Valid, Apply;
      var steps := Departures(s.active, farewell);
      var s' := Apply(cfg, idle, s, steps[0]);
      LastDeparts(cfg, idle, s, farewell(s.active[|s.active| - 1]));
      DeparturesRest(s.active, farewell);
      hide Invariant, Departures;
      KillAllIsRun(cfg, idle, s', farewell);
    }
  }

  /**
   * With no AI active, every team list is empty, no wrapper holds a library, every load count is zero,
   * and the only interfaces still loaded are those that were loaded for looking up their AIs.
   */
  lemma NothingLeft(cfg: Config, idle: set<InterfaceKey>, s: State)
    requires Invariant(cfg, idle, s) && s.active == []
    ensures forall t :: 0 <= t < |s.teams| ==> s.teams[t] == []
    ensures forall id :: 0 <= id < |s.hosts| ==> !s.hosts[id].library && s.hosts[id].aiId == -1
    ensures forall k :: k in cfg.ais ==> CountOf(s.slots, k) == 0
    ensures forall i :: IsLoaded(s.slots, i) ==> i in idle
  {
    forall t | 0 <= t < |s.teams|
      ensures s.teams[t] == []
    {
      if s.teams[t] != [] {
        MembersAreActive(s, t);
      }
    }
    forall i | IsLoaded(s.slots, i)
      ensures i in idle
    {
      if i !in idle {
        var k := CountedAI(cfg, idle, s.slots, i);
      }
    }
  }

  lemma MemberIsActive(s: State, t: int, x: int)
    requires ListsAgree(s) && 0 <= t < |s.teams| && x in s.teams[t]
    ensures x in s.active && 0 <= x < |s.hosts|
  {
    assert x in s.teams[t] <==> x in s.active && s.hosts[x].teamId == t;
  }

  lemma MembersAreActive(s: State, t: int)
    requires ListsAgree(s) && 0 <= t < |s.teams| && s.teams[t] != []
    ensures s.active != []
  {
    MemberIsActive(s, t, s.teams[t][0]);
  }

  /** An interface that was not merely looked up has an AI loaded. */
  lemma CountedAI(cfg: Config, idle: set<InterfaceKey>, slots: Slots, i: InterfaceKey) returns (k: SkirmishKey)
    requires SlotsSound(cfg, idle, slots) && IsLoaded(slots, i) && i !in idle
    ensures k in cfg.ais && k.interface == i && CountOf(slots, k) > 0
  {
    var id :| id in slots[i].counts && slots[i].counts[id] != 0;
    assert HasAI(cfg, i, id);
    k :| k in cfg.ais && k.interface == i && IdOf(k) == id;
  }
}
