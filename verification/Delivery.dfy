/**
 * Which calls really reach the library of an AI, and in which order: nothing that should be delivered
 * is lost, and nothing else is delivered.
 */
module Delivery {
  import opened LibraryKeys
  import opened Libraries
  import opened Lifecycle
  import Engine

  /** The calls into the library, as opposed to the marks that the log keeps between them. */
  predicate IsCall(c: Call) {
    c.LibraryInit? || c.Event? || c.LibraryRelease?
  }

  function CallsIn(log: seq<Call>): seq<Call> {
    if log == [] then []
    else CallsIn(log[..|log| - 1]) + if IsCall(log[|log| - 1]) then [log[|log| - 1]] else []
  }

  lemma CallsLogged(h: Host, c: Call)
    ensures CallsIn(h.Logged(c).log) == CallsIn(h.log) + if IsCall(c) then [c] else []
  {
    assert (h.log + [c])[..|h.log|] == h.log;
  }

  lemma FlagIsNoCall(h: Host, reason: int)
    ensures CallsIn(SetKillFlag(h, reason).log) == CallsIn(h.log)
  {
    CallsLogged(h.(killFlag := reason, blockEvents := true), FlagSet);
  }

  lemma CrashIsNoCall(h: Host, r: Response)
    ensures CallsIn(Crashing(h, r).log) == CallsIn(h.log)
  {
    FlagIsNoCall(h, KILL_CRASHED);
  }

  /** An event reaches the library exactly if events are not blocked, or it is the release event. */
  lemma EventReaches(h: Host, topic: Topic, r: Response)
    requires Passes(h, topic) ==> h.library
    ensures var (h', ret) := HandleEvent(h, topic, r);
            && (!h.blockEvents || topic == Release ==>
                  CallsIn(h'.log) == CallsIn(h.log) + [Event(topic, r.result)] && ret == r.result)
            && (h.blockEvents && topic != Release ==> h' == h && ret == 0)
  {
    CallsLogged(h, Event(topic, r.result));
    CrashIsNoCall(h.Logged(Event(topic, r.result)), r);
  }

  // ----- series of events -----

  /** How many of a series of events are heard: all of them, or those up to the first crash. */
  function Heard(rs: seq<Response>): (n: nat)
    ensures n <= |rs| && forall i :: 0 <= i < n - 1 ==> !rs[i].crashes
    ensures n < |rs| ==> n > 0 && rs[n - 1].crashes
  {
    if rs == [] then 0 else if rs[0].crashes then 1 else 1 + Heard(rs[1..])
  }

  /** The events of a series that are heard, with their results, in order. */
  function Events(rs: seq<Response>): (calls: seq<Call>)
    ensures |calls| == Heard(rs) && forall i :: 0 <= i < |calls| ==> calls[i] == Event(Other, rs[i].result)
  {
    seq(Heard(rs), i requires 0 <= i < Heard(rs) => Event(Other, rs[i].result))
  }

  /** Unless events are blocked, an AI hears a series of events up to its first crash, each once and in order. */
  lemma {:induction false} EventsReach(h: Host, rs: seq<Response>)
    requires !h.blockEvents ==> h.library
    ensures CallsIn(HandleEvents(h, rs).log) == CallsIn(h.log) + if h.blockEvents then [] else Events(rs)
    decreases |rs|
  {
    hide CallsIn;
    if rs != [] {
      var h' := HandleEvent(h, Other, rs[0]).0;
      EventReaches(h, Other, rs[0]);
      BlockedAfter(h, rs[0]);
      EventsReach(h', rs[1..]);
      if !h.blockEvents {
        assert Events(rs) == [Event(Other, rs[0].result)] + if rs[0].crashes then [] else Events(rs[1..]);
      }
    }
  }

  lemma BlockedAfter(h: Host, r: Response)
    requires !h.blockEvents ==> h.library
    ensures var h' := HandleEvent(h, Other, r).0;
            h'.library == h.library && (h'.blockEvents <==> h.blockEvents || r.crashes)
  {
  }

  // ----- one life -----

  /** The calls while an AI is created: library init, then the init event, then the events that follow at once. */
  function CallsAtCreation(killed: bool, fetched: bool, a: Answers): seq<Call> {
    if !fetched then []
    else if killed || Asks(a.libraryInit) > 0 then [LibraryInit(a.libraryInit.result == 0)]
    else if Asks(a.initEvent) > 0 then [LibraryInit(true), Event(Init, a.initEvent.result)]
    else [LibraryInit(true), Event(Init, 0)] + Events(a.events)
  }

  /** The kill flag after creation: the last reason that was given, crashes being 4 and failures 5. */
  lemma ReasonAtCreation(h: Host, id: int, team: int, key: SkirmishKey, fetched: bool, a: Answers)
    ensures Created(h, id, team, key, fetched, a).killFlag ==
            if !fetched || a.libraryInit.result != 0 then 5
            else if a.libraryInit.crashes then 4
            else if h.Killed() then h.killFlag
            else if a.initEvent.result != 0 then 5
            else if a.initEvent.crashes || AnyCrash(a.events) then 4
            else h.killFlag
  {
    hide HandleEvents, AnyCrash;
    var (h1, ok) := InitLibrary(PreInit(h, id, team, key), fetched, a.libraryInit);
    if ok {
      var h2 := SendInitEvent(h1, a.initEvent);
      if !h2.Killed() {
        ReasonAfterEvents(h2, a.events);
      }
    }
  }

  lemma {:induction false} ReasonAfterEvents(h: Host, rs: seq<Response>)
    requires !h.blockEvents ==> h.library
    ensures HandleEvents(h, rs).killFlag == if !h.blockEvents && AnyCrash(rs) then 4 else h.killFlag
    decreases |rs|
  {
    if rs != [] {
      ReasonAfterEvents(HandleEvent(h, Other, rs[0]).0, rs[1..]);
      if !rs[0].crashes {
        AnyCrashLater(rs);
      }
    }
  }

  /** Each call is made if and only if the library is there and no call before it failed or crashed. */
  lemma CreationReaches(h: Host, id: int, team: int, key: SkirmishKey, fetched: bool, a: Answers)
    ensures CallsIn(Created(h, id, team, key, fetched, a).log) ==
            CallsIn(h.log) + CallsAtCreation(h.Killed(), fetched, a)
  {
    hide CallsIn, HandleEvents, Events;
    var h0 := PreInit(h, id, team, key);
    CallsLogged(h.(key := key, aiId := id, teamId := team, initialized := false, released := false,
                   libraryInit := false, blockEvents := false, library := false), Begin);
    var (h1, ok) := InitLibrary(h0, fetched, a.libraryInit);
    InitLibraryReaches(h0, fetched, a.libraryInit);
    if ok {
      var h2 := SendInitEvent(h1, a.initEvent);
      InitEventReaches(h1, a.initEvent);
      if !h2.Killed() {
        EventsReach(h2, a.events);
      }
    }
  }

  lemma InitLibraryReaches(h: Host, fetched: bool, r: Response)
    requires !h.blockEvents
    ensures var (h', ok) := InitLibrary(h, fetched, r);
            && CallsIn(h'.log) == CallsIn(h.log) + (if fetched then [LibraryInit(r.result == 0)] else [])
            && (ok <==> fetched && !h.Killed() && Asks(r) == 0)
            && (ok ==> h'.library && !h'.blockEvents && !h'.Killed())
  {
    hide CallsIn;
    if !fetched {
      FlagIsNoCall(h.(library := false), KILL_INIT_FAILED);
    } else {
      CallsLogged(h.(library := true), LibraryInit(r.result == 0));
      var g := h.(library := true).Logged(LibraryInit(r.result == 0));
      CrashIsNoCall(g, r);
      FlagIsNoCall(Crashing(g, r).(libraryInit := r.result == 0), KILL_INIT_FAILED);
    }
  }

  lemma InitEventReaches(h: Host, r: Response)
    requires h.library && !h.blockEvents && !h.Killed()
    ensures var h' := SendInitEvent(h, r);
            && CallsIn(h'.log) == CallsIn(h.log) + [Event(Init, r.result)]
            && (Asks(r) == 0 <==> !h'.Killed())
            && (Asks(r) == 0 ==> h'.library && !h'.blockEvents)
  {
    hide CallsIn;
    EventReaches(h, Init, r);
    FlagIsNoCall(HandleEvent(h, Init, r).0, KILL_INIT_FAILED);
  }

  /** The release event for an AI that handled its init event, and the release of a library that was initialised. */
  lemma StopReaches(h: Host, e: Response, l: Response)
    requires h.initialized && !h.released ==> h.library
    ensures CallsIn(Stop(h, e, l).log) == CallsIn(h.log)
            + (if h.initialized && !h.released then [Event(Release, e.result)] else [])
            + (if h.libraryInit then [LibraryRelease] else [])
  {
    hide CallsIn;
    var h1 := ReleaseEvent(h, e);
    if h.initialized && !h.released {
      EventReaches(h, Release, e);
    }
    if h1.libraryInit {
      CallsLogged(h1, LibraryRelease);
      CrashIsNoCall(h1.Logged(LibraryRelease), l);
    }
    CallsLogged(ReleaseLibrary(h1, l).(library := false, aiId := -1, teamId := -1), End);
  }

  /**
   * All calls of one life: those of its creation; any later events up to the first crash, if it was
   * created without a request for its destruction; and its two releases.
   */
  lemma LifetimeReaches(h: Host, id: int, team: int, key: SkirmishKey, fetched: bool, a: Answers,
      later: seq<Response>, e: Response, l: Response)
    ensures var killed := h.Killed();
            var hears := !killed && RequestsAtCreation(killed, fetched, a) == 0;
            CallsIn(Lifetime(h, id, team, key, fetched, a, later, e, l).log) == CallsIn(h.log)
            + CallsAtCreation(killed, fetched, a)
            + (if hears then Events(later) else [])
            + (if InitHandled(killed, fetched, a) then [Event(Release, e.result)] else [])
            + (if LibraryStarted(fetched, a) then [LibraryRelease] else [])
  {
    hide Created, HandleEvents, Stop, CallsIn, CallsAtCreation, Events, Asks;
    var h1 := Created(h, id, team, key, fetched, a);
    CreatedFields(h, id, team, key, fetched, a);
    CreationReaches(h, id, team, key, fetched, a);
    EventsKeepFields(h1, later);
    EventsReach(h1, later);
    StopReaches(HandleEvents(h1, later), e, l);
  }

  // ----- the steps of the engine -----

  /** One event for an active AI reaches that AI unless it is blocked, and no other. */
  lemma DeliverReaches(cfg: Config, idle: set<InterfaceKey>, s: Engine.State, id: int, r: Response)
    requires Engine.Invariant(cfg, idle, s) && id in s.active
    ensures 0 <= id < |s.hosts|
    ensures var s' := Engine.Apply(cfg, idle, s, Engine.Deliver(id, r));
            && s' == s.(hosts := s.hosts[id := s'.hosts[id]])
            && CallsIn(s'.hosts[id].log) ==
               CallsIn(s.hosts[id].log) + if s.hosts[id].blockEvents then [] else [Event(Other, r.result)]
  {
    Engine.ActiveHost(cfg, idle, s, id);
    hide Engine.Invariant, CallsIn;
    EventReaches(s.hosts[id], Other, r);
  }

  /** A kill flag blocks the AI and keeps the reason; only the removal of the AI resets it, and unblocks nothing. */
  lemma FlagSteps(cfg: Config, idle: set<InterfaceKey>, s: Engine.State, id: int, reason: int)
    requires Engine.Invariant(cfg, idle, s) && 0 <= id < |s.hosts| && reason != NOT_KILLED
    ensures var h, s' := s.hosts[id], Engine.Apply(cfg, idle, s, Engine.SetFlag(id, reason));
            && s' == s.(hosts := s.hosts[id := h.(killFlag := reason, blockEvents := true, log := h.log + [FlagSet])])
    ensures var h, s' := s.hosts[id], Engine.Apply(cfg, idle, s, Engine.Remove(id));
            && s' == s.(hosts := s.hosts[id := h.(killFlag := -1, log := h.log + [FlagCleared])])
  {
    hide Engine.Invariant;
  }

  /** An AI that does not support loading gets the events instead, and one that does gets none. */
  lemma PostLoadReaches(cfg: Config, idle: set<InterfaceKey>, s: Engine.State, id: int, supported: bool,
      f: bool, r: bool, events: seq<Response>)
    requires Engine.Invariant(cfg, idle, s)
    requires Engine.Enabled(cfg, s, Engine.PostLoad(id, supported, f, r, events))
    ensures var s' := Engine.Apply(cfg, idle, s, Engine.PostLoad(id, supported, f, r, events));
            && s' == s.(hosts := s.hosts[id := s'.hosts[id]])
            && CallsIn(s'.hosts[id].log) ==
               CallsIn(s.hosts[id].log) + if supported || s.hosts[id].blockEvents then [] else Events(events)
  {
    Engine.ActiveHost(cfg, idle, s, id);
    hide Engine.Invariant, Engine.Apply, CallsIn, Events;
    PostLoadState(cfg, idle, s, id, supported, f, r, events);
    EventsReach(s.hosts[id], events);
    assert s.hosts[id := s.hosts[id]] == s.hosts;
  }

  lemma PostLoadState(cfg: Config, idle: set<InterfaceKey>, s: Engine.State, id: int, supported: bool,
      f: bool, r: bool, events: seq<Response>)
    requires Engine.Invariant(cfg, idle, s)
    requires Engine.Enabled(cfg, s, Engine.PostLoad(id, supported, f, r, events))
    ensures !s.hosts[id].blockEvents ==> s.hosts[id].library
    ensures Engine.Apply(cfg, idle, s, Engine.PostLoad(id, supported, f, r, events)) ==
            if supported then s else s.(hosts := s.hosts[id := HandleEvents(s.hosts[id], events)])
  {
    Engine.ActiveHost(cfg, idle, s, id);
    Engine.PostLoadKeepsSlots(cfg, idle, s, id, f, r);
    hide Engine.Invariant, Fetch, Libraries.Release, HandleEvents;
  }
}
