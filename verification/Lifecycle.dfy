/**
 * The life of AI instances: creation, initialisation, events, kill flags and destruction, over
 * runs of any length. Foreign AI code answers every call with an arbitrary result and may crash
 * (that is, get its own kill flag set) during any call.
 */
module Lifecycle {
  import opened LibraryKeys
  import opened Libraries

  // ----- one AI: its wrapper, its kill flag and the log of calls into its library -----

  datatype Topic = Init | Release | Other

  /** What is logged for an AI id: the calls into the foreign library, and the changes of its kill flag. */
  datatype Call =
    | Begin                                // a new incarnation starts
    | LibraryInit(ok: bool)
    | Event(topic: Topic, result: int)
    | LibraryRelease
    | End                                  // the incarnation is over
    | FlagSet
    | FlagCleared

  /** The answer of the foreign code to one call. */
  datatype Response = Response(result: int, crashes: bool)

  const NOT_KILLED := -1
  const KILL_CRASHED := 4
  const KILL_INIT_FAILED := 5

  datatype Host = Host(
    key: SkirmishKey,
    library: bool,          // the library pointer is not null
    aiId: int,              // -1 if inactive
    teamId: int,
    initialized: bool,
    released: bool,
    libraryInit: bool,
    blockEvents: bool,
    killFlag: int,
    log: seq<Call>)
  {
    predicate Killed() { killFlag != NOT_KILLED }

    function Logged(c: Call): Host { this.(log := log + [c]) }
  }

  const NEW_HOST := Host(NO_AI, false, -1, -1, false, false, false, false, NOT_KILLED, [])

  function SetKillFlag(h: Host, reason: int): Host {
    h.(killFlag := reason, blockEvents := true).Logged(FlagSet)
  }

  /** The foreign code runs and possibly crashes. */
  function Crashing(h: Host, r: Response): Host {
    if r.crashes then SetKillFlag(h, KILL_CRASHED) else h
  }

  /** Events go through unless they are blocked; the release event always does. */
  predicate Passes(h: Host, topic: Topic) {
    !h.blockEvents || topic == Release
  }

  /** The wrapper's HandleEvent: the library is only ever called when there is one. */
  function HandleEvent(h: Host, topic: Topic, r: Response): (Host, int)
    requires Passes(h, topic) ==> h.library
  {
    if Passes(h, topic) then (Crashing(h.Logged(Event(topic, r.result)), r), r.result)
    else (h, 0)
  }

  function PreInit(h: Host, id: int, team: int, key: SkirmishKey): Host {
    h.(key := key, aiId := id, teamId := team, initialized := false, released := false, libraryInit := false,
       blockEvents := false, library := false).Logged(Begin)
  }

  /** After the library was fetched: initialise it, and give up if that fails or a kill flag is set. */
  function InitLibrary(h: Host, fetched: bool, r: Response): (Host, bool) {
    var h1 :=
      if !fetched then SetKillFlag(h.(library := false), KILL_INIT_FAILED)
      else
        var ok := r.result == 0;
        var h2 := Crashing(h.(library := true).Logged(LibraryInit(ok)), r).(libraryInit := ok);
        if ok then h2 else SetKillFlag(h2, KILL_INIT_FAILED);
    if h1.Killed() then (h1.(blockEvents := true), false) else (h1, true)
  }

  function SendInitEvent(h: Host, r: Response): Host
    requires Passes(h, Init) ==> h.library
  {
    var (h1, error) := HandleEvent(h, Init, r);
    if error == 0 then h1.(initialized := true) else SetKillFlag(h1, KILL_INIT_FAILED)
  }

  /** Ordinary events, one after the other. */
  function HandleEvents(h: Host, rs: seq<Response>): Host
    requires !h.blockEvents ==> h.library
    decreases |rs|
  {
    if rs == [] then h else HandleEvents(HandleEvent(h, Other, rs[0]).0, rs[1..])
  }

  /** The answers to the calls made while an AI is created. */
  datatype Answers = Answers(interfaceStarts: bool, libraryInit: Response, initEvent: Response, events: seq<Response>)

  /** Init, and the events that follow it at once unless the AI was killed meanwhile. */
  function Start(h: Host, fetched: bool, a: Answers): Host
    requires !h.blockEvents
  {
    var (h1, ok) := InitLibrary(h, fetched, a.libraryInit);
    if !ok then h1
    else
      var h2 := SendInitEvent(h1, a.initEvent);
      if h2.Killed() then h2 else HandleEvents(h2, a.events)
  }

  /** The wrapper's Release: one release event for an AI that handled its init event. */
  function ReleaseEvent(h: Host, r: Response): Host
    requires h.initialized && !h.released ==> h.library
  {
    if h.initialized && !h.released then HandleEvent(h, Release, r).0.(released := true) else h
  }

  function ReleaseLibrary(h: Host, r: Response): Host {
    if h.libraryInit then Crashing(h.Logged(LibraryRelease), r) else h
  }

  /** The wrapper's Kill, apart from the load count. */
  function Stop(h: Host, releaseEvent: Response, libraryRelease: Response): Host
    requires h.initialized && !h.released ==> h.library
  {
    ReleaseLibrary(ReleaseEvent(h, releaseEvent), libraryRelease)
    .(library := false, aiId := -1, teamId := -1)
    .Logged(End)
  }

  // ----- the protocol that every log obeys -----

  datatype Phase = Idle | Fresh | Broken | Ready | Faulty | Running | Closed | Done | Bad

  /** Where an AI's log stands: the phase, the kill flag, and whether events are barred in this incarnation. */
  datatype Monitor = Monitor(phase: Phase, flag: bool, barred: bool)

  const START := Monitor(Idle, false, false)

  /**
   * One call. Library init comes first; the init event follows at most once, and only while no kill
   * flag is set; ordinary events only after an init event that returned zero, and only while no kill flag
   * is set; the release event at most once, and only after such an init event; library release last,
   * if and only if library init succeeded.
   */
  function Advance(m: Monitor, c: Call): Monitor {
    match c
    case FlagSet => m.(flag := true, barred := true)
    case FlagCleared => m.(flag := false)
    case Begin => m.(phase := if m.phase == Idle then Fresh else Bad, barred := m.flag)
    case LibraryInit(ok) => m.(phase := if m.phase == Fresh then (if ok then Ready else Broken) else Bad)
    case Event(Init, result) =>
      m.(phase := if m.phase == Ready && !m.barred then (if result == 0 then Running else Faulty) else Bad)
    case Event(Other, _) => m.(phase := if m.phase == Running && !m.barred then Running else Bad)
    case Event(Release, _) => m.(phase := if m.phase == Running then Closed else Bad)
    case LibraryRelease => m.(phase := if m.phase in {Ready, Faulty, Closed} then Done else Bad)
    case End => m.(phase := if m.phase in {Fresh, Broken, Done} then Idle else Bad)
  }

  function Replay(log: seq<Call>): Monitor {
    if log == [] then START else Advance(Replay(log[..|log| - 1]), log[|log| - 1])
  }

  lemma ReplaySnoc(log: seq<Call>, c: Call)
    ensures Replay(log + [c]) == Advance(Replay(log), c)
  {
    assert (log + [c])[..|log|] == log;
  }

  /** A log obeys the protocol if no prefix of it breaks it. */
  ghost predicate Conforms(log: seq<Call>) {
    forall n :: 0 <= n <= |log| ==> Replay(log[..n]).phase != Bad
  }

  lemma {:induction false} BadIsFinal(log: seq<Call>)
    requires Replay(log).phase != Bad
    ensures Conforms(log)
    decreases |log|
  {
    assert log[..|log|] == log;
    if log != [] {
      var front := log[..|log| - 1];
      assert Replay(front).phase != Bad;
      BadIsFinal(front);
      forall n | 0 <= n < |log|
        ensures Replay(log[..n]).phase != Bad
      {
        assert log[..n] == front[..n];
      }
    }
  }

  // ----- how the fields of an AI reflect its log -----

  /** An AI between calls. */
  ghost predicate Settled(h: Host) {
    var m := Replay(h.log);
    && m.flag == h.Killed()
    && if h.aiId == -1 then m.phase == Idle && !h.library
       else
         && m.barred == h.blockEvents
         && !h.released
         && (h.libraryInit ==> h.library)
         && (h.initialized ==> h.libraryInit)
         && (!h.initialized ==> h.blockEvents)
         && (m.phase == Running <==> h.initialized)
         && (!h.library ==> m.phase == Fresh)
         && (h.library && !h.libraryInit ==> m.phase == Broken)
         && (h.libraryInit && !h.initialized ==> m.phase == Ready || m.phase == Faulty)
  }

  /** The library is never called through a null pointer. */
  lemma SettledHasLibrary(h: Host)
    requires Settled(h) && h.aiId != -1
    ensures !h.blockEvents ==> h.library
    ensures h.initialized ==> h.library
    ensures h.libraryInit ==> h.library
  {
  }

  lemma LogReplay(h: Host, c: Call)
    ensures Replay(h.Logged(c).log) == Advance(Replay(h.log), c)
  {
    ReplaySnoc(h.log, c);
  }

  lemma SetKillFlagReplay(h: Host, reason: int)
    ensures Replay(SetKillFlag(h, reason).log) == Advance(Replay(h.log), FlagSet)
  {
    LogReplay(h.(killFlag := reason, blockEvents := true), FlagSet);
  }

  lemma CrashReplay(h: Host, r: Response)
    ensures Replay(Crashing(h, r).log) == if r.crashes then Advance(Replay(h.log), FlagSet) else Replay(h.log)
  {
    if r.crashes {
      SetKillFlagReplay(h, KILL_CRASHED);
    }
  }

  lemma SetKillFlagKeepsSettled(h: Host, reason: int)
    requires Settled(h) && reason != NOT_KILLED
    ensures Settled(SetKillFlag(h, reason))
  {
    SetKillFlagReplay(h, reason);
  }

  lemma ClearFlagKeepsSettled(h: Host)
    requires Settled(h)
    ensures Settled(h.(killFlag := NOT_KILLED).Logged(FlagCleared))
  {
    LogReplay(h.(killFlag := NOT_KILLED), FlagCleared);
  }

  lemma EventKeepsSettled(h: Host, r: Response)
    requires Settled(h) && h.aiId != -1
    ensures Settled(HandleEvent(h, Other, r).0)
    ensures SameInstance(h, HandleEvent(h, Other, r).0)
  {
    if Passes(h, Other) {
      LogReplay(h, Event(Other, r.result));
      CrashReplay(h.Logged(Event(Other, r.result)), r);
    }
  }

  /** Same AI, same team, same library. */
  predicate SameInstance(h: Host, h': Host) {
    h'.key == h.key && h'.library == h.library && h'.aiId == h.aiId && h'.teamId == h.teamId
  }

  lemma {:induction false} EventsKeepSettled(h: Host, rs: seq<Response>)
    requires Settled(h) && h.aiId != -1
    ensures Settled(HandleEvents(h, rs))
    ensures SameInstance(h, HandleEvents(h, rs))
    decreases |rs|
  {
    if rs != [] {
      EventKeepsSettled(h, rs[0]);
      EventsKeepSettled(HandleEvent(h, Other, rs[0]).0, rs[1..]);
    }
  }

  /** Creating an AI, up to and including the events that follow at once. */
  function Created(h: Host, id: int, team: int, key: SkirmishKey, fetched: bool, a: Answers): Host {
    Start(PreInit(h, id, team, key), fetched, a)
  }

  lemma CreatedIsSettled(h: Host, id: int, team: int, key: SkirmishKey, fetched: bool, a: Answers)
    requires Settled(h) && h.aiId == -1 && id >= 0
    ensures var h' := Created(h, id, team, key, fetched, a);
            && Settled(h')
            && h'.aiId == id && h'.teamId == team && h'.key == key && h'.library == fetched
  {
    var h0 := PreInit(h, id, team, key);
    LogReplay(h.(key := key, aiId := id, teamId := team, initialized := false, released := false, libraryInit := false,
                 blockEvents := false, library := false), Begin);
    var (h1, ok) := InitLibrary(h0, fetched, a.libraryInit);
    InitLibraryReplay(h0, fetched, a.libraryInit);
    if ok {
      var h2 := SendInitEvent(h1, a.initEvent);
      InitEventSettles(h1, a.initEvent);
      if !h2.Killed() {
        EventsKeepSettled(h2, a.events);
      }
    }
  }

  lemma InitLibraryReplay(h: Host, fetched: bool, r: Response)
    requires !h.blockEvents && !h.initialized && !h.released && !h.libraryInit && h.aiId != -1
    requires var m := Replay(h.log); m.phase == Fresh && m.flag == h.Killed() && m.barred == h.Killed()
    ensures var (h', ok) := InitLibrary(h, fetched, r);
            && h'.key == h.key && h'.aiId == h.aiId && h'.teamId == h.teamId && h'.library == fetched
            && !h'.released && !h'.initialized
            && (!ok ==> Settled(h'))
            && (ok ==>
                  && h'.library && h'.libraryInit && !h'.blockEvents && !h'.Killed()
                  && Replay(h'.log) == Monitor(Ready, false, false))
  {
    hide Replay;
    if !fetched {
      SetKillFlagReplay(h.(library := false), KILL_INIT_FAILED);
    } else {
      var ok := r.result == 0;
      var g := h.(library := true);
      LogReplay(g, LibraryInit(ok));
      CrashReplay(g.Logged(LibraryInit(ok)), r);
      var h2 := Crashing(g.Logged(LibraryInit(ok)), r).(libraryInit := ok);
      if !ok {
        SetKillFlagReplay(h2, KILL_INIT_FAILED);
      }
    }
  }

  lemma InitEventSettles(h: Host, r: Response)
    requires h.library && h.libraryInit && !h.blockEvents && !h.Killed() && !h.released &&
             !h.initialized && h.aiId != -1
    requires Replay(h.log) == Monitor(Ready, false, false)
    ensures Settled(SendInitEvent(h, r))
    ensures SameInstance(h, SendInitEvent(h, r))
    ensures !SendInitEvent(h, r).Killed() ==> SendInitEvent(h, r).initialized
  {
    LogReplay(h, Event(Init, r.result));
    var h1 := h.Logged(Event(Init, r.result));
    CrashReplay(h1, r);
    if r.result != 0 {
      SetKillFlagReplay(Crashing(h1, r), KILL_INIT_FAILED);
    }
  }

  lemma StopSettles(h: Host, e: Response, l: Response)
    requires Settled(h) && h.aiId != -1
    ensures var h' := Stop(h, e, l);
            && Settled(h')
            && h'.aiId == -1 && h'.teamId == -1 && !h'.library && h'.key == h.key
            && (h'.released <==> h.initialized)
  {
    hide Replay;
    var h1 := ReleaseEvent(h, e);
    ReleaseEventReplay(h, e);
    var h2 := ReleaseLibrary(h1, l);
    ReleaseLibraryReplay(h1, l);
    LogReplay(h2.(library := false, aiId := -1, teamId := -1), End);
  }

  lemma ReleaseEventReplay(h: Host, r: Response)
    requires Settled(h) && h.aiId != -1
    ensures var h', m := ReleaseEvent(h, r), Replay(ReleaseEvent(h, r).log);
            && h'.key == h.key && h'.libraryInit == h.libraryInit
            && m.flag == h'.Killed()
            && m.phase == if h.initialized then Closed else Replay(h.log).phase
  {
    hide Replay;
    if h.initialized {
      LogReplay(h, Event(Release, r.result));
      CrashReplay(h.Logged(Event(Release, r.result)), r);
    }
  }

  lemma ReleaseLibraryReplay(h: Host, r: Response)
    requires Replay(h.log).flag == h.Killed()
    requires h.libraryInit ==> Replay(h.log).phase in {Ready, Faulty, Closed}
    ensures var h', m := ReleaseLibrary(h, r), Replay(ReleaseLibrary(h, r).log);
            && h'.key == h.key
            && m.flag == h'.Killed()
            && m.phase == if h.libraryInit then Done else Replay(h.log).phase
  {
    hide Replay;
    if h.libraryInit {
      LogReplay(h, LibraryRelease);
      CrashReplay(h.Logged(LibraryRelease), r);
    }
  }

  // ----- how often an AI asks to be destroyed -----

  /** Every kill flag that is set sends a message that asks for the destruction of the AI. */
  function Requests(log: seq<Call>): nat {
    if log == [] then 0 else Requests(log[..|log| - 1]) + if log[|log| - 1] == FlagSet then 1 else 0
  }

  lemma RequestsLogged(h: Host, c: Call)
    ensures Requests(h.Logged(c).log) == Requests(h.log) + if c == FlagSet then 1 else 0
  {
    assert (h.log + [c])[..|h.log|] == h.log;
  }

  function One(b: bool): nat {
    if b then 1 else 0
  }

  /** A call that crashes and fails asks twice. */
  function Asks(r: Response): nat {
    One(r.crashes) + One(r.result != 0)
  }

  lemma CrashRequests(h: Host, r: Response)
    ensures Requests(Crashing(h, r).log) == Requests(h.log) + One(r.crashes)
  {
    RequestsLogged(h.(killFlag := KILL_CRASHED, blockEvents := true), FlagSet);
  }

  predicate AnyCrash(rs: seq<Response>) {
    exists i :: 0 <= i < |rs| && rs[i].crashes
  }

  /** Of a series of events only the first crash asks, since nothing is delivered after it. */
  lemma {:induction false} EventsRequest(h: Host, rs: seq<Response>)
    requires !h.blockEvents ==> h.library
    ensures Requests(HandleEvents(h, rs).log) == Requests(h.log) + One(!h.blockEvents && AnyCrash(rs))
    decreases |rs|
  {
    if rs != [] {
      var h1 := HandleEvent(h, Other, rs[0]).0;
      EventsRequest(h1, rs[1..]);
      if !h.blockEvents {
        RequestsLogged(h, Event(Other, rs[0].result));
        CrashRequests(h.Logged(Event(Other, rs[0].result)), rs[0]);
        if !rs[0].crashes {
          AnyCrashLater(rs);
        }
      }
    }
  }

  lemma AnyCrashLater(rs: seq<Response>)
    requires rs != [] && !rs[0].crashes
    ensures AnyCrash(rs) <==> AnyCrash(rs[1..])
  {
    if i :| 0 <= i < |rs| && rs[i].crashes {
      assert rs[1..][i - 1].crashes;
    }
  }

  /** How often an AI asks to be destroyed while it is created. */
  function RequestsAtCreation(killed: bool, fetched: bool, a: Answers): nat {
    if !fetched then 1
    else if killed || Asks(a.libraryInit) > 0 then Asks(a.libraryInit)
    else if Asks(a.initEvent) > 0 then Asks(a.initEvent)
    else One(AnyCrash(a.events))
  }

  lemma CreationRequests(h: Host, id: int, team: int, key: SkirmishKey, fetched: bool, a: Answers)
    ensures Requests(Created(h, id, team, key, fetched, a).log) ==
            Requests(h.log) + RequestsAtCreation(h.Killed(), fetched, a)
  {
    hide Requests, HandleEvents;
    var h0 := PreInit(h, id, team, key);
    RequestsLogged(h.(key := key, aiId := id, teamId := team, initialized := false, released := false,
                      libraryInit := false, blockEvents := false, library := false), Begin);
    var (h1, ok) := InitLibrary(h0, fetched, a.libraryInit);
    InitLibraryRequests(h0, fetched, a.libraryInit);
    if ok {
      InitEventRequests(h1, a.initEvent);
      var h2 := SendInitEvent(h1, a.initEvent);
      if !h2.Killed() {
        EventsRequest(h2, a.events);
      }
    }
  }

  lemma InitLibraryRequests(h: Host, fetched: bool, r: Response)
    requires !h.blockEvents
    ensures var (h', ok) := InitLibrary(h, fetched, r);
            && Requests(h'.log) == Requests(h.log) + (if fetched then Asks(r) else 1)
            && (ok <==> fetched && !h.Killed() && Asks(r) == 0)
            && (ok ==> h'.library && !h'.blockEvents && !h'.Killed())
  {
    hide Requests;
    if !fetched {
      RequestsLogged(h.(library := false, killFlag := KILL_INIT_FAILED, blockEvents := true), FlagSet);
    } else {
      var g := h.(library := true).Logged(LibraryInit(r.result == 0));
      RequestsLogged(h.(library := true), LibraryInit(r.result == 0));
      CrashRequests(g, r);
      var h2 := Crashing(g, r).(libraryInit := r.result == 0);
      RequestsLogged(h2.(killFlag := KILL_INIT_FAILED, blockEvents := true), FlagSet);
    }
  }

  lemma InitEventRequests(h: Host, r: Response)
    requires h.library && !h.blockEvents && !h.Killed()
    ensures var h' := SendInitEvent(h, r);
            && Requests(h'.log) == Requests(h.log) + Asks(r)
            && (Asks(r) == 0 <==> !h'.Killed())
            && (Asks(r) == 0 ==> h'.library && !h'.blockEvents)
  {
    hide Requests;
    var g := h.Logged(Event(Init, r.result));
    RequestsLogged(h, Event(Init, r.result));
    CrashRequests(g, r);
    var h2 := Crashing(g, r);
    RequestsLogged(h2.(killFlag := KILL_INIT_FAILED, blockEvents := true), FlagSet);
  }

  lemma {:induction false} EventsKeepFields(h: Host, rs: seq<Response>)
    requires !h.blockEvents ==> h.library
    ensures var h' := HandleEvents(h, rs);
            && h'.library == h.library && h'.libraryInit == h.libraryInit
            && h'.initialized == h.initialized && h'.released == h.released
            && (h'.blockEvents <==> h.blockEvents || AnyCrash(rs))
    decreases |rs|
  {
    if rs != [] {
      EventsKeepFields(HandleEvent(h, Other, rs[0]).0, rs[1..]);
      if !rs[0].crashes {
        AnyCrashLater(rs);
      }
    }
  }

  /** Which calls an AI has answered well enough to be released later. */
  predicate LibraryStarted(fetched: bool, a: Answers) {
    fetched && a.libraryInit.result == 0
  }

  predicate InitHandled(killed: bool, fetched: bool, a: Answers) {
    fetched && !killed && Asks(a.libraryInit) == 0 && a.initEvent.result == 0
  }

  lemma CreatedFields(h: Host, id: int, team: int, key: SkirmishKey, fetched: bool, a: Answers)
    ensures var h' := Created(h, id, team, key, fetched, a);
            && h'.library == fetched && !h'.released
            && (h'.blockEvents <==> h.Killed() || RequestsAtCreation(h.Killed(), fetched, a) > 0)
            && (h'.libraryInit <==> LibraryStarted(fetched, a))
            && (h'.initialized <==> InitHandled(h.Killed(), fetched, a))
  {
    hide HandleEvents, AnyCrash;
    var (h1, ok) := InitLibrary(PreInit(h, id, team, key), fetched, a.libraryInit);
    if ok {
      var h2 := SendInitEvent(h1, a.initEvent);
      if !h2.Killed() {
        EventsKeepFields(h2, a.events);
      }
    }
  }

  lemma StopRequests(h: Host, e: Response, l: Response)
    requires h.initialized && !h.released ==> h.library
    ensures Requests(Stop(h, e, l).log) ==
            Requests(h.log) + One(h.initialized && !h.released && e.crashes) + One(h.libraryInit && l.crashes)
  {
    hide Requests;
    var h1 := ReleaseEvent(h, e);
    if h.initialized && !h.released {
      RequestsLogged(h, Event(Release, e.result));
      CrashRequests(h.Logged(Event(Release, e.result)), e);
    }
    if h1.libraryInit {
      RequestsLogged(h1, LibraryRelease);
      CrashRequests(h1.Logged(LibraryRelease), l);
    }
    RequestsLogged(ReleaseLibrary(h1, l).(library := false, aiId := -1, teamId := -1), End);
  }

  /** From its creation to its end, over any later events, with no flag set from outside. */
  function Lifetime(h: Host, id: int, team: int, key: SkirmishKey, fetched: bool, a: Answers, later: seq<Response>,
      e: Response, l: Response): Host
  {
    CreatedFields(h, id, team, key, fetched, a);
    var h1 := Created(h, id, team, key, fetched, a);
    EventsKeepFields(h1, later);
    Stop(HandleEvents(h1, later), e, l)
  }

  /**
   * How often an AI asks for its destruction in one life: while it is created, once more if a later event
   * crashes and it has not asked before, and again for each of its two releases that crashes.
   */
  lemma LifetimeRequests(h: Host, id: int, team: int, key: SkirmishKey, fetched: bool, a: Answers,
      later: seq<Response>, e: Response, l: Response)
    ensures var atCreation := RequestsAtCreation(h.Killed(), fetched, a);
            var asked := Requests(Lifetime(h, id, team, key, fetched, a, later, e, l).log) - Requests(h.log);
            && asked == atCreation + One(atCreation == 0 && !h.Killed() && AnyCrash(later))
                        + One(InitHandled(h.Killed(), fetched, a) && e.crashes)
                        + One(LibraryStarted(fetched, a) && l.crashes)
            && asked <= 3
  {
    hide Created, HandleEvents, Stop, Requests, AnyCrash;
    var h1 := Created(h, id, team, key, fetched, a);
    CreatedFields(h, id, team, key, fetched, a);
    CreationRequests(h, id, team, key, fetched, a);
    EventsKeepFields(h1, later);
    EventsRequest(h1, later);
    StopRequests(HandleEvents(h1, later), e, l);
  }

  predicate FailsAndCrashes(r: Response) {
    r.result != 0 && r.crashes
  }

  /**
   * An AI asks for its destruction twice while it is created exactly if one of its two initialisations fails
   * and crashes.
   */
  lemma AsksTwiceIff(h: Host, id: int, team: int, key: SkirmishKey, fetched: bool, a: Answers)
    ensures var asked := Requests(Created(h, id, team, key, fetched, a).log) - Requests(h.log);
            && 0 <= asked <= 2
            && (asked == 2 <==>
                  fetched && (FailsAndCrashes(a.libraryInit)
                              || (!h.Killed() && Asks(a.libraryInit) == 0 && FailsAndCrashes(a.initEvent))))
  {
    hide Created, Requests;
    CreationRequests(h, id, team, key, fetched, a);
  }
}
