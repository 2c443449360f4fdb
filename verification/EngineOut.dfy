/**
 * The objects of the AI life cycle: the wrapper of one AI, and the handler with the wrappers, the
 * kill flags, the AI tables and the library manager. Every method is tied to the functions of
 * Lifecycle and Engine, about which the protocol and the conservation laws are proved.
 */
module EngineOut {
  import opened LibraryKeys
  import opened Libraries
  import LibraryManager
  import opened Lifecycle
  import Engine

  class Wrapper {
    var key: SkirmishKey
    var library: bool
    var aiId: int
    var teamId: int
    var initialized: bool
    var released: bool
    var libraryInit: bool
    var blockEvents: bool
    /** The calls made into the foreign library, and the changes of the kill flag. */
    ghost var log: seq<Call>

    constructor ()
      ensures Seen(NOT_KILLED) == NEW_HOST
    {
      key, library, aiId, teamId := NO_AI, false, -1, -1;
      initialized, released, libraryInit, blockEvents := false, false, false, false;
      log := [];
    }

    /** This wrapper together with the kill flag of its AI. */
    ghost function Seen(flag: int): Host
      reads this
    {
      Host(key, library, aiId, teamId, initialized, released, libraryInit, blockEvents, flag, log)
    }

    /** SetLocalKillFlag, which also blocks the events of this wrapper. */
    method SetLocalKillFlag(flags: array<int>, id: nat, reason: int)
      requires id < flags.Length
      modifies this, flags
      ensures Seen(flags[id]) == SetKillFlag(old(Seen(flags[id])), reason)
      ensures flags[id] == reason && blockEvents
      ensures flags[..] == old(flags[..])[id := flags[id]]
    {
      flags[id] := reason;
      blockEvents := true;
      log := log + [FlagSet];
    }

    /** The kill flag is reset when the AI is removed. */
    method ResetLocalKillFlag(flags: array<int>, id: nat)
      requires id < flags.Length
      modifies this, flags
      ensures Seen(flags[id]) == old(Seen(flags[id])).(killFlag := NOT_KILLED).Logged(FlagCleared)
      ensures flags[..] == old(flags[..])[id := flags[id]]
    {
      flags[id] := NOT_KILLED;
      log := log + [FlagCleared];
    }

    /** What the foreign code may do besides answering. */
    method Crash(flags: array<int>, id: nat, r: Response)
      requires id < flags.Length
      modifies this, flags
      ensures Seen(flags[id]) == Crashing(old(Seen(flags[id])), r)
      ensures flags[..] == old(flags[..])[id := flags[id]]
    {
      if r.crashes {
        SetLocalKillFlag(flags, id, KILL_CRASHED);
      }
    }

    method HandleEvent(flags: array<int>, id: nat, topic: Topic, r: Response) returns (ret: int)
      requires id < flags.Length
      requires Passes(Seen(flags[id]), topic) ==> library
      modifies this, flags
      ensures (Seen(flags[id]), ret) == Lifecycle.HandleEvent(old(Seen(flags[id])), topic, r)
      ensures if old(blockEvents) && topic != Release then log == old(log) && ret == 0
              else old(log) + [Event(topic, r.result)] <= log && ret == r.result
      ensures flags[..] == old(flags[..])[id := flags[id]]
    {
      if !blockEvents || topic == Release {
        log := log + [Event(topic, r.result)];
        Crash(flags, id, r);
        return r.result;
      }
      return 0;
    }

    method PreInit(id: nat, team: int, resolved: SkirmishKey)
      modifies this
      ensures forall flag :: Seen(flag) == Lifecycle.PreInit(old(Seen(flag)), id, team, resolved)
    {
      key := resolved;
      aiId, teamId := id, team;
      initialized, released, libraryInit, blockEvents := false, false, false, false;
      library := false;
      log := log + [Begin];
    }

    method InitLibrary(flags: array<int>, id: nat, fetched: bool, r: Response) returns (ok: bool)
      requires id < flags.Length
      modifies this, flags
      ensures (Seen(flags[id]), ok) == Lifecycle.InitLibrary(old(Seen(flags[id])), fetched, r)
      ensures flags[..] == old(flags[..])[id := flags[id]]
    {
      library := fetched;
      if library {
        log := log + [LibraryInit(r.result == 0)];
        Crash(flags, id, r);
        libraryInit := r.result == 0;
      }
      if !library || !libraryInit {
        SetLocalKillFlag(flags, id, KILL_INIT_FAILED);
      }
      if flags[id] != NOT_KILLED {
        blockEvents := true;
        return false;
      }
      return true;
    }

    method SendInitEvent(flags: array<int>, id: nat, r: Response)
      requires id < flags.Length
      requires Passes(Seen(flags[id]), Init) ==> library
      modifies this, flags
      ensures Seen(flags[id]) == Lifecycle.SendInitEvent(old(Seen(flags[id])), r)
      ensures flags[..] == old(flags[..])[id := flags[id]]
    {
      var error := HandleEvent(flags, id, Init, r);
      if error == 0 {
        initialized := true;
        return;
      }
      SetLocalKillFlag(flags, id, KILL_INIT_FAILED);
    }

    /** A series of ordinary events. */
    method HandleEvents(flags: array<int>, id: nat, rs: seq<Response>)
      requires id < flags.Length
      requires !blockEvents ==> library
      modifies this, flags
      ensures Seen(flags[id]) == Lifecycle.HandleEvents(old(Seen(flags[id])), rs)
      ensures flags[..] == old(flags[..])[id := flags[id]]
    {
      for i := 0 to |rs|
        invariant !blockEvents ==> library
        invariant Lifecycle.HandleEvents(Seen(flags[id]), rs[i..]) == Lifecycle.HandleEvents(old(Seen(flags[id])), rs)
        invariant flags[..] == old(flags[..])[id := flags[id]]
      {
        assert rs[i..][1..] == rs[i + 1..];
        var ret := HandleEvent(flags, id, Other, rs[i]);
      }
    }

    method SendRelease(flags: array<int>, id: nat, r: Response)
      requires id < flags.Length
      requires initialized && !released ==> library
      modifies this, flags
      ensures Seen(flags[id]) == ReleaseEvent(old(Seen(flags[id])), r)
      ensures flags[..] == old(flags[..])[id := flags[id]]
    {
      if !initialized || released {
        return;
      }
      var ret := HandleEvent(flags, id, Release, r);
      released := true;
    }

    /** Kill, apart from giving the library back to the manager. */
    method Stop(flags: array<int>, id: nat, releaseEvent: Response, libraryRelease: Response)
      requires id < flags.Length
      requires initialized && !released ==> library
      modifies this, flags
      ensures Seen(flags[id]) == Lifecycle.Stop(old(Seen(flags[id])), releaseEvent, libraryRelease)
      ensures flags[..] == old(flags[..])[id := flags[id]]
    {
      SendRelease(flags, id, releaseEvent);
      if libraryInit {
        log := log + [LibraryRelease];
        Crash(flags, id, libraryRelease);
      }
      library := false;
      aiId, teamId := -1, -1;
      log := log + [End];
    }
  }

  class Handler {
    const hosts: seq<Wrapper>
    const killFlags: array<int>
    const teams: array<seq<int>>
    var active: seq<int>
    const libs: LibraryManager.Manager

    constructor (aiCount: nat, teamCount: nat, libs: LibraryManager.Manager)
      requires libs.Valid()
      ensures Valid() && this.libs == libs
      ensures Abstract() == Engine.State(seq(aiCount, _ => NEW_HOST), seq(teamCount, _ => []), [], libs.Abstract())
    {
      var wrappers: seq<Wrapper> := [];
      for i := 0 to aiCount
        invariant |wrappers| == i
        invariant forall j :: 0 <= j < i ==> fresh(wrappers[j]) && wrappers[j].Seen(NOT_KILLED) == NEW_HOST
        invariant forall j, k :: 0 <= j < k < i ==> wrappers[j] != wrappers[k]
      {
        var w := new Wrapper();
        wrappers := wrappers + [w];
      }
      hosts := wrappers;
      killFlags := new int[aiCount](_ => NOT_KILLED);
      teams := new seq<int>[teamCount](_ => []);
      active := [];
      this.libs := libs;
    }

    ghost predicate Valid()
      reads this, libs, libs.Libs()
    {
      && killFlags.Length == |hosts|
      && (forall i, j :: 0 <= i < j < |hosts| ==> hosts[i] != hosts[j])
      && libs.Valid()
    }

    ghost function Hosts(): (hs: seq<Host>)
      requires killFlags.Length == |hosts|
      reads this, hosts, killFlags
      ensures |hs| == |hosts| && forall i :: 0 <= i < |hosts| ==> hs[i] == hosts[i].Seen(killFlags[i])
    {
      seq(|hosts|, i requires 0 <= i < |hosts| reads this, hosts, killFlags => hosts[i].Seen(killFlags[i]))
    }

    ghost function Abstract(): Engine.State
      requires Valid()
      reads this, hosts, killFlags, teams, libs, libs.Libs()
    {
      Engine.State(Hosts(), teams[..], active, libs.Abstract())
    }

    ghost predicate Sound(idle: set<InterfaceKey>)
      requires Valid()
      reads this, hosts, killFlags, teams, libs, libs.Libs()
    {
      Engine.Invariant(libs.cfg, idle, Abstract())
    }

    /** The wrapper's PreInit and Init, and the events that follow unless the AI was killed. */
    method StartAI(id: nat, team: int, key: SkirmishKey, fetched: bool, a: Answers)
      requires Valid() && id < |hosts|
      modifies hosts[id], killFlags
      ensures Hosts() == old(Hosts())[id := Created(old(Hosts())[id], id, team, key, fetched, a)]
    {
      var ai := hosts[id];
      ai.PreInit(id, team, key);
      var ok := ai.InitLibrary(killFlags, id, fetched, a.libraryInit);
      if ok {
        ai.SendInitEvent(killFlags, id, a.initEvent);
        if killFlags[id] == NOT_KILLED {
          ai.HandleEvents(killFlags, id, a.events);
        }
      }
    }

    method FetchLibrary(key: SkirmishKey, starts: bool, found: bool) returns (ok: bool)
      requires Valid()
      modifies libs, libs.Libs()
      ensures Valid() && fresh(libs.Libs() - old(libs.Libs()))
      ensures var (slots, success) := Fetch(libs.cfg, old(libs.Abstract()), key, starts);
              ok == success && Abstract() == old(Abstract()).(slots := slots)
    {
      hide Fetch, LibraryManager.Manager.Valid, LibraryManager.Manager.Abstract;
      var lib := libs.FetchSkirmishAILibrary(key, starts, found);
      ok := lib.Some?;
    }

    method ReleaseLibrary(key: SkirmishKey, starts: bool)
      requires Valid()
      modifies libs, libs.Libs()
      ensures Valid() && fresh(libs.Libs() - old(libs.Libs()))
      ensures Abstract() == old(Abstract()).(slots := Libraries.Release(libs.cfg, old(libs.Abstract()), key, starts))
    {
      hide Libraries.Release, LibraryManager.Manager.Valid, LibraryManager.Manager.Abstract;
      libs.ReleaseSkirmishAILibrary(key, starts);
    }

    /** Creates an AI that is not a Lua AI; key is the resolved key of its data. */
    method CreateSkirmishAI(id: nat, team: nat, key: SkirmishKey, a: Answers, found: bool,
        ghost idle: set<InterfaceKey>)
      requires Valid() && Sound(idle)
      requires Engine.Enabled(libs.cfg, Abstract(), Engine.Create(id, team, key, a))
      modifies this, hosts[id], killFlags, teams, libs, libs.Libs()
      ensures Valid() && Sound(idle) && fresh(libs.Libs() - old(libs.Libs()))
      ensures Abstract() == Engine.CreateAI(libs.cfg, old(Abstract()), id, team, key, a)
      ensures active == old(active) + [id] && teams[team] == old(teams[team]) + [id]
    {
      hide Created, Fetch, Engine.Invariant, LibraryManager.Manager.Valid, LibraryManager.Manager.Abstract;
      ghost var s := Abstract();
      Engine.CreateKeeps(libs.cfg, idle, s, id, team, key, a);
      teams[team] := teams[team] + [id];
      active := active + [id];
      assert Abstract() == s.(teams := s.teams[team := s.teams[team] + [id]], active := s.active + [id]);
      var ok := FetchLibrary(key, a.interfaceStarts, found);
      StartAI(id, team, key, ok, a);
      assert Abstract() == Engine.CreateAI(libs.cfg, s, id, team, key, a);
    }

    /** One ordinary event for an active AI. */
    method HandleEvent(id: nat, r: Response, ghost idle: set<InterfaceKey>) returns (ret: int)
      requires Valid() && Sound(idle) && id < |hosts| && id in active
      modifies hosts[id], killFlags
      ensures Valid() && Sound(idle)
      ensures Abstract() == Engine.Apply(libs.cfg, idle, old(Abstract()), Engine.Deliver(id, r))
    {
      hide Engine.Invariant;
      ghost var s := Abstract();
      HasLibrary(libs.cfg, idle, s, id);
      assert s.hosts[id] == hosts[id].Seen(killFlags[id]);
      ret := hosts[id].HandleEvent(killFlags, id, Other, r);
      assert Hosts() == s.hosts[id := Lifecycle.HandleEvent(s.hosts[id], Other, r).0];
      assert Abstract() == Engine.Apply(libs.cfg, idle, s, Engine.Deliver(id, r));
    }

    /** A kill flag set from outside: the team died, or the user kills the AI. */
    method SetLocalKillFlag(id: nat, reason: int, ghost idle: set<InterfaceKey>)
      requires Valid() && Sound(idle) && id < |hosts| && reason != NOT_KILLED
      modifies hosts[id], killFlags
      ensures Valid() && Sound(idle)
      ensures Abstract() == Engine.Apply(libs.cfg, idle, old(Abstract()), Engine.SetFlag(id, reason))
    {
      hide Engine.Invariant;
      ghost var s := Abstract();
      hosts[id].SetLocalKillFlag(killFlags, id, reason);
      assert Hosts() == s.hosts[id := SetKillFlag(s.hosts[id], reason)];
      assert Abstract() == Engine.Apply(libs.cfg, idle, s, Engine.SetFlag(id, reason));
    }

    method ResetLocalKillFlag(id: nat, ghost idle: set<InterfaceKey>)
      requires Valid() && Sound(idle) && id < |hosts|
      modifies hosts[id], killFlags
      ensures Valid() && Sound(idle)
      ensures Abstract() == Engine.Apply(libs.cfg, idle, old(Abstract()), Engine.Remove(id))
    {
      hide Engine.Invariant;
      ghost var s := Abstract();
      hosts[id].ResetLocalKillFlag(killFlags, id);
      assert Hosts() == s.hosts[id := s.hosts[id].(killFlag := NOT_KILLED).Logged(FlagCleared)];
      assert Abstract() == Engine.Apply(libs.cfg, idle, s, Engine.Remove(id));
    }

    /** An AI without load support gets the events it needs to know its units instead. */
    method PostLoadSkirmishAI(id: nat, supported: bool, fetchStarts: bool, found: bool, releaseStarts: bool,
                              events: seq<Response>, ghost idle: set<InterfaceKey>)
      requires Valid() && Sound(idle)
      requires Engine.Enabled(libs.cfg, Abstract(), Engine.PostLoad(id, supported, fetchStarts, releaseStarts, events))
      modifies hosts[id], killFlags, libs, libs.Libs()
      ensures Valid() && Sound(idle) && fresh(libs.Libs() - old(libs.Libs()))
      ensures Abstract() ==
              Engine.Apply(libs.cfg, idle, old(Abstract()),
                           Engine.PostLoad(id, supported, fetchStarts, releaseStarts, events))
    {
      hide Fetch, Libraries.Release, Engine.Invariant, LibraryManager.Manager.Valid, LibraryManager.Manager.Abstract;
      ghost var s := Abstract();
      HasLibrary(libs.cfg, idle, s, id);
      assert s.hosts[id] == hosts[id].Seen(killFlags[id]);
      var ok := FetchLibrary(hosts[id].key, fetchStarts, found);
      ReleaseLibrary(hosts[id].key, releaseStarts);
      if !supported {
        hosts[id].HandleEvents(killFlags, id, events);
        assert Hosts() == s.hosts[id := HandleEvents(s.hosts[id], events)];
      }
      assert Abstract() ==
             Engine.Apply(libs.cfg, idle, s, Engine.PostLoad(id, supported, fetchStarts, releaseStarts, events));
    }

    static lemma {:induction false} EraseAt(xs: seq<int>, i: nat)
      requires i < |xs| && xs[i] !in xs[..i]
      ensures Engine.Erase(xs, xs[i]) == xs[..i] + xs[i + 1..]
    {
      if i > 0 {
        assert xs[1..][..i - 1] == xs[..i][1..];
        assert xs[i] !in xs[..i][1..];
        EraseAt(xs[1..], i - 1);
        assert xs[..i] == [xs[0]] + xs[..i][1..];
        assert xs[1..][i..] == xs[i + 1..];
      }
    }

    /** Removes the first occurrence of an id. */
    static method EraseFirst(xs: seq<int>, id: int) returns (r: seq<int>)
      requires id in xs
      ensures r == Engine.Erase(xs, id)
    {
      var i := 0;
      while xs[i] != id
        invariant 0 <= i < |xs| && id !in xs[..i] && id in xs[i..]
        decreases |xs| - i
      {
        assert xs[i..] == [xs[i]] + xs[i + 1..];
        i := i + 1;
        assert xs[..i] == xs[..i - 1] + [xs[i - 1]];
      }
      EraseAt(xs, i);
      r := xs[..i] + xs[i + 1..];
    }

    /** Takes an AI out of the list of its team and out of the active list. */
    method Delist(id: int, team: nat)
      requires team < teams.Length && id in teams[team] && id in active
      modifies this`active, teams
      ensures teams[..] == old(teams[..])[team := Engine.Erase(old(teams[team]), id)]
      ensures active == Engine.Erase(old(active), id)
    {
      teams[team] := EraseFirst(teams[team], id);
      active := EraseFirst(active, id);
    }

    /** The wrapper's Kill, seen from the table of wrappers. */
    method StopAI(id: nat, e: Response, l: Response)
      requires Valid() && id < |hosts| && (hosts[id].initialized && !hosts[id].released ==> hosts[id].library)
      modifies hosts[id], killFlags
      ensures Hosts() == old(Hosts())[id := Lifecycle.Stop(old(Hosts())[id], e, l)]
    {
      hide Lifecycle.Stop;
      hosts[id].Stop(killFlags, id, e, l);
    }

    method DestroySkirmishAI(id: nat, e: Response, l: Response, starts: bool, ghost idle: set<InterfaceKey>)
      requires Valid() && Sound(idle) && id in active
      modifies this, hosts, killFlags, teams, libs, libs.Libs()
      ensures Valid() && Sound(idle) && fresh(libs.Libs() - old(libs.Libs()))
      ensures active == Engine.Erase(old(active), id)
      ensures Destroyed(libs.cfg, idle, old(Abstract()), Abstract(), id, e, l, starts)
    {
      hide Lifecycle.Stop, Libraries.Release, Engine.Invariant, LibraryManager.Manager.Valid,
           LibraryManager.Manager.Abstract;
      ghost var s := Abstract();
      CanDestroy(libs.cfg, idle, s, id, e, l, starts);
      var ai := hosts[id];
      assert s.hosts[id] == ai.Seen(killFlags[id]);
      var t := ai.teamId;
      Delist(id, t);
      var k := ai.key;
      StopAI(id, e, l);
      ReleaseLibrary(k, starts);
      assert Abstract() == Engine.DestroyAI(libs.cfg, s, id, e, l, starts);
    }

    /**
     * Releases the leftover AIs: the loop ends because every destruction takes its AI out of the active
     * list, and leaves every table empty.
     */
    method Kill(farewell: int -> Engine.Farewell, ghost idle: set<InterfaceKey>)
      requires Valid() && Sound(idle)
      modifies this, hosts, killFlags, teams, libs, libs.Libs()
      ensures Valid() && Sound(idle) && fresh(libs.Libs() - old(libs.Libs()))
      ensures Abstract() == Engine.KillAll(libs.cfg, idle, old(Abstract()), farewell)
      ensures active == [] && forall t :: 0 <= t < teams.Length ==> teams[t] == []
      ensures forall i :: 0 <= i < |hosts| ==> !hosts[i].library
      ensures forall k :: k in libs.cfg.ais ==> CountOf(libs.Abstract(), k) == 0
    {
      hide Engine.Invariant, LibraryManager.Manager.Valid, LibraryManager.Manager.Abstract;
      while |active| > 0
        invariant Valid() && Sound(idle) && fresh(libs.Libs() - old(libs.Libs()))
        invariant Engine.KillAll(libs.cfg, idle, Abstract(), farewell) ==
                  Engine.KillAll(libs.cfg, idle, old(Abstract()), farewell)
        decreases |active|
      {
        ghost var s := Abstract();
        var id := active[|active| - 1];
        var f := farewell(id);
        InRangeOfHosts(libs.cfg, idle, s, id);
        DestroySkirmishAI(id, f.releaseEvent, f.libraryRelease, f.interfaceStarts, idle);
      }
      Engine.NothingLeft(libs.cfg, idle, Abstract());
      assert forall i :: 0 <= i < |hosts| ==> Abstract().hosts[i] == hosts[i].Seen(killFlags[i]);
    }
  }

  lemma HasLibrary(cfg: Config, idle: set<InterfaceKey>, s: Engine.State, id: int)
    requires Engine.Invariant(cfg, idle, s) && id in s.active
    ensures 0 <= id < |s.hosts| && (!s.hosts[id].blockEvents ==> s.hosts[id].library)
  {
    assert Engine.HostsAgree(cfg, s) && Engine.ListsAgree(s);
    SettledHasLibrary(s.hosts[id]);
  }

  lemma InRangeOfHosts(cfg: Config, idle: set<InterfaceKey>, s: Engine.State, id: int)
    requires Engine.Invariant(cfg, idle, s) && id in s.active
    ensures 0 <= id < |s.hosts|
    ensures |Engine.Erase(s.active, id)| < |s.active|
  {
    Engine.EraseContents(s.active, id);
  }

  /** The step from s to s' is the destruction of an AI. */
  ghost predicate Destroyed(cfg: Config, idle: set<InterfaceKey>, s: Engine.State,
      s': Engine.State, id: int, e: Response, l: Response, starts: bool)
    requires Engine.Invariant(cfg, idle, s)
  {
    id in s.active && s' == Engine.Apply(cfg, idle, s, Engine.Destroy(id, e, l, starts))
  }

  lemma CanDestroy(cfg: Config, idle: set<InterfaceKey>, s: Engine.State, id: int,
      e: Response, l: Response, starts: bool)
    requires Engine.Invariant(cfg, idle, s) && id in s.active
    ensures 0 <= id < |s.hosts| && 0 <= s.hosts[id].teamId < |s.teams| && id in s.teams[s.hosts[id].teamId]
    ensures s.hosts[id].initialized ==> s.hosts[id].library
    ensures Engine.Invariant(cfg, idle, Engine.DestroyAI(cfg, s, id, e, l, starts))
    ensures Destroyed(cfg, idle, s, Engine.DestroyAI(cfg, s, id, e, l, starts), id, e, l, starts)
  {
    hide Lifecycle.Stop, Libraries.Release, Engine.CountsAgree;
    Engine.DestroyKeeps(cfg, idle, s, id, e, l, starts);
    assert Engine.ListsAgree(s) && Engine.HostsAgree(cfg, s);
  }
}
