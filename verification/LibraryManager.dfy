/**
 * The objects behind the slots: CAIInterfaceLibrary with its load counts, and the table of
 * interfaces of AILibraryManager. Every method is tied to the slot functions of Libraries.
 */
module LibraryManager {
  import opened LibraryKeys
  import opened Libraries
  import opened Options

  /** A loaded AI library: the foreign one, or the empty stand-in if the foreign one was not found. */
  datatype AILibrary = Foreign | Empty

  /** The sum of all load counts. */
  ghost function Total(counts: map<LibraryId, nat>): nat {
    if counts == map[] then 0
    else
      var id :| id in counts;
      counts[id] + Total(counts - {id})
  }

  lemma {:induction false} TotalWithout(counts: map<LibraryId, nat>, id: LibraryId)
    requires id in counts
    ensures Total(counts) == counts[id] + Total(counts - {id})
    decreases |counts|
  {
    var id0 :| id0 in counts && Total(counts) == counts[id0] + Total(counts - {id0});
    if id0 != id {
      TotalWithout(counts - {id0}, id);
      TotalWithout(counts - {id}, id0);
      assert counts - {id0} - {id} == counts - {id} - {id0};
    }
  }

  lemma {:induction false} TotalIsZero(counts: map<LibraryId, nat>)
    ensures Total(counts) == 0 <==> AllZero(counts)
    decreases |counts|
  {
    if counts != map[] {
      var id :| id in counts && Total(counts) == counts[id] + Total(counts - {id});
      TotalIsZero(counts - {id});
      var rest := counts - {id};
      assert forall x :: x in rest ==> counts[x] == rest[x];
      assert forall x :: x in counts ==> x == id || x in rest;
    }
  }

  class InterfaceLibrary {
    var loadCount: map<LibraryId, nat>
    var loaded: map<LibraryId, AILibrary>

    /** A library is there exactly if its load count is positive. */
    ghost predicate Valid()
      reads this
    {
      forall id :: id in loaded <==> Get(loadCount, id) > 0
    }

    constructor ()
      ensures Valid() && loadCount == map[]
    {
      loadCount, loaded := map[], map[];
    }

    method GetLoadCount() returns (total: nat)
      ensures total == Total(loadCount)
      ensures total == 0 <==> AllZero(loadCount)
    {
      total := 0;
      var rest := loadCount;
      while rest != map[]
        invariant total + Total(rest) == Total(loadCount)
        decreases |rest|
      {
        var id :| id in rest;
        TotalWithout(rest, id);
        total := total + rest[id];
        rest := rest - {id};
      }
      TotalIsZero(loadCount);
    }

    /** Only the first fetch asks the interface for the library; found tells whether it has it. */
    method FetchSkirmishAILibrary(id: LibraryId, found: bool) returns (lib: AILibrary)
      requires Valid()
      modifies this
      ensures Valid()
      ensures loadCount == old(loadCount)[id := Get(old(loadCount), id) + 1]
      ensures id in loaded && lib == loaded[id]
      ensures if Get(old(loadCount), id) > 0 then loaded == old(loaded)
              else loaded == old(loaded)[id := if found then Foreign else Empty]
    {
      if id !in loadCount {
        loadCount := loadCount[id := 0];
      }
      if loadCount[id] == 0 {
        if !found {
          loaded := loaded[id := Empty];
        } else {
          loaded := loaded[id := Foreign];
        }
      }
      loadCount := loadCount[id := loadCount[id] + 1];
      lib := loaded[id];
    }

    method ReleaseAllSkirmishAILibraries()
      modifies this
      ensures Valid() && loadCount == map[]
    {
      loaded := map[];
      loadCount := map[];
    }

    /** The last release unloads the library. */
    method ReleaseSkirmishAILibrary(id: LibraryId) returns (n: nat)
      requires Valid()
      modifies this
      ensures Valid()
      ensures n == if Get(old(loadCount), id) == 0 then 0 else Get(old(loadCount), id) - 1
      ensures loadCount == old(loadCount)[id := n]
      ensures loaded == if n == 0 then old(loaded) - {id} else old(loaded)
    {
      if id !in loadCount {
        loadCount := loadCount[id := 0];
      }
      if loadCount[id] == 0 {
        assert loaded == loaded - {id};
        return 0;
      }
      loadCount := loadCount[id := loadCount[id] - 1];
      if loadCount[id] == 0 {
        loaded := loaded - {id};
      }
      n := loadCount[id];
    }
  }

  /** What is left after releasing everything: the interfaces that failed to initialise, as nulls. */
  function OnlyFailed(slots: Slots): Slots {
    map i | i in slots && slots[i].Failed? :: slots[i]
  }

  class Manager {
    const cfg: Config
    var interfaces: map<InterfaceKey, InterfaceLibrary?>

    ghost function Libs(): set<InterfaceLibrary?>
      reads this
    {
      set i | i in interfaces && interfaces[i] != null :: interfaces[i]
    }

    ghost predicate Valid()
      reads this, Libs()
    {
      && (forall i :: i in interfaces && interfaces[i] != null ==> interfaces[i].Valid())
      && (forall i, j :: i in interfaces && j in interfaces && i != j && interfaces[i] != null ==>
            interfaces[i] != interfaces[j])
    }

    ghost function SlotOf(i: InterfaceKey): Slot
      requires i in interfaces
      reads this, Libs()
    {
      if interfaces[i] == null then Failed else Loaded(interfaces[i].loadCount)
    }

    ghost function Abstract(): Slots
      reads this, Libs()
    {
      map i | i in interfaces :: SlotOf(i)
    }

    lemma SlotFacts(i: InterfaceKey)
      ensures Abstract().Keys == interfaces.Keys
      ensures i in interfaces ==>
                Abstract()[i] == if interfaces[i] == null then Failed else Loaded(interfaces[i].loadCount)
    {
    }

    lemma FailedAreNull()
      ensures Abstract().Keys == interfaces.Keys
      ensures forall i :: i in interfaces ==> (Abstract()[i].Failed? <==> interfaces[i] == null)
    {
      forall i | i in interfaces
        ensures Abstract()[i].Failed? <==> interfaces[i] == null
      {
        SlotFacts(i);
      }
    }

    constructor (cfg: Config)
      ensures Valid() && Abstract() == map[] && this.cfg == cfg && Libs() == {}
    {
      this.cfg := cfg;
      interfaces := map[];
    }

    /** An interface that fails to initialise is remembered as null. */
    method FetchInterface(i: InterfaceKey, initialises: bool) returns (lib: InterfaceLibrary?)
      requires Valid()
      modifies this
      ensures Valid() && fresh(Libs() - old(Libs()))
      ensures Abstract() == Libraries.FetchInterface(cfg, old(Abstract()), i, initialises)
      ensures lib != null <==> IsLoaded(Abstract(), i)
      ensures lib != null <==>
                if i in old(interfaces) then old(interfaces[i]) != null else i in cfg.interfaces && initialises
      ensures lib != null ==> i in interfaces && lib == interfaces[i] && lib in Libs()
    {
      if i in interfaces {
        return interfaces[i];
      }
      if i !in cfg.interfaces {
        return null;
      }
      lib := new InterfaceLibrary();
      if !initialises {
        lib := null;
      }
      interfaces := interfaces[i := lib];
      assert Abstract() == old(Abstract())[i := SlotOf(i)];
    }

    method ReleaseInterface(i: InterfaceKey)
      requires Valid()
      requires i in interfaces ==> interfaces[i] != null
      modifies this
      ensures Valid() && Libs() <= old(Libs())
      ensures Abstract() ==
              if i in old(interfaces) && AllZero(old(interfaces[i].loadCount)) then old(Abstract()) - {i}
              else old(Abstract())
    {
      if i !in interfaces {
        return;
      }
      var n := interfaces[i].GetLoadCount();
      if n != 0 {
        return;
      }
      interfaces := interfaces - {i};
    }

    method FetchSkirmishAILibrary(k: SkirmishKey, initialises: bool, found: bool) returns (lib: Option<AILibrary>)
      requires Valid()
      modifies this, Libs()
      ensures Valid() && fresh(Libs() - old(Libs()))
      ensures (Abstract(), lib.Some?) == Fetch(cfg, old(Abstract()), k, initialises)
      ensures cfg.Valid() && cfg.IsResolved(k) ==>
                (lib.Some? <==>
                   k in cfg.ais
                   && if k.interface in old(interfaces) then old(interfaces[k.interface]) != null else initialises)
      ensures lib.Some? && CountOf(old(Abstract()), k) == 0 ==> lib.value == if found then Foreign else Empty
    {
      SlotFacts(k.interface);
      if cfg.Valid() && cfg.IsResolved(k) {
        FetchSucceedsIff(cfg, Abstract(), k, initialises);
      }
      if !cfg.Knows(IdOf(k)) {
        return None;
      }
      var intLib := FetchInterface(k.interface, initialises);
      if intLib == null {
        return None;
      }
      var aiLib := FetchFrom(k.interface, IdOf(k), found);
      lib := Some(aiLib);
    }

    method ReleaseSkirmishAILibrary(k: SkirmishKey, initialises: bool)
      requires Valid()
      modifies this, Libs()
      ensures Valid() && fresh(Libs() - old(Libs()))
      ensures Abstract() == Release(cfg, old(Abstract()), k, initialises)
    {
      hide Valid, Abstract, SlotOf, Libs, Libraries.FetchInterface, Total, AllZero;
      var intLib := FetchInterface(k.interface, initialises);
      if intLib == null {
        return;
      }
      ghost var s := Abstract();
      SlotFacts(k.interface);
      ReleaseTo(k.interface, IdOf(k));
      SlotFacts(k.interface);
      ghost var counts := Abstract()[k.interface].counts;
      ReleaseInterface(k.interface);
      assert s[k.interface := Loaded(counts)] - {k.interface} == s - {k.interface};
    }

    /** The interface's own FetchSkirmishAILibrary, seen from the table. */
    method FetchFrom(i: InterfaceKey, id: LibraryId, found: bool) returns (lib: AILibrary)
      requires Valid() && i in interfaces && interfaces[i] != null
      modifies interfaces[i]
      ensures Valid()
      ensures var count := old(interfaces[i].loadCount);
              && Abstract() == old(Abstract())[i := Loaded(count[id := Get(count, id) + 1])]
              && (Get(count, id) == 0 ==> lib == if found then Foreign else Empty)
    {
      lib := interfaces[i].FetchSkirmishAILibrary(id, found);
      assert forall j :: j in interfaces && j != i ==> SlotOf(j) == old(SlotOf(j));
    }

    /** The interface's own ReleaseSkirmishAILibrary, seen from the table. */
    method ReleaseTo(i: InterfaceKey, id: LibraryId)
      requires Valid() && i in interfaces && interfaces[i] != null
      modifies interfaces[i]
      ensures Valid()
      ensures var n := Get(old(interfaces[i].loadCount), id);
              var count := old(interfaces[i].loadCount)[id := if n == 0 then 0 else n - 1];
              Abstract() == old(Abstract())[i := Loaded(count)]
    {
      var n := interfaces[i].ReleaseSkirmishAILibrary(id);
      assert forall j :: j in interfaces && j != i ==> SlotOf(j) == old(SlotOf(j));
    }

    /** The interface's own ReleaseAllSkirmishAILibraries, seen from the table. */
    method ClearCounts(i: InterfaceKey)
      requires Valid() && i in interfaces && interfaces[i] != null
      modifies interfaces[i]
      ensures Valid() && interfaces[i].loadCount == map[]
      ensures Abstract() == old(Abstract())[i := Loaded(map[])]
    {
      interfaces[i].ReleaseAllSkirmishAILibraries();
      assert forall j :: j in interfaces && j != i ==> SlotOf(j) == old(SlotOf(j));
    }

    /** Takes a loaded interface out of the table, whatever its counts. */
    method ReleaseWhole(i: InterfaceKey)
      requires Valid() && i in interfaces && interfaces[i] != null
      modifies this, Libs()
      ensures Valid() && Libs() <= old(Libs())
      ensures Abstract() == old(Abstract()) - {i}
    {
      ghost var s := Abstract();
      ClearCounts(i);
      ReleaseInterface(i);
      assert s[i := Loaded(map[])] - {i} == s - {i};
    }

    /** Releases every AI and every interface, over the keys there are at the start. */
    method ReleaseAll()
      requires Valid()
      modifies this, Libs()
      ensures Valid() && Libs() <= old(Libs())
      ensures Abstract() == OnlyFailed(old(Abstract()))
      ensures forall i :: i in interfaces <==> i in old(interfaces) && old(interfaces[i]) == null
      ensures forall i :: i in interfaces ==> interfaces[i] == null
    {
      hide Valid, Abstract, SlotOf, Libs;
      ghost var s := Abstract();
      FailedAreNull();
      var rest := interfaces.Keys;
      while rest != {}
        invariant Valid() && Libs() <= old(Libs())
        invariant rest <= Abstract().Keys <= s.Keys
        invariant forall i :: i in Abstract() ==> Abstract()[i] == s[i]
        invariant forall i :: i in s && i !in rest ==> (i in Abstract() <==> s[i].Failed?)
        decreases |rest|
      {
        var i :| i in rest;
        rest := rest - {i};
        SlotFacts(i);
        if interfaces[i] != null {
          ReleaseWhole(i);
        }
      }
      FailedAreNull();
    }
  }
}
