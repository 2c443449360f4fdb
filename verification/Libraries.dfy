/**
 * The loaded AI interfaces and their per-AI load counts, as the AI library manager sees them:
 * what fetching and releasing an AI library does to the counts.
 */
module Libraries {
  import opened LibraryKeys

  /** AI keys are compared by name and version only; the interface is not part of the comparison. */
  datatype LibraryId = LibraryId(shortName: string, version: string)

  function IdOf(k: SkirmishKey): LibraryId {
    LibraryId(k.shortName, k.version)
  }

  /** The known interfaces and AIs. */
  datatype Config = Config(interfaces: set<InterfaceKey>, ais: set<SkirmishKey>) {
    /** One key per name and version, each on a known interface; the empty interface key is not one. */
    ghost predicate Valid() {
      && NO_INTERFACE !in interfaces
      && (forall k :: k in ais ==> k.interface in interfaces)
      && (forall k, k' :: k in ais && k' in ais && IdOf(k) == IdOf(k') ==> k == k')
      && (forall k :: k in ais ==> IdOf(k) != IdOf(NO_AI))
    }

    predicate Knows(id: LibraryId) {
      exists k :: k in ais && IdOf(k) == id
    }

    /** What resolving a key yields: a known key, or the unspecified one. */
    predicate IsResolved(k: SkirmishKey) {
      k in ais || k == NO_AI
    }
  }

  /** An interface library slot: it failed to initialise, or it holds load counts. */
  datatype Slot = Failed | Loaded(counts: map<LibraryId, nat>)

  type Slots = map<InterfaceKey, Slot>

  function Get(counts: map<LibraryId, nat>, id: LibraryId): nat {
    if id in counts then counts[id] else 0
  }

  predicate AllZero(counts: map<LibraryId, nat>) {
    forall id :: id in counts ==> counts[id] == 0
  }

  /** The load count of an AI. */
  function CountOf(slots: Slots, k: SkirmishKey): nat {
    if k.interface in slots && slots[k.interface].Loaded? then Get(slots[k.interface].counts, IdOf(k)) else 0
  }

  /** An interface that is not there is loaded if it is known; the attempt is remembered even if it failed. */
  function FetchInterface(cfg: Config, slots: Slots, i: InterfaceKey, initialises: bool): Slots {
    if i in slots || i !in cfg.interfaces then slots
    else slots[i := if initialises then Loaded(map[]) else Failed]
  }

  predicate IsLoaded(slots: Slots, i: InterfaceKey) {
    i in slots && slots[i].Loaded?
  }

  /** The slots after fetching an AI library, and whether there is one. */
  function Fetch(cfg: Config, slots: Slots, k: SkirmishKey, initialises: bool): (Slots, bool) {
    if !cfg.Knows(IdOf(k)) then (slots, false)
    else
      var s := FetchInterface(cfg, slots, k.interface, initialises);
      if IsLoaded(s, k.interface) then
        var counts := s[k.interface].counts;
        (s[k.interface := Loaded(counts[IdOf(k) := Get(counts, IdOf(k)) + 1])], true)
      else (s, false)
  }

  /** The slots after releasing an AI library; an interface without loaded AIs goes as well. */
  function Release(cfg: Config, slots: Slots, k: SkirmishKey, initialises: bool): Slots {
    var s := FetchInterface(cfg, slots, k.interface, initialises);
    if IsLoaded(s, k.interface) then
      var counts := s[k.interface].counts;
      var n := Get(counts, IdOf(k));
      var counts' := counts[IdOf(k) := if n == 0 then 0 else n - 1];
      if AllZero(counts') then s - {k.interface} else s[k.interface := Loaded(counts')]
    else s
  }

  // ----- what the operations do to the counts -----

  /** A fetch adds one to the count of its own AI, if it succeeds, and to no other. */
  lemma FetchCounts(cfg: Config, slots: Slots, k: SkirmishKey, initialises: bool, k': SkirmishKey)
    requires cfg.Valid() && cfg.IsResolved(k) && k' in cfg.ais
    ensures var (s, ok) := Fetch(cfg, slots, k, initialises);
            && CountOf(s, k') == CountOf(slots, k') + (if ok && k' == k then 1 else 0)
            && (ok ==> CountOf(s, k) > 0)
            && (ok <==> k in cfg.ais && IsLoaded(s, k.interface))
  {
  }

  /**
   * Fetching a known AI succeeds exactly if its interface is loaded already, or was not tried yet and
   * starts now; an interface that does not start is remembered as failed.
   */
  lemma FetchSucceedsIff(cfg: Config, slots: Slots, k: SkirmishKey, starts: bool)
    requires cfg.Valid() && cfg.IsResolved(k)
    ensures var (s, ok) := Fetch(cfg, slots, k, starts);
            && (ok <==> k in cfg.ais && if k.interface in slots then slots[k.interface].Loaded? else starts)
            && (k in cfg.ais && k.interface !in slots && !starts ==> s == slots[k.interface := Failed])
            && (k !in cfg.ais ==> s == slots)
  {
  }

  /** A release leaves its interface loaded exactly while an AI of it is counted. */
  lemma ReleaseUnloadsIff(cfg: Config, slots: Slots, k: SkirmishKey, starts: bool)
    requires IsLoaded(slots, k.interface)
    ensures var s := Release(cfg, slots, k, starts);
            && s - {k.interface} == slots - {k.interface}
            && (k.interface in s ==> s[k.interface].Loaded?)
            && (k.interface !in s <==>
                  forall id :: id in slots[k.interface].counts ==>
                    slots[k.interface].counts[id] == 0 || (id == IdOf(k) && slots[k.interface].counts[id] == 1))
  {
    var counts := slots[k.interface].counts;
    var n := Get(counts, IdOf(k));
    var counts' := counts[IdOf(k) := if n == 0 then 0 else n - 1];
    if AllZero(counts') {
      assert forall id :: id in counts ==> counts'[id] == 0;
    }
    assert slots[k.interface := Loaded(counts')] - {k.interface} == slots - {k.interface};
    assert slots - {k.interface} - {k.interface} == slots - {k.interface};
  }

  /** Releasing an AI of an interface that is not there tries to load it, and at most remembers that this failed. */
  lemma ReleaseOfUnloaded(cfg: Config, slots: Slots, k: SkirmishKey, starts: bool)
    requires !IsLoaded(slots, k.interface)
    ensures Release(cfg, slots, k, starts) ==
            if k.interface !in slots && k.interface in cfg.interfaces && !starts then slots[k.interface := Failed]
            else slots
  {
    if k.interface !in slots && k.interface in cfg.interfaces && starts {
      assert slots[k.interface := Loaded(map[])] - {k.interface} == slots;
    }
  }

  /** A release takes one from the count of its own AI, down to zero, and from no other. */
  lemma ReleaseCounts(cfg: Config, slots: Slots, k: SkirmishKey, initialises: bool, k': SkirmishKey)
    requires cfg.Valid() && cfg.IsResolved(k) && k' in cfg.ais
    ensures var s := Release(cfg, slots, k, initialises);
            CountOf(s, k') == CountOf(slots, k') - (if k' == k && CountOf(slots, k) > 0 then 1 else 0)
  {
    var s := Release(cfg, slots, k, initialises);
    if k'.interface == k.interface && IsLoaded(FetchInterface(cfg, slots, k.interface, initialises), k.interface) {
      var counts := FetchInterface(cfg, slots, k.interface, initialises)[k.interface].counts;
      var n := Get(counts, IdOf(k));
      var counts' := counts[IdOf(k) := if n == 0 then 0 else n - 1];
      if AllZero(counts') {
        assert IdOf(k') in counts' ==> counts'[IdOf(k')] == 0;
      }
    }
  }

  /** Failed interfaces stay failed. */
  lemma FailedStays(cfg: Config, slots: Slots, k: SkirmishKey, initialises: bool, i: InterfaceKey)
    requires i in slots && slots[i].Failed?
    ensures var s := Fetch(cfg, slots, k, initialises).0; i in s && s[i].Failed?
    ensures var s := Release(cfg, slots, k, initialises); i in s && s[i].Failed?
  {
  }

  /** A fetch that fails once fails for good, and releasing after it changes nothing. */
  lemma FailedFetchIsBalanced(cfg: Config, slots: Slots, k: SkirmishKey, initialises: bool, again: bool)
    requires cfg.Valid() && cfg.IsResolved(k) && slots.Keys <= cfg.interfaces && !Fetch(cfg, slots, k, initialises).1
    ensures var s := Fetch(cfg, slots, k, initialises).0;
            && FetchFails(cfg, s, k)
            && Release(cfg, s, k, again) == s
  {
    assert k in cfg.ais ==> cfg.Knows(IdOf(k));
  }

  /** Nothing can be fetched for this key: it is the unspecified key or its interface has failed. */
  predicate FetchFails(cfg: Config, slots: Slots, k: SkirmishKey) {
    k == NO_AI || (k.interface in slots && slots[k.interface].Failed?)
  }

  /** Fetching and releasing again, as IsLoadSupported does, leaves every count as it was. */
  lemma FetchReleaseIsNeutral(cfg: Config, slots: Slots, k: SkirmishKey, first: bool, second: bool, k': SkirmishKey)
    requires cfg.Valid() && cfg.IsResolved(k) && slots.Keys <= cfg.interfaces && k' in cfg.ais
    ensures CountOf(Release(cfg, Fetch(cfg, slots, k, first).0, k, second), k') == CountOf(slots, k')
  {
    var (s, ok) := Fetch(cfg, slots, k, first);
    FetchCounts(cfg, slots, k, first, k');
    ReleaseCounts(cfg, s, k, second, k');
    if !ok {
      FailedFetchIsBalanced(cfg, slots, k, first, second);
    }
  }

  /** An interface disappears only when none of its AIs is loaded any more. */
  lemma DestroyedOnlyWhenUnused(cfg: Config, slots: Slots, k: SkirmishKey, initialises: bool,
      i: InterfaceKey, k': SkirmishKey)
    requires cfg.Valid() && cfg.IsResolved(k) && IsLoaded(slots, i) && k' in cfg.ais && k'.interface == i
    ensures IsLoaded(Fetch(cfg, slots, k, initialises).0, i)
    ensures var s := Release(cfg, slots, k, initialises);
            i !in s ==> CountOf(slots, k') == (if k' == k && CountOf(slots, k) > 0 then 1 else 0)
    ensures var s := Release(cfg, slots, k, initialises); i in s ==> s[i].Loaded?
  {
    ReleaseCounts(cfg, slots, k, initialises, k');
  }

  /**
   * Only known interfaces have slots, only their own AIs are counted, and every loaded interface,
   * apart from those in `idle`, has an AI loaded.
   */
  ghost predicate SlotsSound(cfg: Config, idle: set<InterfaceKey>, slots: Slots) {
    && slots.Keys <= cfg.interfaces
    && (forall i, id :: i in slots && slots[i].Loaded? && id in slots[i].counts && slots[i].counts[id] != 0 ==>
          HasAI(cfg, i, id))
    && (forall i :: i in slots && slots[i].Loaded? && i !in idle ==> !AllZero(slots[i].counts))
  }

  ghost predicate HasAI(cfg: Config, i: InterfaceKey, id: LibraryId) {
    exists k :: k in cfg.ais && k.interface == i && IdOf(k) == id
  }

  lemma FetchKeepsSound(cfg: Config, slots: Slots, k: SkirmishKey, initialises: bool, idle: set<InterfaceKey>)
    requires SlotsSound(cfg, idle, slots) && cfg.Valid() && cfg.IsResolved(k)
    ensures SlotsSound(cfg, idle, Fetch(cfg, slots, k, initialises).0)
  {
    var (s, ok) := Fetch(cfg, slots, k, initialises);
    if ok {
      assert k in cfg.ais;
      assert HasAI(cfg, k.interface, IdOf(k));
      assert s[k.interface].counts[IdOf(k)] > 0;
    }
    forall i | i in s && s[i].Loaded? && i !in idle
      ensures !AllZero(s[i].counts)
    {
      if i != k.interface {
        assert i in slots && slots[i] == s[i];
      }
    }
  }

  lemma ReleaseKeepsSound(cfg: Config, slots: Slots, k: SkirmishKey, initialises: bool, idle: set<InterfaceKey>)
    requires SlotsSound(cfg, idle, slots)
    ensures SlotsSound(cfg, idle, Release(cfg, slots, k, initialises))
  {
    var s := Release(cfg, slots, k, initialises);
    forall i | i in s && s[i].Loaded? && i !in idle
      ensures !AllZero(s[i].counts)
    {
      if i != k.interface {
        assert i in slots && slots[i] == s[i];
      }
    }
    forall i, id | i in s && s[i].Loaded? && id in s[i].counts && s[i].counts[id] != 0
      ensures HasAI(cfg, i, id)
    {
      assert i in slots && slots[i].Loaded? && id in slots[i].counts && slots[i].counts[id] != 0;
    }
  }
}
