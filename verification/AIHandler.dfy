/**
 * The data of all AI instances: the table by id, the index of the valid ids, the counter, and the
 * completion of options with their defaults.
 */
module AIHandler {
  import opened LibraryKeys
  import Lifecycle

  datatype TypeCode = OptError | OptBool | OptList | OptNumber | OptString | OptSection

  datatype AIOption = AIOption(typeCode: TypeCode, key: string, default: string) {
    predicate HasValue() { typeCode != OptError && typeCode != OptSection }
  }

  datatype Data = Data(
    team: int,
    hostPlayer: int,
    name: string,
    shortName: string,
    version: string,
    optionKeys: seq<string>,
    options: map<string, string>,
    isLuaAI: bool)
  {
    predicate Valid() { shortName != "" }
  }

  const NO_DATA := Data(-1, -1, "", "", "", [], map[], false)

  /** What stays the same during a game: the local player, the AI libraries and the Lua AIs of the game. */
  datatype Env = Env(
    me: int,
    resolve: (string, string) -> SkirmishKey,
    options: map<SkirmishKey, seq<AIOption>>,
    luaImpls: set<string>)

  // ----- default options -----

  function AddDefault(d: Data, o: AIOption): Data {
    if !o.HasValue() || o.key in d.options then d
    else d.(optionKeys := d.optionKeys + [o.key], options := d.options[o.key := o.default])
  }

  function WithDefaults(d: Data, opts: seq<AIOption>): Data {
    if opts == [] then d else AddDefault(WithDefaults(d, opts[..|opts| - 1]), opts[|opts| - 1])
  }

  /** The value that the options give to a key: the default of the first option with that key. */
  ghost predicate IsFirst(opts: seq<AIOption>, i: int, key: string) {
    && 0 <= i < |opts| && opts[i].HasValue() && opts[i].key == key
    && forall j :: 0 <= j < i ==> !(opts[j].HasValue() && opts[j].key == key)
  }

  /** Given options are never changed; exactly the missing ones are added, each with its first default. */
  lemma {:induction false} DefaultsFillGaps(d: Data, opts: seq<AIOption>, key: string)
    ensures var r := WithDefaults(d, opts);
            && r == d.(optionKeys := r.optionKeys, options := r.options)
            && d.optionKeys <= r.optionKeys
            && (key in d.options ==> key in r.options && r.options[key] == d.options[key])
            && (key !in d.options && key in r.options ==>
                  exists i :: IsFirst(opts, i, key) && r.options[key] == opts[i].default)
            && (key !in d.options && key !in r.options ==>
                  forall i :: 0 <= i < |opts| ==> !(opts[i].HasValue() && opts[i].key == key))
            && (key in r.optionKeys <==> key in d.optionKeys || (key !in d.options && key in r.options))
    decreases |opts|
  {
    if opts != [] {
      var front, last := opts[..|opts| - 1], opts[|opts| - 1];
      DefaultsFillGaps(d, front, key);
      var r, r' := WithDefaults(d, front), WithDefaults(d, opts);
      if key !in d.options && key in r'.options {
        if key in r.options {
          var i :| IsFirst(front, i, key) && r.options[key] == front[i].default;
          assert IsFirst(opts, i, key);
        } else {
          assert IsFirst(opts, |opts| - 1, key);
        }
      }
    }
  }

  ghost predicate Covered(d: Data, opts: seq<AIOption>) {
    forall i :: 0 <= i < |opts| && opts[i].HasValue() ==> opts[i].key in d.options
  }

  lemma {:induction false} CoveredNeedsNothing(d: Data, opts: seq<AIOption>)
    requires Covered(d, opts)
    ensures WithDefaults(d, opts) == d
    decreases |opts|
  {
    if opts != [] {
      CoveredNeedsNothing(d, opts[..|opts| - 1]);
    }
  }

  lemma DefaultsAreIdempotent(d: Data, opts: seq<AIOption>)
    ensures WithDefaults(WithDefaults(d, opts), opts) == WithDefaults(d, opts)
  {
    var r := WithDefaults(d, opts);
    forall i | 0 <= i < |opts| && opts[i].HasValue()
      ensures opts[i].key in r.options
    {
      DefaultsFillGaps(d, opts, opts[i].key);
    }
    CoveredNeedsNothing(r, opts);
  }

  // ----- completion of one AI -----

  predicate IsLocal(env: Env, d: Data) {
    d.Valid() && d.hostPlayer == env.me
  }

  function ResolvedKey(env: Env, d: Data, k: SkirmishKey): SkirmishKey {
    if k.IsUnspecified() then env.resolve(d.shortName, d.version) else k
  }

  /** The data and the cached library key of an AI once it is completed. */
  function Finished(env: Env, lua: set<string>, d: Data, k: SkirmishKey): (Data, SkirmishKey) {
    if !d.Valid() then (d, k)
    else
      var d1 := d.(isLuaAI := d.shortName in lua);
      if d1.isLuaAI || !IsLocal(env, d1) then (d1, k)
      else
        var k1 := ResolvedKey(env, d1, k);
        (if k1 in env.options then WithDefaults(d1, env.options[k1]) else d1, k1)
  }

  /** Completing twice is completing once, also when the key was not yet or no longer cached. */
  lemma FinishedIsIdempotent(env: Env, lua: set<string>, d: Data, k: SkirmishKey)
    ensures var (d', k') := Finished(env, lua, d, k);
            && Finished(env, lua, d', k') == (d', k')
            && (KeyFits(env, d, k) ==> KeyFits(env, d', k') && Finished(env, lua, d', NO_AI).0 == d')
  {
    var (d', k') := Finished(env, lua, d, k);
    if d.Valid() && d.shortName !in lua && IsLocal(env, d) && k' in env.options {
      var d1 := d.(isLuaAI := false);
      DefaultsFillGaps(d1, env.options[k'], "");
      DefaultsAreIdempotent(d1, env.options[k']);
      assert d'.(isLuaAI := false) == d';
    }
  }

  /** A cached key is the one that the AI's name and version resolve to. */
  predicate KeyFits(env: Env, d: Data, k: SkirmishKey) {
    k.IsUnspecified() || k == env.resolve(d.shortName, d.version)
  }

  /** Completion touches the options of local AIs only, and no option that was given. */
  lemma FinishedKeepsOptions(env: Env, lua: set<string>, d: Data, k: SkirmishKey, key: string)
    ensures var d' := Finished(env, lua, d, k).0;
            && d' == d.(optionKeys := d'.optionKeys, options := d'.options, isLuaAI := d'.isLuaAI)
            && (key in d.options ==> key in d'.options && d'.options[key] == d.options[key])
            && (!IsLocal(env, d) || d.shortName in lua ==> d'.options == d.options && d'.optionKeys == d.optionKeys)
  {
    var (d', k') := Finished(env, lua, d, k);
    if d.Valid() && d.shortName !in lua && IsLocal(env, d) && k' in env.options {
      DefaultsFillGaps(d.(isLuaAI := false), env.options[k'], key);
    }
  }

  /**
   * A valid local AI that is not a Lua AI gets the options of its library: every option with a value is
   * set afterwards, a missing one to the default of its first entry; and its key is cached.
   */
  lemma FinishedFills(env: Env, lua: set<string>, d: Data, k: SkirmishKey, i: int)
    requires d.Valid() && d.hostPlayer == env.me && d.shortName !in lua
    requires var k1 := if k.IsUnspecified() then env.resolve(d.shortName, d.version) else k;
             k1 in env.options && 0 <= i < |env.options[k1]| && env.options[k1][i].HasValue()
    ensures var k1 := if k.IsUnspecified() then env.resolve(d.shortName, d.version) else k;
            var (d', k') := Finished(env, lua, d, k);
            var key := env.options[k1][i].key;
            && k' == k1 && !d'.isLuaAI
            && key in d'.options && (key in d'.optionKeys <==> key in d.optionKeys || key !in d.options)
            && (key !in d.options ==>
                  exists j :: IsFirst(env.options[k1], j, key) && d'.options[key] == env.options[k1][j].default)
  {
    var k1 := ResolvedKey(env, d, k);
    DefaultsFillGaps(d.(isLuaAI := false), env.options[k1], env.options[k1][i].key);
  }

  /** A Lua AI is marked as one, and neither it nor an AI of another host is completed any further. */
  lemma FinishedMarksLua(env: Env, lua: set<string>, d: Data, k: SkirmishKey)
    ensures d.Valid() ==> (Finished(env, lua, d, k).0.isLuaAI <==> d.shortName in lua)
    ensures d.Valid() && (d.shortName in lua || d.hostPlayer != env.me) ==>
              Finished(env, lua, d, k) == (d.(isLuaAI := d.shortName in lua), k)
    ensures !d.Valid() ==> Finished(env, lua, d, k) == (d, k)
  {
    if d.Valid() {
      FinishedFlag(env, lua, d, k);
    }
  }

  // ----- the tables -----

  datatype State = State(
    data: seq<Data>,
    keys: seq<SkirmishKey>,
    local: seq<Data>,
    flags: seq<int>,
    index: set<int>,           // the ids that map to the place of their data
    num: int,
    lua: set<string>,
    initialized: bool)

  function ResetState(n: nat): State {
    State(seq(n, _ => NO_DATA), seq(n, _ => NO_AI), seq(n, _ => NO_DATA),
      seq(n, _ => Lifecycle.NOT_KILLED), {}, 0, {}, false)
  }

  predicate Sized(s: State, n: nat) {
    |s.data| == n && |s.keys| == n && |s.local| == n && |s.flags| == n
  }

  function ValidIds(data: seq<Data>): set<int> {
    set id | 0 <= id < |data| && data[id].Valid()
  }

  ghost predicate IndexAgrees(s: State) {
    s.index == ValidIds(s.data) && s.num == |s.index|
  }

  /** One place: a valid AI with a fitting key, completed once the game is initialised; or nothing at all. */
  ghost predicate EntryFits(env: Env, n: nat, initialized: bool, lua: set<string>, d: Data, k: SkirmishKey, flag: int) {
    if d.Valid() then
      && KeyFits(env, d, k)
      && 0 <= d.team < n
      && (initialized ==> Finished(env, lua, d, NO_AI).0 == d)
    else d == NO_DATA && k == NO_AI && flag == Lifecycle.NOT_KILLED
  }

  ghost predicate EntriesAgree(env: Env, s: State)
    requires Sized(s, |s.data|)
  {
    forall id :: 0 <= id < |s.data| ==>
      EntryFits(env, |s.data|, s.initialized, s.lua, s.data[id], s.keys[id], s.flags[id])
  }

  /** What holds in every reachable state of a table with n places; ids and the counter are bytes. */
  ghost predicate Invariant(env: Env, n: nat, s: State) {
    && n <= 255
    && Sized(s, n)
    && IndexAgrees(s)
    && EntriesAgree(env, s)
    && s.lua == (if s.initialized then env.luaImpls else {})
  }

  function Complete(env: Env, s: State, id: int): State
    requires Sized(s, |s.data|) && 0 <= id < |s.data|
  {
    if !s.initialized then s
    else
      var (d, k) := Finished(env, s.lua, s.data[id], s.keys[id]);
      s.(data := s.data[id := d], keys := s.keys[id := k])
  }

  predicate CanAdd(s: State, d: Data, id: int) {
    Sized(s, |s.data|) && 0 <= id < |s.data| && d.Valid() && 0 <= d.team < |s.data|
  }

  /** Fails if the id is already taken. */
  function Add(env: Env, s: State, d: Data, id: int): (State, bool)
    requires CanAdd(s, d, id)
  {
    if s.data[id].Valid() then (s, false)
    else
      var s1 := s.(data := s.data[id := d], local := s.local[d.team := NO_DATA], index := s.index + {id});
      (Complete(env, s1, id).(num := (s.num + 1) % 256), true)
  }

  lemma AddFields(env: Env, s: State, d: Data, id: int)
    requires CanAdd(s, d, id) && !s.data[id].Valid()
    ensures var s', f := Add(env, s, d, id).0, Finished(env, s.lua, d, s.keys[id]);
            && s'.data == s.data[id := if s.initialized then f.0 else d]
            && s'.keys == (if s.initialized then s.keys[id := f.1] else s.keys)
            && s'.flags == s.flags && s'.local == s.local[d.team := NO_DATA]
            && s'.lua == s.lua && s'.initialized == s.initialized
            && s'.index == s.index + {id} && s'.num == (s.num + 1) % 256
  {
    hide Finished;
  }

  function Remove(s: State, id: int): (State, bool)
    requires Sized(s, |s.data|) && 0 <= id < |s.data|
    requires s.data[id].Valid() ==> 0 <= s.data[id].team < |s.data|
  {
    if !s.data[id].Valid() then (s, false)
    else
      (s.(local := s.local[s.data[id].team := NO_DATA],
          flags := s.flags[id := Lifecycle.NOT_KILLED], keys := s.keys[id := NO_AI],
          data := s.data[id := NO_DATA], index := s.index - {id}, num := (s.num - 1) % 256), true)
  }

  /** Loads the names of the Lua AIs and completes whatever was added before. */
  function LoadedPreGame(env: Env, s: State): State
    requires Sized(s, |s.data|)
  {
    if s.initialized then s
    else
      var lua := s.lua + env.luaImpls;
      s.(lua := lua, initialized := true,
         data := seq(|s.data|, i requires 0 <= i < |s.data| => Finished(env, lua, s.data[i], s.keys[i]).0),
         keys := seq(|s.data|, i requires 0 <= i < |s.data| => Finished(env, lua, s.data[i], s.keys[i]).1))
  }

  function CreateLocal(s: State, id: int): State
    requires Sized(s, |s.data|) && 0 <= id < |s.data| && 0 <= s.data[id].team < |s.data|
  {
    var d := s.data[id];
    var lua := d.(isLuaAI := d.shortName in s.lua);
    s.(local := s.local[d.team := lua], data := s.data[id := lua])
  }

  function SetKillFlag(s: State, id: int, reason: int): State
    requires Sized(s, |s.data|) && 0 <= id < |s.data|
  {
    s.(flags := s.flags[id := reason])
  }

  // ----- every operation keeps the invariant -----

  lemma ResetKeeps(env: Env, n: nat)
    requires n <= 255
    ensures Invariant(env, n, ResetState(n))
  {
  }

  function Below(n: nat): (r: set<int>)
    ensures |r| == n && forall i :: i in r <==> 0 <= i < n
  {
    if n == 0 then {} else Below(n - 1) + {n - 1}
  }

  lemma MoreValid(data: seq<Data>, data': seq<Data>, id: int)
    requires |data'| == |data| && 0 <= id < |data| && !data[id].Valid() && data'[id].Valid()
    requires forall i :: 0 <= i < |data| && i != id ==> data'[i].Valid() == data[i].Valid()
    ensures ValidIds(data') == ValidIds(data) + {id} && id !in ValidIds(data)
  {
  }

  lemma SameValid(data: seq<Data>, data': seq<Data>)
    requires |data'| == |data|
    requires forall i :: 0 <= i < |data| ==> data'[i].Valid() == data[i].Valid()
    ensures ValidIds(data') == ValidIds(data)
  {
  }

  /** So the byte counter never wraps around. */
  lemma FewValid(data: seq<Data>)
    ensures |ValidIds(data)| <= |data|
  {
    var all := Below(|data|);
    var ids := ValidIds(data);
    assert all == ids + (all - ids);
    assert |ids| <= |all|;
  }

  lemma FinishedFits(env: Env, n: nat, lua: set<string>, d: Data, k: SkirmishKey, initialized: bool, flag: int)
    requires EntryFits(env, n, initialized, lua, d, k, flag) || (d.Valid() && KeyFits(env, d, k) && 0 <= d.team < n)
    ensures var (d', k') := Finished(env, lua, d, k);
            EntryFits(env, n, true, lua, d', k', flag) && d'.Valid() == d.Valid()
  {
    FinishedIsIdempotent(env, lua, d, k);
    FinishedKeepsOptions(env, lua, d, k, "");
  }

  lemma AddKeeps(env: Env, n: nat, s: State, d: Data, id: int)
    requires Invariant(env, n, s) && CanAdd(s, d, id)
    ensures Invariant(env, n, Add(env, s, d, id).0)
  {
    if !s.data[id].Valid() {
      assert EntryFits(env, n, s.initialized, s.lua, s.data[id], s.keys[id], s.flags[id]);
      FinishedFits(env, n, s.lua, d, s.keys[id], s.initialized, s.flags[id]);
      AddFields(env, s, d, id);
      hide Finished, KeyFits, Add, EntryFits, IndexAgrees;
      var s' := Add(env, s, d, id).0;
      assert IndexAgrees(s') by { IndexKept(s, s', id); }
      EntriesKept(env, s, s', id);
    }
  }

  lemma EntriesKept(env: Env, s: State, s': State, id: int)
    requires Sized(s, |s.data|) && Sized(s', |s.data|) && 0 <= id < |s.data| && EntriesAgree(env, s)
    requires s'.data == s.data[id := s'.data[id]] && s'.keys == s.keys[id := s'.keys[id]]
    requires s'.flags == s.flags[id := s'.flags[id]]
    requires s'.initialized == s.initialized && s'.lua == s.lua
    requires EntryFits(env, |s.data|, s.initialized, s.lua, s'.data[id], s'.keys[id], s'.flags[id])
    ensures EntriesAgree(env, s')
  {
    hide EntryFits;
  }

  /** One place becomes valid or invalid, and the counter follows without wrapping around. */
  lemma IndexKept(s: State, s': State, id: int)
    requires IndexAgrees(s)
    requires |s.data| <= 255 && 0 <= id < |s.data| && |s'.data| == |s.data|
    requires s'.data == s.data[id := s'.data[id]]
    requires s'.data[id].Valid() != s.data[id].Valid()
    requires s'.index == if s'.data[id].Valid() then s.index + {id} else s.index - {id}
    requires s'.num == (if s'.data[id].Valid() then s.num + 1 else s.num - 1) % 256
    ensures IndexAgrees(s')
  {
    hide ValidIds;
    if s'.data[id].Valid() {
      MoreValid(s.data, s'.data, id);
      FewValid(s'.data);
    } else {
      MoreValid(s'.data, s.data, id);
      FewValid(s.data);
      assert ValidIds(s'.data) == ValidIds(s'.data) + {id} - {id};
    }
  }

  lemma RemoveFields(s: State, id: int)
    requires Sized(s, |s.data|) && 0 <= id < |s.data| && s.data[id].Valid() && 0 <= s.data[id].team < |s.data|
    ensures var s' := Remove(s, id).0;
            && s'.data == s.data[id := NO_DATA] && s'.keys == s.keys[id := NO_AI]
            && s'.flags == s.flags[id := Lifecycle.NOT_KILLED] && s'.local == s.local[s.data[id].team := NO_DATA]
            && s'.lua == s.lua && s'.initialized == s.initialized
            && s'.index == s.index - {id} && s'.num == (s.num - 1) % 256
  {
  }

  lemma RemoveKeeps(env: Env, n: nat, s: State, id: int)
    requires Invariant(env, n, s) && 0 <= id < n
    ensures s.data[id].Valid() ==> 0 <= s.data[id].team < n
    ensures Invariant(env, n, Remove(s, id).0)
  {
    assert EntryFits(env, n, s.initialized, s.lua, s.data[id], s.keys[id], s.flags[id]);
    assert EntryFits(env, n, s.initialized, s.lua, NO_DATA, NO_AI, Lifecycle.NOT_KILLED);
    if s.data[id].Valid() {
      RemoveFields(s, id);
      hide Finished, KeyFits, EntryFits, Remove, IndexAgrees;
      var s' := Remove(s, id).0;
      assert IndexAgrees(s') by { IndexKept(s, s', id); }
      EntriesKept(env, s, s', id);
    }
  }

  lemma LoadPreGameKeeps(env: Env, n: nat, s: State)
    requires Invariant(env, n, s)
    ensures Invariant(env, n, LoadedPreGame(env, s))
  {
    hide Finished, KeyFits, EntryFits, ValidIds;
    if !s.initialized {
      var lua := env.luaImpls;
      assert s.lua + env.luaImpls == lua;
      forall id | 0 <= id < n
        ensures var (d, k) := Finished(env, lua, s.data[id], s.keys[id]);
                EntryFits(env, n, true, lua, d, k, s.flags[id]) && d.Valid() == s.data[id].Valid()
      {
        assert EntryFits(env, n, false, s.lua, s.data[id], s.keys[id], s.flags[id]);
        UninitializedFits(env, n, s.lua, lua, s.data[id], s.keys[id], s.flags[id]);
        FinishedFits(env, n, lua, s.data[id], s.keys[id], false, s.flags[id]);
      }
      SameValid(s.data, LoadedPreGame(env, s).data);
    }
  }

  lemma UninitializedFits(env: Env, n: nat, lua: set<string>, lua': set<string>, d: Data, k: SkirmishKey, flag: int)
    requires EntryFits(env, n, false, lua, d, k, flag)
    ensures EntryFits(env, n, false, lua', d, k, flag)
  {
  }

  lemma CreateLocalKeeps(env: Env, n: nat, s: State, id: int)
    requires Invariant(env, n, s) && id in s.index
    ensures Invariant(env, n, CreateLocal(s, id))
  {
    var d := s.data[id];
    assert EntryFits(env, n, s.initialized, s.lua, d, s.keys[id], s.flags[id]);
    LuaFlagFits(env, n, s.initialized, s.lua, d, s.keys[id], s.flags[id]);
    hide Finished, KeyFits, EntryFits, ValidIds;
    SameValid(s.data, CreateLocal(s, id).data);
  }

  /** Starting a local AI hands its data over as that of its team's AI in creation, and changes no id. */
  lemma CreateLocalTables(env: Env, n: nat, s: State, id: int)
    requires Invariant(env, n, s) && id in s.index
    ensures var s', d := CreateLocal(s, id), s.data[id].(isLuaAI := s.data[id].shortName in s.lua);
            && s' == s.(data := s.data[id := d], local := s.local[d.team := d])
            && (s.initialized ==> s'.data == s.data)
  {
    var d := s.data[id];
    assert EntryFits(env, n, s.initialized, s.lua, d, s.keys[id], s.flags[id]);
    if s.initialized {
      FinishedFlag(env, s.lua, d, NO_AI);
      assert d.(isLuaAI := d.shortName in s.lua) == d;
    }
  }

  lemma LuaFlagFits(env: Env, n: nat, initialized: bool, lua: set<string>, d: Data, k: SkirmishKey, flag: int)
    requires EntryFits(env, n, initialized, lua, d, k, flag) && d.Valid()
    ensures EntryFits(env, n, initialized, lua, d.(isLuaAI := d.shortName in lua), k, flag)
  {
    if initialized {
      FinishedFlag(env, lua, d, NO_AI);
      assert d.(isLuaAI := d.shortName in lua) == d;
    }
  }

  lemma FinishedFlag(env: Env, lua: set<string>, d: Data, k: SkirmishKey)
    requires d.Valid()
    ensures Finished(env, lua, d, k).0.isLuaAI == (d.shortName in lua)
  {
    var k' := ResolvedKey(env, d, k);
    if d.shortName !in lua && IsLocal(env, d) && k' in env.options {
      DefaultsFillGaps(d.(isLuaAI := false), env.options[k'], "");
    }
  }

  // ----- refilling the tables from a saved game -----

  predicate TeamsExist(ds: seq<Data>) {
    forall i :: 0 <= i < |ds| && ds[i].Valid() ==> 0 <= ds[i].team < |ds|
  }

  /** The AIs of a saved game, added to an empty table. */
  function Restored(env: Env, ds: seq<Data>, n: nat): State
    requires n <= |ds|
    requires TeamsExist(ds)
    ensures Sized(Restored(env, ds, n), |ds|)
  {
    if n == 0 then ResetState(|ds|)
    else
      var s := Restored(env, ds, n - 1);
      if ds[n - 1].Valid() then Add(env, s, ds[n - 1], n - 1).0 else s
  }

  lemma {:induction false} RestoredData(env: Env, ds: seq<Data>, n: nat)
    requires n <= |ds| <= 255
    requires TeamsExist(ds)
    ensures var s := Restored(env, ds, n);
            && Invariant(env, |ds|, s) && !s.initialized
            && (forall i :: 0 <= i < |ds| ==> s.data[i] == (if i < n && ds[i].Valid() then ds[i] else NO_DATA))
            && (forall i :: 0 <= i < |ds| ==> s.flags[i] == Lifecycle.NOT_KILLED && s.keys[i] == NO_AI)
  {
    hide Invariant, Finished, Add, Complete, ValidIds;
    if n == 0 {
      ResetKeeps(env, |ds|);
    } else {
      RestoredData(env, ds, n - 1);
      var s := Restored(env, ds, n - 1);
      assert !s.data[n - 1].Valid();
      if ds[n - 1].Valid() {
        AddKeeps(env, |ds|, Restored(env, ds, n - 1), ds[n - 1], n - 1);
        AddFields(env, Restored(env, ds, n - 1), ds[n - 1], n - 1);
      }
    }
  }

  /** The tables after a saved game has been loaded. */
  function Reloaded(env: Env, ds: seq<Data>): State
    requires TeamsExist(ds)
  {
    LoadedPreGame(env, Restored(env, ds, |ds|))
  }

  lemma ReloadKeeps(env: Env, ds: seq<Data>)
    requires |ds| <= 255 && TeamsExist(ds)
    ensures Invariant(env, |ds|, Reloaded(env, ds))
  {
    RestoredData(env, ds, |ds|);
    LoadPreGameKeeps(env, |ds|, Restored(env, ds, |ds|));
  }

  // ----- runs -----

  datatype Step =
    | AddStep(data: Data, id: int)
    | RemoveStep(id: int)
    | LoadPreGameStep
    | CreateLocalStep(id: int)
    | KillStep(id: int, reason: int)
    | LoadGameStep(saved: seq<Data>)

  predicate Enabled(s: State, step: Step)
  {
    match step
    case AddStep(d, id) => CanAdd(s, d, id)
    case RemoveStep(id) => 0 <= id < |s.data|
    case LoadPreGameStep => true
    case CreateLocalStep(id) => id in s.index
    case KillStep(id, reason) => id in s.index
    case LoadGameStep(saved) => |saved| == |s.data| && TeamsExist(saved)
  }

  ghost function Apply(env: Env, n: nat, s: State, step: Step): (s': State)
    requires Invariant(env, n, s) && Enabled(s, step)
    ensures Invariant(env, n, s')
  {
    match step
    case AddStep(d, id) => AddKeeps(env, n, s, d, id); Add(env, s, d, id).0
    case RemoveStep(id) => RemoveKeeps(env, n, s, id); Remove(s, id).0
    case LoadPreGameStep => LoadPreGameKeeps(env, n, s); LoadedPreGame(env, s)
    case CreateLocalStep(id) => CreateLocalKeeps(env, n, s, id); CreateLocal(s, id)
    case KillStep(id, reason) => SetKillFlag(s, id, reason)
    case LoadGameStep(saved) => ReloadKeeps(env, saved); Reloaded(env, saved)
  }

  ghost predicate CanRun(env: Env, n: nat, s: State, steps: seq<Step>)
    requires Invariant(env, n, s)
    decreases |steps|
  {
    steps == [] || (Enabled(s, steps[0]) && CanRun(env, n, Apply(env, n, s, steps[0]), steps[1..]))
  }

  ghost function Run(env: Env, n: nat, s: State, steps: seq<Step>): (s': State)
    requires Invariant(env, n, s) && CanRun(env, n, s, steps)
    ensures Invariant(env, n, s')
    decreases |steps|
  {
    if steps == [] then s else Run(env, n, Apply(env, n, s, steps[0]), steps[1..])
  }

  /** After any run: the index has exactly the valid ids, and the counter is how many they are. */
  lemma EveryReachableIndexAgrees(env: Env, n: nat, steps: seq<Step>)
    requires n <= 255 && Invariant(env, n, ResetState(n)) && CanRun(env, n, ResetState(n), steps)
    ensures var s := Run(env, n, ResetState(n), steps);
            && s.index == (set id | 0 <= id < n && s.data[id].Valid())
            && s.num == |set id | 0 <= id < n && s.data[id].Valid()|
  {
    var s := Run(env, n, ResetState(n), steps);
    assert s.index == (set id | 0 <= id < n && s.data[id].Valid());
  }

  /** Adding an AI before or after the game is loaded makes no difference. */
  lemma AddAndLoadCommute(env: Env, s: State, d: Data, id: int)
    requires CanAdd(s, d, id)
    ensures Add(env, LoadedPreGame(env, s), d, id).0 == LoadedPreGame(env, Add(env, s, d, id).0)
    ensures Add(env, LoadedPreGame(env, s), d, id).1 == Add(env, s, d, id).1
  {
    forall i | 0 <= i < |s.data|
      ensures Finished(env, s.lua + env.luaImpls, s.data[i], s.keys[i]).0.Valid() == s.data[i].Valid()
    {
      FinishedKeepsOptions(env, s.lua + env.luaImpls, s.data[i], s.keys[i], "");
    }
    hide Finished;
    if !s.initialized && !s.data[id].Valid() {
      AddFields(env, s, d, id);
      AddFields(env, LoadedPreGame(env, s), d, id);
      hide Add;
      var a := Add(env, LoadedPreGame(env, s), d, id).0;
      var b := LoadedPreGame(env, Add(env, s, d, id).0);
      assert a.data == b.data;
      assert a.keys == b.keys;
    }
  }

  // ----- saved games -----

  /** What has been read from a saved game with an AI in it is not yet consistent. */
  lemma ReadStateNeedsPostLoad(env: Env, n: nat, s: State)
    requires Invariant(env, n, s) && s.index != {}
    ensures !Invariant(env, n, ResetState(n).(data := s.data, flags := s.flags))
  {
    assert ResetState(n).index == {};
  }

  /**
   * Loading a saved game gives back the same AIs, but every kill flag is gone even though it was saved:
   * the flags are given back exactly if none was set.
   */
  lemma LoadGivesBackTheTable(env: Env, n: nat, s: State)
    requires Invariant(env, n, s) && s.initialized
    ensures TeamsExist(s.data)
    ensures var s' := Reloaded(env, s.data);
            && Invariant(env, n, s')
            && s'.data == s.data && s'.index == s.index && s'.num == s.num
            && (forall i :: 0 <= i < n ==> s'.flags[i] == Lifecycle.NOT_KILLED)
            && (s'.flags == s.flags <==> forall i :: 0 <= i < n ==> s.flags[i] == Lifecycle.NOT_KILLED)
  {
    forall i | 0 <= i < n
      ensures s.data[i].Valid() ==>
              0 <= s.data[i].team < n && Finished(env, env.luaImpls, s.data[i], NO_AI).0 == s.data[i]
      ensures !s.data[i].Valid() ==> s.data[i] == NO_DATA
    {
      assert EntryFits(env, n, s.initialized, s.lua, s.data[i], s.keys[i], s.flags[i]);
    }
    RestoredData(env, s.data, n);
    var r := Restored(env, s.data, n);
    LoadPreGameKeeps(env, n, r);
    hide Restored, EntryFits, EntriesAgree, ValidIds;
    var s' := LoadedPreGame(env, r);
    assert r.lua + env.luaImpls == env.luaImpls;
    assert forall i :: 0 <= i < n ==> s'.data[i] == s.data[i];
    assert s'.data == s.data;
  }

  const NO_LIBRARIES := Env(0, (name, version) => NO_AI, map[], {})
  const SOLO := Data(0, 0, "ai", "ai", "1", [], map[], false)

  lemma RunThree(env: Env, n: nat, s: State, a: Step, b: Step, c: Step)
    requires Invariant(env, n, s) && Enabled(s, a)
    requires var s1 := Apply(env, n, s, a); Enabled(s1, b) && Enabled(Apply(env, n, s1, b), c)
    ensures CanRun(env, n, s, [a, b, c])
    ensures Run(env, n, s, [a, b, c]) == Apply(env, n, Apply(env, n, Apply(env, n, s, a), b), c)
  {
    hide Invariant, Enabled, Apply;
    var steps := [a, b, c];
    assert steps[1..] == [b, c] && [b, c][1..] == [c] && [c][1..] == [];
    var s1 := Apply(env, n, s, a);
    var s2 := Apply(env, n, s1, b);
    assert CanRun(env, n, s2, [c]);
    assert CanRun(env, n, s1, [b, c]);
    assert Run(env, n, s2, [c]) == Apply(env, n, s2, c);
  }

  /** An AI is added and flagged to be killed for reason 1; the game saved then is loaded without the flag. */
  lemma KillFlagIsLost()
    ensures var (env, steps) := (NO_LIBRARIES, [AddStep(SOLO, 0), LoadPreGameStep, KillStep(0, 1)]);
            && Invariant(env, 1, ResetState(1)) && CanRun(env, 1, ResetState(1), steps)
            && var s := Run(env, 1, ResetState(1), steps);
               && s.data == [SOLO] && s.flags == [1]
               && Reloaded(env, s.data).data == [SOLO] && Reloaded(env, s.data).flags == [Lifecycle.NOT_KILLED]
  {
    var env, s0 := NO_LIBRARIES, ResetState(1);
    ResetKeeps(env, 1);
    AddFields(env, s0, SOLO, 0);
    var s1 := Apply(env, 1, s0, AddStep(SOLO, 0));
    assert s1.data == [SOLO] && s1.flags == [Lifecycle.NOT_KILLED] && s1.index == {0};
    var s2 := Apply(env, 1, s1, LoadPreGameStep);
    assert s2.data == [SOLO] && s2.flags == [Lifecycle.NOT_KILLED] && s2.index == {0};
    RunThree(env, 1, s0, AddStep(SOLO, 0), LoadPreGameStep, KillStep(0, 1));
    LoadGivesBackTheTable(env, 1, Apply(env, 1, s2, KillStep(0, 1)));
  }

  // ----- the object -----

  class SkirmishAIHandler {
    const env: Env
    const data: array<Data>
    const keys: array<SkirmishKey>
    const local: array<Data>
    const flags: array<int>
    var index: set<int>
    var num: int
    var lua: set<string>
    var initialized: bool

    ghost function Abstract(): State
      reads this, data, keys, local, flags
    {
      State(data[..], keys[..], local[..], flags[..], index, num, lua, initialized)
    }

    ghost predicate Valid()
      reads this, data, keys, local, flags
    {
      data != local && Invariant(env, data.Length, Abstract())
    }

    /** Tables of one length, whatever is in them. */
    predicate Shaped() {
      data != local && keys.Length == local.Length == flags.Length == data.Length <= 255
    }

    constructor (env: Env, n: nat)
      requires n <= 255
      ensures Valid() && this.env == env && Abstract() == ResetState(n)
      ensures fresh(data) && fresh(keys) && fresh(local) && fresh(flags)
    {
      this.env := env;
      data := new Data[n](_ => NO_DATA);
      keys := new SkirmishKey[n](_ => NO_AI);
      local := new Data[n](_ => NO_DATA);
      flags := new int[n](_ => Lifecycle.NOT_KILLED);
      index, num, lua, initialized := {}, 0, {}, false;
      new;
      ResetKeeps(env, n);
      assert Abstract() == ResetState(n);
    }

    /** The loop that fills in missing options. */
    static method CompleteWithDefaultOptionValues(d: Data, options: seq<AIOption>) returns (r: Data)
      ensures r == WithDefaults(d, options)
    {
      r := d;
      for i := 0 to |options|
        invariant r == WithDefaults(d, options[..i])
      {
        assert options[..i + 1][..i] == options[..i];
        var option := options[i];
        if option.typeCode == OptError {
          continue;
        }
        if option.typeCode == OptSection {
          continue;
        }
        if option.key in r.options {
          continue;
        }
        r := r.(optionKeys := r.optionKeys + [option.key], options := r.options[option.key := option.default]);
      }
      assert options[..|options|] == options;
    }

    method CompleteSkirmishAI(id: nat)
      requires id < data.Length == keys.Length == local.Length == flags.Length && data != local
      modifies this, data, keys
      ensures Abstract() == Complete(env, old(Abstract()), id)
    {
      if !initialized {
        return;
      }
      if !data[id].Valid() {
        assert data[..] == old(data[..])[id := old(data[id])] && keys[..] == old(keys[..])[id := old(keys[id])];
        return;
      }
      var d := data[id].(isLuaAI := data[id].shortName in lua);
      data[id] := d;
      if d.isLuaAI || d.hostPlayer != env.me {
        assert keys[..] == old(keys[..])[id := old(keys[id])];
        return;
      }
      if keys[id].IsUnspecified() {
        keys[id] := env.resolve(d.shortName, d.version);
      }
      if keys[id] in env.options {
        data[id] := CompleteWithDefaultOptionValues(d, env.options[keys[id]]);
      }
    }

    method AddSkirmishAI(d: Data, id: nat) returns (ok: bool)
      requires Valid() && CanAdd(Abstract(), d, id)
      modifies this, data, keys, local
      ensures Valid()
      ensures (Abstract(), ok) == Add(env, old(Abstract()), d, id)
      ensures ok <==> !old(data[id]).Valid()
      ensures !ok ==> Abstract() == old(Abstract())
    {
      hide Invariant, Finished;
      ghost var s := Abstract();
      AddKeeps(env, data.Length, s, d, id);
      if data[id].Valid() {
        return false;
      }
      data[id] := d;
      local[d.team] := NO_DATA;
      index := index + {id};
      CompleteSkirmishAI(id);
      num := (num + 1) % 256;
      ok := true;
    }

    method RemoveSkirmishAI(id: nat) returns (ok: bool)
      requires Valid() && id < data.Length
      modifies this, data, keys, local, flags
      ensures Valid() && Sized(old(Abstract()), data.Length)
      ensures old(data[id]).Valid() ==> 0 <= old(data[id]).team < data.Length
      ensures (Abstract(), ok) == Remove(old(Abstract()), id)
      ensures ok <==> old(data[id]).Valid()
      ensures !ok ==> Abstract() == old(Abstract())
    {
      hide Finished, EntryFits, EntriesAgree, IndexAgrees, ValidIds;
      ghost var s := Abstract();
      RemoveKeeps(env, data.Length, s, id);
      assert Sized(s, data.Length);
      if !data[id].Valid() {
        return false;
      }
      RemoveFields(s, id);
      hide Invariant, Remove;
      ForgetEntry(id);
      index := index - {id};
      num := (num - 1) % 256;
      ok := true;
      assert Abstract() == Remove(s, id).0;
    }

    method ForgetEntry(id: nat)
      requires id < data.Length == keys.Length == local.Length == flags.Length && data != local
      requires 0 <= data[id].team < data.Length
      modifies data, keys, local, flags
      ensures data[..] == old(data[..])[id := NO_DATA] && keys[..] == old(keys[..])[id := NO_AI]
      ensures flags[..] == old(flags[..])[id := Lifecycle.NOT_KILLED]
      ensures local[..] == old(local[..])[old(data[id]).team := NO_DATA]
    {
      local[data[id].team] := NO_DATA;
      flags[id] := Lifecycle.NOT_KILLED;
      keys[id] := NO_AI;
      data[id] := NO_DATA;
    }

    method LoadPreGame()
      requires Valid()
      modifies this, data, keys
      ensures Valid() && Sized(old(Abstract()), data.Length)
      ensures Abstract() == LoadedPreGame(env, old(Abstract()))
    {
      ghost var s := Abstract();
      LoadPreGameKeeps(env, data.Length, s);
      assert Sized(s, data.Length);
      hide Invariant, Finished;
      if initialized {
        return;
      }
      lua := lua + env.luaImpls;
      initialized := true;
      for i := 0 to data.Length
        invariant Abstract() == s.(lua := lua, initialized := true, data := data[..], keys := keys[..])
        invariant lua == s.lua + env.luaImpls && initialized
        invariant forall j :: 0 <= j < i ==> (data[j], keys[j]) == Finished(env, lua, s.data[j], s.keys[j])
        invariant forall j :: i <= j < data.Length ==> data[j] == s.data[j] && keys[j] == s.keys[j]
      {
        CompleteSkirmishAI(i);
      }
      assert Abstract() == LoadedPreGame(env, s);
    }

    /**
     * Reads a saved game: only the data and the kill flags are saved, so until PostLoad has run the
     * index and the counter do not fit the data.
     */
    method Read(savedData: seq<Data>, savedFlags: seq<int>)
      requires Shaped() && |savedData| == |savedFlags| == data.Length
      requires TeamsExist(savedData)
      modifies this, data, keys, local, flags
      ensures Valid() && Abstract() == Reloaded(env, savedData)
    {
      Reset();
      for i := 0 to data.Length
        invariant forall j :: 0 <= j < i ==> data[j] == savedData[j] && flags[j] == savedFlags[j]
      {
        data[i], flags[i] := savedData[i], savedFlags[i];
      }
      assert data[..] == savedData;
      PostLoad();
    }

    /** The tables are emptied, refilled from the data that was read, and completed. */
    method PostLoad()
      requires Shaped()
      requires TeamsExist(data[..])
      modifies this, data, keys, local, flags
      ensures Valid()
      ensures Abstract() == Reloaded(env, old(data[..]))
    {
      var saved := data[..];
      Reset();
      Refill(saved);
      LoadPreGame();
    }

    method Refill(saved: seq<Data>)
      requires Valid() && Abstract() == ResetState(data.Length) && |saved| == data.Length
      requires TeamsExist(saved)
      modifies this, data, keys, local, flags
      ensures Valid() && Abstract() == Restored(env, saved, |saved|)
    {
      hide Invariant, Add, Finished, EntryFits;
      for i := 0 to data.Length
        invariant Valid() && Abstract() == Restored(env, saved, i)
      {
        if saved[i].Valid() {
          var ok := AddSkirmishAI(saved[i], i);
        }
      }
    }

    method Reset()
      requires Shaped()
      modifies this, data, keys, local, flags
      ensures Valid() && Abstract() == ResetState(data.Length)
    {
      ResetKeeps(env, data.Length);
      for i := 0 to data.Length
        invariant data.Length == keys.Length == local.Length == flags.Length
        invariant forall j :: 0 <= j < i ==>
                  data[j] == NO_DATA && keys[j] == NO_AI && local[j] == NO_DATA && flags[j] == Lifecycle.NOT_KILLED
      {
        data[i], keys[i], local[i], flags[i] := NO_DATA, NO_AI, NO_DATA, Lifecycle.NOT_KILLED;
      }
      index, num, lua, initialized := {}, 0, {}, false;
      assert Abstract() == ResetState(data.Length);
    }

    /** The AIs of a team, and of one host if a host is given, in ascending order. */
    method GetSkirmishAIsInTeam(team: int, host: int) returns (ids: seq<int>)
      requires Valid()
      ensures forall i, j :: 0 <= i < j < |ids| ==> ids[i] < ids[j]
      ensures forall id :: id in ids <==>
                0 <= id < data.Length && data[id].Valid() && data[id].team == team
                && (host < 0 || data[id].hostPlayer == host)
    {
      ids := [];
      var rest := index;
      assert forall id :: id in index <==> 0 <= id < data.Length && data[id].Valid();
      while rest != {}
        invariant rest <= index
        invariant forall i, j :: 0 <= i < j < |ids| ==> ids[i] < ids[j]
        invariant forall id :: id in ids <==>
                  id in index - rest && data[id].team == team && (host < 0 || data[id].hostPlayer == host)
        decreases |rest|
      {
        var id :| id in rest;
        rest := rest - {id};
        if data[id].team != team {
          continue;
        }
        if host >= 0 && data[id].hostPlayer != host {
          continue;
        }
        ids := Insert(id, ids);
      }
    }
  }

  /** One step of sorting. */
  function Insert(x: int, xs: seq<int>): (r: seq<int>)
    requires x !in xs && forall i, j :: 0 <= i < j < |xs| ==> xs[i] < xs[j]
    ensures forall i, j :: 0 <= i < j < |r| ==> r[i] < r[j]
    ensures forall y :: y in r <==> y == x || y in xs
  {
    if xs == [] then [x]
    else if x < xs[0] then [x] + xs
    else
      assert xs[0] in xs && forall y :: y in xs[1..] ==> xs[0] < y;
      var rest := Insert(x, xs[1..]);
      ConsAscends(xs[0], rest);
      [xs[0]] + rest
  }

  lemma ConsAscends(x: int, xs: seq<int>)
    requires forall i, j :: 0 <= i < j < |xs| ==> xs[i] < xs[j]
    requires forall y :: y in xs ==> x < y
    ensures forall i, j :: 0 <= i < j < |xs| + 1 ==> ([x] + xs)[i] < ([x] + xs)[j]
  {
    forall j | 0 <= j < |xs|
      ensures x < xs[j]
    {
      assert xs[j] in xs;
    }
  }
}
