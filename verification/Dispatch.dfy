/**
 * Who is told what: the loops that deliver unit events to the AIs, as lists of notices in the
 * order of delivery.
 */
module Dispatch {
  import Engine
  import opened Options

  /** A unit, with the ally teams that have it in line of sight or on radar. */
  datatype Unit = Unit(id: int, team: int, allyteam: int, inLos: set<int>, inRadar: set<int>)

  /** Alliances between ally teams, the ally team of every team, and the ally teams that see everything. */
  datatype World = World(allies: set<(int, int)>, allyTeams: seq<int>, globalLos: set<int>) {
    predicate Ally(a: int, b: int) { (a, b) in allies }

    predicate Sees(a: int, u: Unit) { a in globalLos || a in u.inLos || a in u.inRadar }

    /** A team is its own ally. */
    ghost predicate Reflexive() {
      forall k :: 0 <= k < |allyTeams| ==> Ally(allyTeams[k], allyTeams[k])
    }

    /** The unit's ally team is that of its team. */
    predicate Owns(u: Unit) { 0 <= u.team < |allyTeams| && u.allyteam == allyTeams[u.team] }
  }

  /** The AI tables: the team and the cheat setting of every wrapper, and the lists of AI ids. */
  datatype Tables = Tables(team: seq<int>, cheats: seq<bool>, teams: seq<seq<int>>, active: seq<int>)

  predicate Indexed(w: World, t: Tables, id: int) {
    0 <= id < |t.team| && |t.cheats| == |t.team| && 0 <= t.team[id] < |w.allyTeams|
  }

  ghost predicate Consistent(w: World, t: Tables) {
    && |w.allyTeams| == |t.teams|
    && Engine.NoDup(t.active)
    && (forall i :: 0 <= i < |t.active| ==> Indexed(w, t, t.active[i]))
    && (forall k :: 0 <= k < |t.teams| ==> Engine.NoDup(t.teams[k]))
    && (forall k, i :: 0 <= k < |t.teams| && 0 <= i < |t.teams[k]| ==> Indexed(w, t, t.teams[k][i]))
    && (forall k, id :: 0 <= k < |t.teams| ==>
          (id in t.teams[k] <==> id in t.active && Indexed(w, t, id) && t.team[id] == k))
  }

  /** The tables of every state of the engine that satisfies its invariant are consistent. */
  lemma EngineTablesAreConsistent(w: World, s: Engine.State, cheats: seq<bool>)
    requires Engine.ListsAgree(s) && |cheats| == |s.hosts| && |w.allyTeams| == |s.teams|
    ensures var teamIds := seq(|s.hosts|, i requires 0 <= i < |s.hosts| => s.hosts[i].teamId);
            Consistent(w, Tables(teamIds, cheats, s.teams, s.active))
  {
    forall k, i | 0 <= k < |s.teams| && 0 <= i < |s.teams[k]|
      ensures s.teams[k][i] in s.active && 0 <= s.teams[k][i] < |s.hosts|
    {
      Engine.MemberIsActive(s, k, s.teams[k][i]);
    }
  }

  datatype Direction = Direction(x: real, y: real, z: real)

  const NO_DIRECTION := Direction(0.0, 0.0, 0.0)

  /** A hit, with the directions between the two units as each side estimates them from the other's error position. */
  datatype Hit = Hit(damage: real, weapon: int, paralyzer: bool, seenByVictim: Direction, seenByAttacker: Direction)

  datatype Event =
    | UnitCreated(unit: int, builder: int)
    | EnemyCreated(unit: int)
    | UnitFinished(unit: int)
    | EnemyFinished(unit: int)
    | UnitDestroyed(unit: int, attacker: int, weapon: int)
    | EnemyDestroyed(unit: int, attacker: int)
    | UnitDamaged(unit: int, attacker: int, damage: real, dir: Direction, weapon: int, paralyzer: bool)
    | EnemyDamaged(unit: int, attacker: int, damage: real, dir: Direction, weapon: int, paralyzer: bool)
    | UnitGiven(unit: int, oldTeam: int, newTeam: int)
    | UnitCaptured(unit: int, oldTeam: int, newTeam: int)

  datatype Notice = Notice(ai: int, event: Event)

  const NOBODY := -1

  function IdOf(u: Option<Unit>): int {
    if u.Some? then u.value.id else NOBODY
  }

  // ----- what one AI hears -----

  datatype Rule =
    | Everyone(event: Event)
    | Enemies(event: Event, unit: Unit)
    | OwnerOfDestroyed(unit: Unit, attacker: Option<Unit>, weapon: int)
    | EnemyOfDestroyed(unit: Unit, attacker: Option<Unit>)
    | OwnerOfDamaged(unit: Unit, attacker: Option<Unit>, hit: Hit)
    | Attackers(unit: Unit, source: Unit, hit: Hit)
    | Given(unit: Unit, oldTeam: int, newTeam: int)
    | Captured(unit: Unit, oldTeam: int, newTeam: int)

  function AllyTeamOf(w: World, t: Tables, id: int): int
    requires Indexed(w, t, id)
  {
    w.allyTeams[t.team[id]]
  }

  /** A hostile unit is told of if the AI cheats or its ally team senses the unit. */
  predicate Notices(w: World, t: Tables, id: int, u: Unit)
    requires Indexed(w, t, id)
  {
    !w.Ally(AllyTeamOf(w, t, id), u.allyteam) && (t.cheats[id] || w.Sees(AllyTeamOf(w, t, id), u))
  }

  function VisibleAttacker(w: World, t: Tables, id: int, victim: Unit, attacker: Option<Unit>): int
    requires Indexed(w, t, id)
  {
    if attacker.Some? && (w.Sees(victim.allyteam, attacker.value) || t.cheats[id]) then attacker.value.id else NOBODY
  }

  predicate HearsOfTransfer(w: World, t: Tables, id: int, u: Unit, own: int, from: int, to: int)
    requires Indexed(w, t, id)
  {
    var a := AllyTeamOf(w, t, id);
    && (t.team[id] == own || (w.Ally(a, to) && !w.Ally(a, from)))
    && (w.Ally(a, from) || w.Ally(a, to) || t.cheats[id] || w.Sees(a, u))
  }

  function Hears(w: World, t: Tables, rule: Rule, id: int): Option<Event>
    requires Indexed(w, t, id)
    requires rule.Given? || rule.Captured? ==> 0 <= rule.oldTeam < |w.allyTeams|
  {
    match rule
    case Everyone(e) => Some(e)
    case Enemies(e, u) => if Notices(w, t, id, u) then Some(e) else None
    case OwnerOfDestroyed(u, attacker, weapon) =>
      Some(UnitDestroyed(u.id, VisibleAttacker(w, t, id, u, attacker), weapon))
    case EnemyOfDestroyed(u, attacker) =>
      if Notices(w, t, id, u) then
        var known := attacker.Some? && w.Ally(AllyTeamOf(w, t, id), attacker.value.allyteam);
        Some(EnemyDestroyed(u.id, if known then attacker.value.id else NOBODY))
      else None
    case OwnerOfDamaged(u, attacker, hit) =>
      var dir := if attacker.Some? then hit.seenByVictim else NO_DIRECTION;
      Some(UnitDamaged(u.id, VisibleAttacker(w, t, id, u, attacker), hit.damage, dir, hit.weapon, hit.paralyzer))
    case Attackers(u, source, hit) =>
      if w.Sees(source.allyteam, u) || t.cheats[id] then
        Some(EnemyDamaged(u.id, source.id, hit.damage, hit.seenByAttacker, hit.weapon, hit.paralyzer))
      else None
    case Given(u, oldTeam, newTeam) =>
      if HearsOfTransfer(w, t, id, u, newTeam, w.allyTeams[oldTeam], u.allyteam) then
        Some(UnitGiven(u.id, oldTeam, newTeam))
      else None
    case Captured(u, oldTeam, newTeam) =>
      if HearsOfTransfer(w, t, id, u, oldTeam, u.allyteam, w.allyTeams[oldTeam]) then
        Some(UnitCaptured(u.id, oldTeam, newTeam))
      else None
  }

  predicate Legal(w: World, t: Tables, rule: Rule, ids: seq<int>) {
    && (rule.Given? || rule.Captured? ==> 0 <= rule.oldTeam < |w.allyTeams|)
    && forall i :: 0 <= i < |ids| ==> Indexed(w, t, ids[i])
  }

  /** The notices that the listed AIs get, in order. */
  function Told(w: World, t: Tables, rule: Rule, ids: seq<int>): seq<Notice>
    requires Legal(w, t, rule, ids)
  {
    if ids == [] then []
    else
      var id := ids[|ids| - 1];
      var heard := Hears(w, t, rule, id);
      Told(w, t, rule, ids[..|ids| - 1]) + if heard.Some? then [Notice(id, heard.value)] else []
  }

  lemma {:induction false} ToldIff(w: World, t: Tables, rule: Rule, ids: seq<int>, n: Notice)
    requires Legal(w, t, rule, ids)
    ensures n in Told(w, t, rule, ids) <==>
            n.ai in ids && Indexed(w, t, n.ai) && Hears(w, t, rule, n.ai) == Some(n.event)
    decreases |ids|
  {
    if ids != [] {
      var front := ids[..|ids| - 1];
      assert ids == front + [ids[|ids| - 1]];
      ToldIff(w, t, rule, front, n);
    }
  }

  /** No AI gets two of these notices. */
  ghost predicate Once(notices: seq<Notice>) {
    forall i, j :: 0 <= i < j < |notices| ==> notices[i].ai != notices[j].ai
  }

  lemma {:induction false} ToldOnce(w: World, t: Tables, rule: Rule, ids: seq<int>)
    requires Legal(w, t, rule, ids) && Engine.NoDup(ids)
    ensures Once(Told(w, t, rule, ids))
    decreases |ids|
  {
    if ids != [] {
      var front := ids[..|ids| - 1];
      ToldOnce(w, t, rule, front);
      var told := Told(w, t, rule, front);
      forall i | 0 <= i < |told|
        ensures told[i].ai in front
      {
        ToldIff(w, t, rule, front, told[i]);
      }
    }
  }

  /** Two lists of notices whose receivers are never the same. */
  lemma OnceTogether(w: World, t: Tables, rule: Rule, ids: seq<int>, rule': Rule, ids': seq<int>)
    requires Legal(w, t, rule, ids) && Legal(w, t, rule', ids') && Engine.NoDup(ids) && Engine.NoDup(ids')
    requires forall id :: id in ids && id in ids' ==> Hears(w, t, rule, id).None? || Hears(w, t, rule', id).None?
    ensures Once(Told(w, t, rule, ids) + Told(w, t, rule', ids'))
  {
    ToldOnce(w, t, rule, ids);
    ToldOnce(w, t, rule', ids');
    var a, b := Told(w, t, rule, ids), Told(w, t, rule', ids');
    forall i, j | 0 <= i < |a| && 0 <= j < |b|
      ensures a[i].ai != b[j].ai
    {
      ToldIff(w, t, rule, ids, a[i]);
      ToldIff(w, t, rule', ids', b[j]);
    }
  }

  // ----- the notices of each occasion -----

  ghost predicate Ready(w: World, t: Tables, u: Unit) {
    Consistent(w, t) && 0 <= u.team < |t.teams|
  }

  ghost function CreatedNotices(w: World, t: Tables, u: Unit, builder: Option<Unit>): seq<Notice>
    requires Ready(w, t, u)
  {
    Told(w, t, Enemies(EnemyCreated(u.id), u), t.active) +
      Told(w, t, Everyone(UnitCreated(u.id, IdOf(builder))), t.teams[u.team])
  }

  ghost function FinishedNotices(w: World, t: Tables, u: Unit): seq<Notice>
    requires Ready(w, t, u)
  {
    Told(w, t, Enemies(EnemyFinished(u.id), u), t.active) + Told(w, t, Everyone(UnitFinished(u.id)), t.teams[u.team])
  }

  ghost function DestroyedNotices(w: World, t: Tables, u: Unit, attacker: Option<Unit>, weapon: int): seq<Notice>
    requires Ready(w, t, u)
  {
    Told(w, t, OwnerOfDestroyed(u, attacker, weapon), t.teams[u.team]) +
      Told(w, t, EnemyOfDestroyed(u, attacker), t.active)
  }

  ghost function DamagedNotices(w: World, t: Tables, u: Unit, attacker: Option<Unit>, hit: Hit): seq<Notice>
    requires Ready(w, t, u) && (attacker.Some? ==> Ready(w, t, attacker.value))
  {
    Told(w, t, OwnerOfDamaged(u, attacker, hit), t.teams[u.team])
    + if attacker.Some? && !w.Ally(attacker.value.allyteam, u.allyteam)
      then Told(w, t, Attackers(u, attacker.value, hit), t.teams[attacker.value.team])
      else []
  }

  /** Both steps of a change of team: the old owner's side before it, the new owner's after it. */
  ghost function TransferNotices(w: World, t: Tables, before: Unit, after: Unit,
      oldTeam: int, newTeam: int): seq<Notice>
    requires Consistent(w, t) && 0 <= oldTeam < |t.teams|
  {
    Told(w, t, Captured(before, oldTeam, newTeam), t.active) + Told(w, t, Given(after, oldTeam, newTeam), t.active)
  }

  // ----- the loops -----

  method DoForTeam(w: World, t: Tables, event: Event, team: int) returns (notices: seq<Notice>)
    requires Consistent(w, t) && 0 <= team < |t.teams|
    ensures notices == Told(w, t, Everyone(event), t.teams[team])
  {
    notices := [];
    var ids := t.teams[team];
    for i := 0 to |ids|
      invariant notices == Told(w, t, Everyone(event), ids[..i])
    {
      assert ids[..i + 1][..i] == ids[..i];
      notices := notices + [Notice(ids[i], event)];
    }
    assert ids[..|ids|] == ids;
  }

  method DoForEnemies(w: World, t: Tables, event: Event, u: Unit) returns (notices: seq<Notice>)
    requires Consistent(w, t)
    ensures notices == Told(w, t, Enemies(event, u), t.active)
  {
    notices := [];
    for i := 0 to |t.active|
      invariant notices == Told(w, t, Enemies(event, u), t.active[..i])
    {
      assert t.active[..i + 1][..i] == t.active[..i];
      var id := t.active[i];
      var aiAllyTeam := w.allyTeams[t.team[id]];
      if w.Ally(aiAllyTeam, u.allyteam) {
        continue;
      }
      if !t.cheats[id] && !w.Sees(aiAllyTeam, u) {
        continue;
      }
      notices := notices + [Notice(id, event)];
    }
    assert t.active[..|t.active|] == t.active;
  }

  method SendUnitCreated(w: World, t: Tables, u: Unit, builder: Option<Unit>) returns (notices: seq<Notice>)
    requires Ready(w, t, u)
    ensures notices == CreatedNotices(w, t, u, builder)
  {
    if t.active == [] {
      NobodyActive(w, t, u.team);
      return [];
    }
    var builderId := if builder.Some? then builder.value.id else NOBODY;
    var first := DoForEnemies(w, t, EnemyCreated(u.id), u);
    var second := DoForTeam(w, t, UnitCreated(u.id, builderId), u.team);
    return first + second;
  }

  method SendUnitFinished(w: World, t: Tables, u: Unit) returns (notices: seq<Notice>)
    requires Ready(w, t, u)
    ensures notices == FinishedNotices(w, t, u)
  {
    if t.active == [] {
      NobodyActive(w, t, u.team);
      return [];
    }
    var first := DoForEnemies(w, t, EnemyFinished(u.id), u);
    var second := DoForTeam(w, t, UnitFinished(u.id), u.team);
    return first + second;
  }

  lemma NobodyActive(w: World, t: Tables, k: int)
    requires Consistent(w, t) && t.active == [] && 0 <= k < |t.teams|
    ensures t.teams[k] == []
  {
    if t.teams[k] != [] {
      MembersAreActive(w, t, k);
    }
  }

  lemma MembersAreActive(w: World, t: Tables, k: int)
    requires Consistent(w, t) && 0 <= k < |t.teams| && t.teams[k] != []
    ensures t.active != []
  {
    assert t.teams[k][0] in t.teams[k];
  }

  /** The part for the AIs of the destroyed unit's own team. */
  method TellOwnersOfDeath(w: World, t: Tables, u: Unit, attacker: Option<Unit>, weapon: int)
      returns (notices: seq<Notice>)
    requires Ready(w, t, u)
    ensures notices == Told(w, t, OwnerOfDestroyed(u, attacker, weapon), t.teams[u.team])
  {
    notices := [];
    var ids := t.teams[u.team];
    var attackerInLosOrRadar := attacker.Some? && w.Sees(u.allyteam, attacker.value);
    for i := 0 to |ids|
      invariant notices == Told(w, t, OwnerOfDestroyed(u, attacker, weapon), ids[..i])
    {
      assert ids[..i + 1][..i] == ids[..i];
      var visibleAttackerId := NOBODY;
      if attackerInLosOrRadar || t.cheats[ids[i]] {
        visibleAttackerId := IdOf(attacker);
      }
      notices := notices + [Notice(ids[i], UnitDestroyed(u.id, visibleAttackerId, weapon))];
    }
    assert ids[..|ids|] == ids;
  }

  /** The part for the AIs of the damaged unit's own team. */
  method TellOwnersOfDamage(w: World, t: Tables, u: Unit, attacker: Option<Unit>, hit: Hit)
      returns (notices: seq<Notice>)
    requires Ready(w, t, u)
    ensures notices == Told(w, t, OwnerOfDamaged(u, attacker, hit), t.teams[u.team])
  {
    notices := [];
    var ids := t.teams[u.team];
    var attackeeDir := if attacker.Some? then hit.seenByVictim else NO_DIRECTION;
    var attackerInLosOrRadar := attacker.Some? && w.Sees(u.allyteam, attacker.value);
    for i := 0 to |ids|
      invariant notices == Told(w, t, OwnerOfDamaged(u, attacker, hit), ids[..i])
    {
      assert ids[..i + 1][..i] == ids[..i];
      var visibleAttackerId := NOBODY;
      if attackerInLosOrRadar || t.cheats[ids[i]] {
        visibleAttackerId := IdOf(attacker);
      }
      notices := notices +
        [Notice(ids[i], UnitDamaged(u.id, visibleAttackerId, hit.damage, attackeeDir, hit.weapon, hit.paralyzer))];
    }
    assert ids[..|ids|] == ids;
  }

  method SendUnitDestroyed(w: World, t: Tables, u: Unit, attacker: Option<Unit>, weapon: int)
      returns (notices: seq<Notice>)
    requires Ready(w, t, u)
    ensures notices == DestroyedNotices(w, t, u, attacker, weapon)
  {
    if t.active == [] {
      NobodyActive(w, t, u.team);
      return [];
    }
    var first := TellOwnersOfDeath(w, t, u, attacker, weapon);
    var second: seq<Notice> := [];
    for i := 0 to |t.active|
      invariant second == Told(w, t, EnemyOfDestroyed(u, attacker), t.active[..i])
    {
      assert t.active[..i + 1][..i] == t.active[..i];
      var id := t.active[i];
      var aiAllyTeam := w.allyTeams[t.team[id]];
      if w.Ally(aiAllyTeam, u.allyteam) {
        continue;
      }
      if !t.cheats[id] && !w.Sees(aiAllyTeam, u) {
        continue;
      }
      var myAttackerId := NOBODY;
      if attacker.Some? && w.Ally(aiAllyTeam, attacker.value.allyteam) {
        myAttackerId := attacker.value.id;
      }
      second := second + [Notice(id, EnemyDestroyed(u.id, myAttackerId))];
    }
    assert t.active[..|t.active|] == t.active;
    return first + second;
  }

  /** The part for the AIs of the attacker's team. */
  method TellAttackers(w: World, t: Tables, u: Unit, source: Unit, hit: Hit) returns (notices: seq<Notice>)
    requires Ready(w, t, source)
    ensures notices == Told(w, t, Attackers(u, source, hit), t.teams[source.team])
  {
    notices := [];
    var ids := t.teams[source.team];
    var damagedInLosOrRadar := w.Sees(source.allyteam, u);
    for i := 0 to |ids|
      invariant notices == Told(w, t, Attackers(u, source, hit), ids[..i])
    {
      assert ids[..i + 1][..i] == ids[..i];
      if !damagedInLosOrRadar && !t.cheats[ids[i]] {
        continue;
      }
      notices := notices +
        [Notice(ids[i], EnemyDamaged(u.id, source.id, hit.damage, hit.seenByAttacker, hit.weapon, hit.paralyzer))];
    }
    assert ids[..|ids|] == ids;
  }

  method SendUnitDamaged(w: World, t: Tables, u: Unit, attacker: Option<Unit>, hit: Hit) returns (notices: seq<Notice>)
    requires Ready(w, t, u) && (attacker.Some? ==> Ready(w, t, attacker.value))
    ensures notices == DamagedNotices(w, t, u, attacker, hit)
  {
    if t.active == [] {
      NobodyActive(w, t, u.team);
      if attacker.Some? {
        NobodyActive(w, t, attacker.value.team);
      }
      return [];
    }
    notices := TellOwnersOfDamage(w, t, u, attacker, hit);
    if attacker.None? {
      return;
    }
    var source := attacker.value;
    if w.Ally(source.allyteam, u.allyteam) {
      return;
    }
    var second := TellAttackers(w, t, u, source, hit);
    return notices + second;
  }

  method SendUnitCaptured(w: World, t: Tables, u: Unit, oldTeam: int, newTeam: int) returns (notices: seq<Notice>)
    requires Consistent(w, t) && 0 <= oldTeam < |t.teams|
    ensures notices == Told(w, t, Captured(u, oldTeam, newTeam), t.active)
  {
    notices := [];
    for i := 0 to |t.active|
      invariant notices == Told(w, t, Captured(u, oldTeam, newTeam), t.active[..i])
    {
      assert t.active[..i + 1][..i] == t.active[..i];
      var id := t.active[i];
      var aiAllyTeam := w.allyTeams[t.team[id]];
      var alliedOld := w.Ally(aiAllyTeam, w.allyTeams[oldTeam]);
      var alliedNew := w.Ally(aiAllyTeam, u.allyteam);
      var informAI := t.team[id] == oldTeam || (alliedOld && !alliedNew);
      if informAI {
        informAI := alliedOld || alliedNew || t.cheats[id] || w.Sees(aiAllyTeam, u);
      }
      if !informAI {
        continue;
      }
      notices := notices + [Notice(id, UnitCaptured(u.id, oldTeam, newTeam))];
    }
    assert t.active[..|t.active|] == t.active;
  }

  method SendUnitGiven(w: World, t: Tables, u: Unit, oldTeam: int, newTeam: int) returns (notices: seq<Notice>)
    requires Consistent(w, t) && 0 <= oldTeam < |t.teams|
    ensures notices == Told(w, t, Given(u, oldTeam, newTeam), t.active)
  {
    notices := [];
    for i := 0 to |t.active|
      invariant notices == Told(w, t, Given(u, oldTeam, newTeam), t.active[..i])
    {
      assert t.active[..i + 1][..i] == t.active[..i];
      var id := t.active[i];
      var aiAllyTeam := w.allyTeams[t.team[id]];
      var alliedOld := w.Ally(aiAllyTeam, w.allyTeams[oldTeam]);
      var alliedNew := w.Ally(aiAllyTeam, u.allyteam);
      var informAI := t.team[id] == newTeam || (alliedNew && !alliedOld);
      if informAI {
        informAI := alliedOld || alliedNew || t.cheats[id] || w.Sees(aiAllyTeam, u);
      }
      if !informAI {
        continue;
      }
      notices := notices + [Notice(id, UnitGiven(u.id, oldTeam, newTeam))];
    }
    assert t.active[..|t.active|] == t.active;
  }

  // ----- nobody is told twice -----

  /** One occasion, one notice: so no AI gets both UnitDestroyed and EnemyDestroyed for one death. */
  lemma ToldOfOccasionOnce(w: World, t: Tables, u: Unit, attacker: Option<Unit>, weapon: int)
    requires Ready(w, t, u) && w.Reflexive() && w.Owns(u)
    ensures Once(CreatedNotices(w, t, u, attacker))
    ensures Once(FinishedNotices(w, t, u))
    ensures Once(DestroyedNotices(w, t, u, attacker, weapon))
  {
    forall id | id in t.teams[u.team]
      ensures Indexed(w, t, id) && !Notices(w, t, id, u)
    {
    }
    OnceTogether(w, t, Enemies(EnemyCreated(u.id), u), t.active,
      Everyone(UnitCreated(u.id, IdOf(attacker))), t.teams[u.team]);
    OnceTogether(w, t, Enemies(EnemyFinished(u.id), u), t.active, Everyone(UnitFinished(u.id)), t.teams[u.team]);
    OnceTogether(w, t, OwnerOfDestroyed(u, attacker, weapon), t.teams[u.team], EnemyOfDestroyed(u, attacker), t.active);
  }

  lemma ToldOfDamageOnce(w: World, t: Tables, u: Unit, attacker: Option<Unit>, hit: Hit)
    requires Ready(w, t, u) && w.Reflexive() && w.Owns(u)
    requires attacker.Some? ==> Ready(w, t, attacker.value) && w.Owns(attacker.value)
    ensures Once(DamagedNotices(w, t, u, attacker, hit))
  {
    if attacker.Some? && !w.Ally(attacker.value.allyteam, u.allyteam) {
      assert attacker.value.team != u.team;
      OnceTogether(w, t, OwnerOfDamaged(u, attacker, hit), t.teams[u.team],
                   Attackers(u, attacker.value, hit), t.teams[attacker.value.team]);
    } else {
      ToldOnce(w, t, OwnerOfDamaged(u, attacker, hit), t.teams[u.team]);
    }
  }

  // ----- who is told -----

  ghost function Receivers(notices: seq<Notice>): set<int> {
    set n | n in notices :: n.ai
  }

  lemma ReceiversOf(w: World, t: Tables, rule: Rule, ids: seq<int>, id: int)
    requires Legal(w, t, rule, ids)
    ensures id in Receivers(Told(w, t, rule, ids)) <==> id in ids && Indexed(w, t, id) && Hears(w, t, rule, id).Some?
  {
    var told := Told(w, t, rule, ids);
    if id in Receivers(told) {
      var n :| n in told && n.ai == id;
      ToldIff(w, t, rule, ids, n);
    }
    if id in ids && Indexed(w, t, id) && Hears(w, t, rule, id).Some? {
      ToldIff(w, t, rule, ids, Notice(id, Hears(w, t, rule, id).value));
    }
  }

  lemma ReceiversOfBoth(w: World, t: Tables, rule: Rule, ids: seq<int>, rule': Rule, ids': seq<int>, id: int)
    requires Legal(w, t, rule, ids) && Legal(w, t, rule', ids') && Indexed(w, t, id)
    ensures id in Receivers(Told(w, t, rule, ids) + Told(w, t, rule', ids')) <==>
              (id in ids && Hears(w, t, rule, id).Some?) || (id in ids' && Hears(w, t, rule', id).Some?)
  {
    ReceiversOf(w, t, rule, ids, id);
    ReceiversOf(w, t, rule', ids', id);
    var a, b := Told(w, t, rule, ids), Told(w, t, rule', ids');
    assert Receivers(a + b) == Receivers(a) + Receivers(b);
  }

  /** The own team's AIs are told, and exactly those hostile AIs that sense the unit or cheat; allies are not. */
  lemma WhoIsTold(w: World, t: Tables, u: Unit, attacker: Option<Unit>, weapon: int, id: int)
    requires Ready(w, t, u) && id in t.active && Indexed(w, t, id)
    ensures var a := w.allyTeams[t.team[id]];
            var senses := a in w.globalLos || a in u.inLos || a in u.inRadar;
            var told := t.team[id] == u.team || ((a, u.allyteam) !in w.allies && (t.cheats[id] || senses));
            && (id in Receivers(CreatedNotices(w, t, u, attacker)) <==> told)
            && (id in Receivers(FinishedNotices(w, t, u)) <==> told)
            && (id in Receivers(DestroyedNotices(w, t, u, attacker, weapon)) <==> told)
  {
    hide Receivers, Told;
    ReceiversOfBoth(w, t, Enemies(EnemyCreated(u.id), u), t.active,
      Everyone(UnitCreated(u.id, IdOf(attacker))), t.teams[u.team], id);
    ReceiversOfBoth(w, t, Enemies(EnemyFinished(u.id), u), t.active, Everyone(UnitFinished(u.id)), t.teams[u.team], id);
    ReceiversOfBoth(w, t, OwnerOfDestroyed(u, attacker, weapon), t.teams[u.team],
      EnemyOfDestroyed(u, attacker), t.active, id);
    assert id in t.teams[u.team] <==> t.team[id] == u.team;
  }

  /** Of damage, the attacker's own team is told instead of all enemies. */
  lemma WhoIsToldOfDamage(w: World, t: Tables, u: Unit, attacker: Option<Unit>, hit: Hit, id: int)
    requires Ready(w, t, u) && id in t.active && Indexed(w, t, id)
    requires attacker.Some? ==> Ready(w, t, attacker.value) && w.Owns(attacker.value)
    ensures id in Receivers(DamagedNotices(w, t, u, attacker, hit)) <==>
              t.team[id] == u.team
              || (attacker.Some? && t.team[id] == attacker.value.team
                  && !w.Ally(attacker.value.allyteam, u.allyteam)
                  && (t.cheats[id] || w.Sees(attacker.value.allyteam, u)))
  {
    hide Receivers, Told;
    assert id in t.teams[u.team] <==> t.team[id] == u.team;
    if attacker.Some? && !w.Ally(attacker.value.allyteam, u.allyteam) {
      ReceiversOfBoth(w, t, OwnerOfDamaged(u, attacker, hit), t.teams[u.team],
                      Attackers(u, attacker.value, hit), t.teams[attacker.value.team], id);
      assert id in t.teams[attacker.value.team] <==> t.team[id] == attacker.value.team;
    } else {
      var told := Told(w, t, OwnerOfDamaged(u, attacker, hit), t.teams[u.team]);
      assert told + [] == told;
      ReceiversOf(w, t, OwnerOfDamaged(u, attacker, hit), t.teams[u.team], id);
    }
  }

  // ----- what they are told -----

  /** The own team hears of its unit and of the builder, whoever may see that one; the others of an enemy. */
  lemma WhatIsToldOfCreation(w: World, t: Tables, u: Unit, builder: Option<Unit>, n: Notice)
    requires Ready(w, t, u) && w.Reflexive() && w.Owns(u) && n in CreatedNotices(w, t, u, builder)
    ensures Indexed(w, t, n.ai)
    ensures n.event == if t.team[n.ai] != u.team then EnemyCreated(u.id)
                       else UnitCreated(u.id, if builder.Some? then builder.value.id else -1)
  {
    ToldIff(w, t, Enemies(EnemyCreated(u.id), u), t.active, n);
    ToldIff(w, t, Everyone(UnitCreated(u.id, IdOf(builder))), t.teams[u.team], n);
  }

  lemma WhatIsToldOfCompletion(w: World, t: Tables, u: Unit, n: Notice)
    requires Ready(w, t, u) && w.Reflexive() && w.Owns(u) && n in FinishedNotices(w, t, u)
    ensures Indexed(w, t, n.ai)
    ensures n.event == if t.team[n.ai] == u.team then UnitFinished(u.id) else EnemyFinished(u.id)
  {
    ToldIff(w, t, Enemies(EnemyFinished(u.id), u), t.active, n);
    ToldIff(w, t, Everyone(UnitFinished(u.id)), t.teams[u.team], n);
  }

  /** A notice names this unit, or nobody if the condition fails. */
  predicate Names(named: int, u: Option<Unit>, condition: bool) {
    named == if u.Some? && condition then u.value.id else NOBODY
  }

  /**
   * The own team is told the attacker if and only if its ally team senses that one or the AI cheats;
   * the others, if and only if the attacker is an ally.
   */
  lemma WhatIsToldOfDeath(w: World, t: Tables, u: Unit, attacker: Option<Unit>, weapon: int, n: Notice)
    requires Ready(w, t, u) && n in DestroyedNotices(w, t, u, attacker, weapon)
    ensures Indexed(w, t, n.ai) && (n.event.UnitDestroyed? || n.event.EnemyDestroyed?)
    ensures w.Reflexive() && w.Owns(u) ==> (n.event.UnitDestroyed? <==> t.team[n.ai] == u.team)
    ensures n.event.UnitDestroyed? ==>
              && n.event.unit == u.id && n.event.weapon == weapon
              && Names(n.event.attacker, attacker,
                       attacker.Some? && (w.Sees(u.allyteam, attacker.value) || t.cheats[n.ai]))
    ensures n.event.EnemyDestroyed? ==>
              && n.event.unit == u.id
              && Names(n.event.attacker, attacker,
                       attacker.Some? && w.Ally(AllyTeamOf(w, t, n.ai), attacker.value.allyteam))
    ensures n.event.UnitDestroyed? && IsUnit(attacker) ==>
              (n.event.attacker != NOBODY <==>
                 attacker.Some? && (w.Sees(u.allyteam, attacker.value) || t.cheats[n.ai]))
  {
    ToldIff(w, t, OwnerOfDestroyed(u, attacker, weapon), t.teams[u.team], n);
    ToldIff(w, t, EnemyOfDestroyed(u, attacker), t.active, n);
  }

  /** The same for damage: who did it as for a death; how much, from where and with what in full, to both sides. */
  lemma WhatIsToldOfDamage(w: World, t: Tables, u: Unit, attacker: Option<Unit>, hit: Hit, n: Notice)
    requires Ready(w, t, u) && (attacker.Some? ==> Ready(w, t, attacker.value))
    requires n in DamagedNotices(w, t, u, attacker, hit)
    ensures Indexed(w, t, n.ai)
    ensures w.Reflexive() && w.Owns(u) && (attacker.Some? ==> w.Owns(attacker.value)) ==>
              && (n.event.UnitDamaged? <==> t.team[n.ai] == u.team)
              && (n.event.EnemyDamaged? <==> t.team[n.ai] != u.team)
    ensures (n.event.UnitDamaged? || n.event.EnemyDamaged?)
            && n.event.unit == u.id && n.event.damage == hit.damage
            && n.event.weapon == hit.weapon && n.event.paralyzer == hit.paralyzer
    ensures n.event.UnitDamaged? ==>
              && Names(n.event.attacker, attacker,
                       attacker.Some? && (w.Sees(u.allyteam, attacker.value) || t.cheats[n.ai]))
              && n.event.dir == if attacker.Some? then hit.seenByVictim else NO_DIRECTION
    ensures n.event.EnemyDamaged? ==>
              && attacker.Some? && n.event.attacker == attacker.value.id && n.event.dir == hit.seenByAttacker
    ensures n.event.UnitDamaged? && IsUnit(attacker) ==>
              (n.event.attacker != NOBODY <==>
                 attacker.Some? && (w.Sees(u.allyteam, attacker.value) || t.cheats[n.ai]))
  {
    ToldIff(w, t, OwnerOfDamaged(u, attacker, hit), t.teams[u.team], n);
    if attacker.Some? {
      ToldIff(w, t, Attackers(u, attacker.value, hit), t.teams[attacker.value.team], n);
    }
  }

  /** Both steps of a change of team carry the unit and both teams. */
  lemma WhatIsToldOfTransfer(w: World, t: Tables, before: Unit, after: Unit, oldTeam: int, newTeam: int, n: Notice)
    requires IsTransfer(w, t, before, after, oldTeam, newTeam)
    requires n in TransferNotices(w, t, before, after, oldTeam, newTeam)
    ensures n in Told(w, t, Captured(before, oldTeam, newTeam), t.active) ==>
              n.event == UnitCaptured(after.id, oldTeam, newTeam)
    ensures n in Told(w, t, Given(after, oldTeam, newTeam), t.active) ==>
              n.event == UnitGiven(after.id, oldTeam, newTeam)
  {
    ToldIff(w, t, Captured(before, oldTeam, newTeam), t.active, n);
    ToldIff(w, t, Given(after, oldTeam, newTeam), t.active, n);
  }

  // ----- what is given away -----

  /** An AI may know of its allies' units, of units that its ally team senses, and of everything if it cheats. */
  predicate MayKnow(w: World, t: Tables, id: int, u: Unit) {
    Indexed(w, t, id) && (t.cheats[id] || w.Ally(AllyTeamOf(w, t, id), u.allyteam) || w.Sees(AllyTeamOf(w, t, id), u))
  }

  predicate IsUnit(u: Option<Unit>) {
    u.Some? ==> u.value.id >= 0
  }

  lemma OnlyKnownUnits(w: World, t: Tables, u: Unit, builder: Option<Unit>, n: Notice)
    requires Ready(w, t, u) && w.Reflexive() && w.Owns(u)
    requires n in CreatedNotices(w, t, u, builder) || n in FinishedNotices(w, t, u)
    ensures n.event.unit == u.id && MayKnow(w, t, n.ai, u)
  {
    ToldIff(w, t, Enemies(EnemyCreated(u.id), u), t.active, n);
    ToldIff(w, t, Everyone(UnitCreated(u.id, IdOf(builder))), t.teams[u.team], n);
    ToldIff(w, t, Enemies(EnemyFinished(u.id), u), t.active, n);
    ToldIff(w, t, Everyone(UnitFinished(u.id)), t.teams[u.team], n);
  }

  /** The attacker's id is handed out only to those that may know of the attacker. */
  lemma OnlyKnownAttackers(w: World, t: Tables, u: Unit, attacker: Option<Unit>, weapon: int, n: Notice)
    requires Ready(w, t, u) && w.Reflexive() && w.Owns(u) && IsUnit(attacker)
    requires n in DestroyedNotices(w, t, u, attacker, weapon)
    ensures n.event.UnitDestroyed? || n.event.EnemyDestroyed?
    ensures n.event.unit == u.id && MayKnow(w, t, n.ai, u)
    ensures n.event.attacker == NOBODY ||
            (attacker.Some? && n.event.attacker == attacker.value.id && MayKnow(w, t, n.ai, attacker.value))
  {
    ToldIff(w, t, OwnerOfDestroyed(u, attacker, weapon), t.teams[u.team], n);
    ToldIff(w, t, EnemyOfDestroyed(u, attacker), t.active, n);
  }

  lemma OnlyKnownDamagers(w: World, t: Tables, u: Unit, attacker: Option<Unit>, hit: Hit, n: Notice)
    requires Ready(w, t, u) && w.Reflexive() && w.Owns(u) && IsUnit(attacker)
    requires attacker.Some? ==> Ready(w, t, attacker.value) && w.Owns(attacker.value)
    requires n in DamagedNotices(w, t, u, attacker, hit)
    ensures n.event.UnitDamaged? || n.event.EnemyDamaged?
    ensures n.event.unit == u.id && MayKnow(w, t, n.ai, u)
    ensures n.event.attacker == NOBODY ||
            (attacker.Some? && n.event.attacker == attacker.value.id && MayKnow(w, t, n.ai, attacker.value))
  {
    ToldIff(w, t, OwnerOfDamaged(u, attacker, hit), t.teams[u.team], n);
    if attacker.Some? {
      ToldIff(w, t, Attackers(u, attacker.value, hit), t.teams[attacker.value.team], n);
    }
  }

  ghost predicate BuilderKept(w: World, t: Tables, u: Unit, builder: Option<Unit>)
    requires Ready(w, t, u)
  {
    builder.Some? ==>
      forall n :: n in CreatedNotices(w, t, u, builder) && n.event.UnitCreated? ==> MayKnow(w, t, n.ai, builder.value)
  }

  /**
   * The id of the builder goes to the new unit's team unfiltered: exactly when it is one of theirs, sensed, or
   * all cheat, does this give nothing away.
   */
  lemma BuilderKeptIff(w: World, t: Tables, u: Unit, builder: Option<Unit>)
    requires Ready(w, t, u) && w.Owns(u)
    ensures BuilderKept(w, t, u, builder) <==>
              || builder.None?
              || w.Ally(u.allyteam, builder.value.allyteam)
              || w.Sees(u.allyteam, builder.value)
              || (forall i :: 0 <= i < |t.teams[u.team]| ==> t.cheats[t.teams[u.team][i]])
  {
    if builder.Some? {
      var e := UnitCreated(u.id, IdOf(builder));
      var ids := t.teams[u.team];
      forall n | n in CreatedNotices(w, t, u, builder) && n.event.UnitCreated?
        ensures n.ai in ids && t.team[n.ai] == u.team
      {
        ToldIff(w, t, Enemies(EnemyCreated(u.id), u), t.active, n);
        ToldIff(w, t, Everyone(e), ids, n);
      }
      forall i | 0 <= i < |ids|
        ensures Notice(ids[i], e) in CreatedNotices(w, t, u, builder) && t.team[ids[i]] == u.team
      {
        assert ids[i] in ids;
        ToldIff(w, t, Everyone(e), ids, Notice(ids[i], e));
      }
    }
  }

  /** So the id can reach a team that neither is allied with the builder nor senses it. */
  lemma BuilderIsGivenAway()
    ensures var w := World({(0, 0), (1, 1)}, [0, 1], {});
            var t := Tables([0], [false], [[0], []], [0]);
            var u, builder := Unit(7, 0, 0, {0}, {0}), Unit(9, 1, 1, {1}, {1});
            Ready(w, t, u) && w.Reflexive() && w.Owns(u) && w.Owns(builder) && !BuilderKept(w, t, u, Some(builder))
  {
    var w := World({(0, 0), (1, 1)}, [0, 1], {});
    var t := Tables([0], [false], [[0], []], [0]);
    var u, builder := Unit(7, 0, 0, {0}, {0}), Unit(9, 1, 1, {1}, {1});
    assert t.teams[0] == [0] && t.teams[1] == [];
    assert !t.cheats[t.teams[u.team][0]];
    BuilderKeptIff(w, t, u, Some(builder));
  }

  // ----- changes of team -----

  /** The unit before and after a change of team; the first step may see the old or the new ally team. */
  ghost predicate IsTransfer(w: World, t: Tables, before: Unit, after: Unit, oldTeam: int, newTeam: int) {
    && Consistent(w, t) && w.Reflexive()
    && 0 <= oldTeam < |t.teams| && 0 <= newTeam < |t.teams|
    && before.id == after.id
    && after.allyteam == w.allyTeams[newTeam]
    && before.allyteam in {w.allyTeams[oldTeam], w.allyTeams[newTeam]}
  }

  /** Whom each step reaches, and the same AI in both steps only if the old team is the new one. */
  lemma WhoIsToldOfTransfer(w: World, t: Tables, before: Unit, after: Unit, oldTeam: int, newTeam: int, id: int)
    requires IsTransfer(w, t, before, after, oldTeam, newTeam) && id in t.active && Indexed(w, t, id)
    ensures var a := AllyTeamOf(w, t, id);
            var withOld, withNew := w.Ally(a, w.allyTeams[oldTeam]), w.Ally(a, w.allyTeams[newTeam]);
            var captured := id in Receivers(Told(w, t, Captured(before, oldTeam, newTeam), t.active));
            var given := id in Receivers(Told(w, t, Given(after, oldTeam, newTeam), t.active));
            && (given <==> t.team[id] == newTeam || (withNew && !withOld))
            && (before.allyteam == w.allyTeams[oldTeam] ==> (captured <==> t.team[id] == oldTeam))
            && (before.allyteam == w.allyTeams[newTeam] ==>
                  (captured <==> t.team[id] == oldTeam || (withOld && !withNew)))
            && (captured && given <==> t.team[id] == oldTeam && oldTeam == newTeam)
  {
    ReceiversOf(w, t, Captured(before, oldTeam, newTeam), t.active, id);
    ReceiversOf(w, t, Given(after, oldTeam, newTeam), t.active, id);
  }

  /** Some AI is told twice exactly if a team with an AI gives a unit to itself. */
  lemma ToldOfTransferOnce(w: World, t: Tables, before: Unit, after: Unit, oldTeam: int, newTeam: int)
    requires IsTransfer(w, t, before, after, oldTeam, newTeam)
    ensures Once(TransferNotices(w, t, before, after, oldTeam, newTeam)) <==>
            oldTeam != newTeam || t.teams[oldTeam] == []
  {
    var captured, given := Captured(before, oldTeam, newTeam), Given(after, oldTeam, newTeam);
    if oldTeam != newTeam || t.teams[oldTeam] == [] {
      forall id | id in t.active
        ensures Indexed(w, t, id) && (Hears(w, t, captured, id).None? || Hears(w, t, given, id).None?)
      {
        assert id in t.teams[oldTeam] <==> t.team[id] == oldTeam;
      }
      OnceTogether(w, t, captured, t.active, given, t.active);
    } else {
      var id := t.teams[oldTeam][0];
      assert id in t.teams[oldTeam];
      var first := Notice(id, UnitCaptured(before.id, oldTeam, newTeam));
      var second := Notice(id, UnitGiven(after.id, oldTeam, newTeam));
      ToldIff(w, t, captured, t.active, first);
      ToldIff(w, t, given, t.active, second);
      TwiceTogether(Told(w, t, captured, t.active), Told(w, t, given, t.active), first, second);
    }
  }

  lemma TwiceTogether(a: seq<Notice>, b: seq<Notice>, m: Notice, n: Notice)
    requires m in a && n in b && m.ai == n.ai
    ensures !Once(a + b)
  {
    var i :| 0 <= i < |a| && a[i] == m;
    var j :| 0 <= j < |b| && b[j] == n;
    assert (a + b)[i] == m && (a + b)[|a| + j] == n;
  }

  /** An AI allied with both sides, but of neither team, hears nothing of the change. */
  lemma AlliesOfBothHearNothing(w: World, t: Tables, before: Unit, after: Unit, oldTeam: int, newTeam: int, id: int)
    requires IsTransfer(w, t, before, after, oldTeam, newTeam) && id in t.active && Indexed(w, t, id)
    requires w.Ally(AllyTeamOf(w, t, id), w.allyTeams[oldTeam]) && w.Ally(AllyTeamOf(w, t, id), w.allyTeams[newTeam])
    requires t.team[id] != oldTeam && t.team[id] != newTeam
    ensures id !in Receivers(TransferNotices(w, t, before, after, oldTeam, newTeam))
  {
    WhoIsToldOfTransfer(w, t, before, after, oldTeam, newTeam, id);
  }
}
