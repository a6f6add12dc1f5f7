/** The spike roller (spike_roller.rs): a bar of spikes across the level that
    follows the camera up, never down, and destroys what it touches. */
module SpikeRoller {
  import opened World
  import Level

  datatype SpikeRoller = SpikeRoller(entity: Entity)

  datatype TickResult = TickResult(playerHit: bool)

  /** TickResult::default. */
  const NoHit: TickResult := TickResult(false)

  /** What a tick does to the world, and what it reports. */
  datatype Outcome = Outcome(store: Store, playerHit: bool)

  /** How far below the camera's centre the roller sits: half a view, less half a tile. */
  function TargetHeight(cameraY: real): real {
    cameraY - Level.VIEW_HEIGHT / 2.0 + 0.5
  }

  /** The roller's entity when spawned. Its kinematic body is registered
      with the physics set only and is not one of the entity's components. */
  function RollerRecord(): (r: Record)
    ensures r.pose == Some(Pose(Vec2(10.0, -6.5), 0.0))
    ensures r.collider == Some(Collider(Rect(20.0, 1.0), SpikeRollerLayer, true))
    ensures r.breakable.None? && r.player.None? && r.enemy.None?
  {
    Bare.(
      pose := Some(Pose(Vec2(Level.LEVEL_WIDTH / 2.0, -Level.VIEW_HEIGHT / 2.0 + 0.5), 0.0)),
      collider := Some(Collider(Rect(Level.LEVEL_WIDTH, 1.0), SpikeRollerLayer, true)),
      mesh := Some(SpikeRollerMesh))
  }

  /** SpikeRoller::spawn. */
  method Spawn(w: World) returns (roller: SpikeRoller)
    requires w.Valid()
    modifies w
    ensures w.Valid() && w.dead == old(w.dead)
    ensures w.records == old(w.records) + [RollerRecord()]
    ensures roller.entity == |old(w.records)| && w.State().Has(roller.entity)
  {
    var pose := Pose(Vec2(Level.LEVEL_WIDTH / 2.0, -Level.VIEW_HEIGHT / 2.0 + 0.5), 0.0);
    var coll := Collider(Rect(Level.LEVEL_WIDTH, 1.0), SpikeRollerLayer, true);
    var entity := w.Spawn(Bare.(pose := Some(pose), collider := Some(coll), mesh := Some(SpikeRollerMesh)));
    roller := SpikeRoller(entity);
  }

  // ---------------------------------------------------------------------
  // The specification of a tick

  /** The query for (Pose, ColliderKey) on the roller succeeds. */
  predicate Present(s: Store, e: Entity) {
    s.Has(e) && s.records[e].pose.Some? && s.records[e].collider.Some?
  }

  /** The roller after it has caught up with the camera. */
  function Rise(s: Store, e: Entity, cameraY: real): (s': Store)
    requires Present(s, e)
    ensures |s'.records| == |s.records| && s'.dead == s.dead && Present(s', e)
    ensures forall j :: 0 <= j < |s.records| && j != e ==> s'.records[j] == s.records[j]
    ensures var p, p' := s.records[e].pose.value, s'.records[e].pose.value;
      p'.position.y >= p.position.y && p'.position.y >= TargetHeight(cameraY) &&
      (p'.position.y == p.position.y || p'.position.y == TargetHeight(cameraY)) &&
      p'.position.x == p.position.x && p'.depth == p.depth
    ensures s'.records[e].(pose := s.records[e].pose) == s.records[e]
  {
    var r := s.records[e];
    var p := r.pose.value;
    if TargetHeight(cameraY) > p.position.y then
      s.(records := s.records[e := r.(pose := Some(p.(position := p.position.(y := TargetHeight(cameraY)))))])
    else s
  }

  function Min(a: real, b: real): real {
    if a < b then a else b
  }

  /** A tile the roller touches starts breaking, with at most 0.25 left. */
  function Clamp(b: BreakableTile): (c: BreakableTile)
    ensures c.isBreaking && c.blocksBullets == b.blocksBullets
    ensures c.timeToBreak <= 0.25 && c.timeToBreak <= b.timeToBreak
    ensures c.timeToBreak == 0.25 || c.timeToBreak == b.timeToBreak
  {
    b.(isBreaking := true, timeToBreak := Min(b.timeToBreak, 0.25))
  }

  /** The query for a BreakableTile on `e` succeeds. */
  predicate IsTile(s: Store, e: Entity) {
    s.Has(e) && s.records[e].breakable.Some?
  }

  function ClampTile(s: Store, e: Entity): Store
    requires IsTile(s, e)
  {
    var r := s.records[e];
    s.(records := s.records[e := r.(breakable := Some(Clamp(r.breakable.value)))])
  }

  /** Despawning whose failure is ignored: a handle that is not alive
      leaves the world as it was. */
  function Kill(s: Store, e: Entity): Store {
    if s.Has(e) then s.(dead := s.dead + {e}) else s
  }

  /** The loop over the roller's contacts; None is a contact whose collider
      has no entity. */
  function Sweep(s: Store, contacts: seq<Option<Entity>>, player: Entity): (o: Outcome)
    ensures |o.store.records| == |s.records| && s.dead <= o.store.dead
    ensures s.Valid() ==> o.store.Valid()
    decreases |contacts|
  {
    if contacts == [] then Outcome(s, false)
    else
      match contacts[0]
      case None => Sweep(s, contacts[1..], player)
      case Some(ent) =>
        if IsTile(s, ent) then Sweep(ClampTile(s, ent), contacts[1..], player)
        else if ent == player then Outcome(s, true)
        else Sweep(Kill(s, ent), contacts[1..], player)
  }

  /** SpikeRoller::tick on the world `s`: nothing happens without the
      roller's pose and collider; otherwise the roller rises, then sweeps. */
  function Ticked(s: Store, roller: SpikeRoller, cameraY: real, player: Entity, contacts: seq<Option<Entity>>): (o: Outcome)
    ensures |o.store.records| == |s.records| && s.dead <= o.store.dead
    ensures s.Valid() ==> o.store.Valid()
  {
    if Present(s, roller.entity) then Sweep(Rise(s, roller.entity, cameraY), contacts, player)
    else Outcome(s, false)
  }

  /** SpikeRoller::tick. `contacts` are the contacts of the roller's
      collider, already mapped to entities, in the order the physics world
      lists them. */
  method Tick(roller: SpikeRoller, w: World, camera: Camera, player: Entity, contacts: seq<Option<Entity>>)
    returns (result: TickResult)
    requires w.Valid()
    modifies w
    ensures w.Valid()
    ensures var o := Ticked(old(w.State()), roller, old(camera.y), player, contacts);
      w.State() == o.store && result.playerHit == o.playerHit
  {
    if !Present(w.State(), roller.entity) {
      return NoHit;
    }
    var r := w.records[roller.entity];
    var pose := r.pose.value;
    var targetHeight := camera.y - Level.VIEW_HEIGHT / 2.0 + 0.5;
    if targetHeight > pose.position.y {
      w.Update(roller.entity, r.(pose := Some(pose.(position := pose.position.(y := targetHeight)))));
    }
    ghost var risen := w.State();

    for i := 0 to |contacts|
      invariant w.Valid()
      invariant Sweep(w.State(), contacts[i..], player) == Sweep(risen, contacts, player)
    {
      assert contacts[i..][0] == contacts[i] && contacts[i..][1..] == contacts[i + 1..];
      match contacts[i]
      case None =>
      case Some(ent) =>
        if w.State().Has(ent) && w.records[ent].breakable.Some? {
          var tile := w.records[ent].breakable.value;
          tile := tile.(isBreaking := true);
          tile := tile.(timeToBreak := Min(tile.timeToBreak, 0.25));
          w.Update(ent, w.records[ent].(breakable := Some(tile)));
        } else if ent == player {
          return TickResult(true);
        } else {
          var _ := w.Despawn(ent);
        }
    }
    return NoHit;
  }

  // ---------------------------------------------------------------------
  // Properties

  /** The entities named by some contact. */
  function Touched(contacts: seq<Option<Entity>>): (t: set<Entity>)
    ensures forall e :: e in t <==> Some(e) in contacts
    decreases |contacts|
  {
    if contacts == [] then {}
    else
      assert contacts == [contacts[0]] + contacts[1..];
      (match contacts[0] case None => {} case Some(e) => {e}) + Touched(contacts[1..])
  }

  /** The effect of a sweep that meets no player, stated all at once: every
      live tile touched is clamped, every other live entity touched is
      removed, and nothing else changes. */
  function Swept(s: Store, touched: set<Entity>): Store {
    Store(
      seq(|s.records|, e requires 0 <= e < |s.records| =>
        if e in touched && IsTile(s, e) then s.records[e].(breakable := Some(Clamp(s.records[e].breakable.value)))
        else s.records[e]),
      s.dead + set e | e in touched && 0 <= e < |s.records| && e !in s.dead && s.records[e].breakable.None?)
  }

  /** Without a player contact the order of the contacts does not matter:
      the sweep is the all-at-once effect of the entities touched. */
  lemma {:induction false} SweepIsSwept(s: Store, contacts: seq<Option<Entity>>, player: Entity)
    requires Some(player) !in contacts
    ensures Sweep(s, contacts, player) == Outcome(Swept(s, Touched(contacts)), false)
    decreases |contacts|
  {
    if contacts == [] {
      assert Swept(s, {}).records == s.records;
      assert Swept(s, {}).dead == s.dead;
    } else {
      var rest := contacts[1..];
      assert Some(player) !in rest by {
        forall k | 0 <= k < |rest| ensures rest[k] != Some(player) {
          assert rest[k] == contacts[k + 1];
        }
      }
      match contacts[0]
      case None =>
        assert Touched(contacts) == Touched(rest);
        SweepIsSwept(s, rest, player);
      case Some(ent) =>
        assert Touched(contacts) == {ent} + Touched(rest);
        if IsTile(s, ent) {
          SweepIsSwept(ClampTile(s, ent), rest, player);
          SweptAfterClamp(s, ent, Touched(rest));
        } else {
          assert ent != player;
          SweepIsSwept(Kill(s, ent), rest, player);
          SweptAfterKill(s, ent, Touched(rest));
        }
    }
  }

  lemma SweptAfterClamp(s: Store, ent: Entity, t: set<Entity>)
    requires IsTile(s, ent)
    ensures Swept(ClampTile(s, ent), t) == Swept(s, {ent} + t)
  {
    var a, b := Swept(ClampTile(s, ent), t), Swept(s, {ent} + t);
    forall e | 0 <= e < |s.records| ensures a.records[e] == b.records[e] {
    }
    assert a.records == b.records;
    assert a.dead == b.dead;
  }

  lemma SweptAfterKill(s: Store, ent: Entity, t: set<Entity>)
    requires !IsTile(s, ent)
    ensures Swept(Kill(s, ent), t) == Swept(s, {ent} + t)
  {
    var a, b := Swept(Kill(s, ent), t), Swept(s, {ent} + t);
    forall e | 0 <= e < |s.records| ensures a.records[e] == b.records[e] {
    }
    assert a.records == b.records;
    assert a.dead == b.dead;
  }

  /** A sweep reports a hit exactly when the player is among the contacts,
      provided the player is not itself a breakable tile. */
  lemma {:induction false} HitIffPlayerContact(s: Store, contacts: seq<Option<Entity>>, player: Entity)
    requires !IsTile(s, player)
    ensures Sweep(s, contacts, player).playerHit <==> Some(player) in contacts
    decreases |contacts|
  {
    if contacts != [] {
      var rest := contacts[1..];
      assert contacts == [contacts[0]] + rest;
      match contacts[0]
      case None =>
        HitIffPlayerContact(s, rest, player);
      case Some(ent) =>
        if IsTile(s, ent) {
          HitIffPlayerContact(ClampTile(s, ent), rest, player);
        } else if ent != player {
          HitIffPlayerContact(Kill(s, ent), rest, player);
        }
    }
  }

  /** The sweep stops at the first player contact: the contacts after it are
      never looked at, and the world is what the contacts before it made it. */
  lemma {:induction false} StopsAtPlayer(s: Store, contacts: seq<Option<Entity>>, player: Entity, i: nat)
    requires !IsTile(s, player)
    requires i < |contacts| && contacts[i] == Some(player) && Some(player) !in contacts[..i]
    ensures Sweep(s, contacts, player) == Outcome(Sweep(s, contacts[..i], player).store, true)
    ensures !Sweep(s, contacts[..i], player).playerHit
    decreases i
  {
    var prefix := contacts[..i];
    if i > 0 {
      var rest := contacts[1..];
      assert rest[..i - 1] == prefix[1..];
      assert prefix[0] == contacts[0];
      assert Some(player) !in prefix[1..];
      match contacts[0]
      case None =>
        StopsAtPlayer(s, rest, player, i - 1);
      case Some(ent) =>
        assert ent != player;
        if IsTile(s, ent) {
          StopsAtPlayer(ClampTile(s, ent), rest, player, i - 1);
        } else {
          StopsAtPlayer(Kill(s, ent), rest, player, i - 1);
        }
    }
  }

  /** A live breakable tile survives the sweep; its timer never grows and
      its bullet blocking is kept. */
  lemma {:induction false} TilesSurvive(s: Store, contacts: seq<Option<Entity>>, player: Entity, e: Entity)
    requires IsTile(s, e)
    ensures var s' := Sweep(s, contacts, player).store;
      IsTile(s', e) &&
      s'.records[e].breakable.value.timeToBreak <= s.records[e].breakable.value.timeToBreak &&
      s'.records[e].breakable.value.blocksBullets == s.records[e].breakable.value.blocksBullets &&
      (s.records[e].breakable.value.isBreaking ==> s'.records[e].breakable.value.isBreaking)
    decreases |contacts|
  {
    if contacts != [] {
      var rest := contacts[1..];
      match contacts[0]
      case None =>
        TilesSurvive(s, rest, player, e);
      case Some(ent) =>
        if IsTile(s, ent) {
          TilesSurvive(ClampTile(s, ent), rest, player, e);
        } else if ent != player {
          TilesSurvive(Kill(s, ent), rest, player, e);
        }
    }
  }

  /** Only a sweep contact removes an entity, and never a tile or the player. */
  lemma {:induction false} RemovedWereContacted(s: Store, contacts: seq<Option<Entity>>, player: Entity, e: Entity)
    requires s.Has(e) && !Sweep(s, contacts, player).store.Has(e)
    ensures Some(e) in contacts && e != player && s.records[e].breakable.None?
    decreases |contacts|
  {
    var rest := contacts[1..];
    assert contacts == [contacts[0]] + rest;
    match contacts[0]
    case None =>
      RemovedWereContacted(s, rest, player, e);
    case Some(ent) =>
      if ent != e {
        if IsTile(s, ent) {
          RemovedWereContacted(ClampTile(s, ent), rest, player, e);
        } else {
          RemovedWereContacted(Kill(s, ent), rest, player, e);
        }
      } else if IsTile(s, ent) {
        TilesSurvive(s, contacts, player, e);
      }
  }

  /** A sweep only rewrites breakable tiles. */
  lemma {:induction false} SweepKeepsOthers(s: Store, contacts: seq<Option<Entity>>, player: Entity, e: Entity)
    requires e < |s.records| && s.records[e].breakable.None?
    ensures Sweep(s, contacts, player).store.records[e] == s.records[e]
    decreases |contacts|
  {
    if contacts != [] {
      var rest := contacts[1..];
      match contacts[0]
      case None =>
        SweepKeepsOthers(s, rest, player, e);
      case Some(ent) =>
        if IsTile(s, ent) {
          SweepKeepsOthers(ClampTile(s, ent), rest, player, e);
        } else if ent != player {
          SweepKeepsOthers(Kill(s, ent), rest, player, e);
        }
    }
  }

  /** A sweep touches nothing but break timers and liveness. */
  lemma {:induction false} SweepKeepsComponents(s: Store, contacts: seq<Option<Entity>>, player: Entity, e: Entity)
    requires e < |s.records|
    ensures var r, r' := s.records[e], Sweep(s, contacts, player).store.records[e];
      r'.player == r.player && r'.body == r.body && r'.enemy == r.enemy && r'.pose == r.pose
    decreases |contacts|
  {
    if contacts != [] {
      var rest := contacts[1..];
      match contacts[0]
      case None =>
        SweepKeepsComponents(s, rest, player, e);
      case Some(ent) =>
        if IsTile(s, ent) {
          SweepKeepsComponents(ClampTile(s, ent), rest, player, e);
        } else if ent != player {
          SweepKeepsComponents(Kill(s, ent), rest, player, e);
        }
    }
  }

  /** A tick moves the roller and touches break timers and liveness, and
      nothing else. */
  lemma TickKeepsComponents(s: Store, roller: SpikeRoller, cameraY: real, player: Entity, contacts: seq<Option<Entity>>, e: Entity)
    requires e < |s.records|
    ensures var r, r' := s.records[e], Ticked(s, roller, cameraY, player, contacts).store.records[e];
      r'.player == r.player && r'.body == r.body && r'.enemy == r.enemy
  {
    if Present(s, roller.entity) {
      SweepKeepsComponents(Rise(s, roller.entity, cameraY), contacts, player, e);
    }
  }

  /** After a tick the roller is at the higher of where it was and where the
      camera puts it; a tick whose roller handle is dead, or lacks its pose
      or collider, changes nothing and reports no hit. */
  lemma RollerRises(s: Store, roller: SpikeRoller, cameraY: real, player: Entity, contacts: seq<Option<Entity>>)
    requires s.Has(roller.entity) ==> s.records[roller.entity].breakable.None?
    ensures var o := Ticked(s, roller, cameraY, player, contacts);
      if Present(s, roller.entity) then
        var before := s.records[roller.entity];
        var after := o.store.records[roller.entity];
        after.pose.Some? &&
        after.pose.value.position.y ==
          (if TargetHeight(cameraY) > before.pose.value.position.y then TargetHeight(cameraY) else before.pose.value.position.y) &&
        after.pose.value.position.y >= before.pose.value.position.y &&
        after.pose.value.position.x == before.pose.value.position.x
      else o == Outcome(s, false)
  {
    if Present(s, roller.entity) {
      SweepKeepsOthers(Rise(s, roller.entity, cameraY), contacts, player, roller.entity);
    }
  }

  /** The roller is spawned where a camera at height 0 would put it; the
      game's camera starts at height 3, so the first tick lifts the roller
      3 rows, from -6.5 to -3.5. */
  lemma FirstTickLiftsRoller()
    ensures TargetHeight(3.0) == -3.5 && RollerRecord().pose.value.position.y == -6.5
    ensures TargetHeight(3.0) > RollerRecord().pose.value.position.y
  {
  }
}
