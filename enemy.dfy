/** Enemies (enemy.rs): bats that wait until they see the player and then
    chase them for good. */
module Enemy {
  import opened World

  const BAT_CHASE_SPEED: real := 3.0
  const BAT_SPOT_RANGE: real := 8.0

  /** Enemy::bat: a bat starts passive. */
  function NewBat(): (b: Enemy)
    ensures !b.isActive
  {
    Bat(false)
  }

  /** What the physics world tells one bat this step: its distance to the
      player, the unit direction towards them, and the collision layer of
      the first collider a ray cast from the bat towards the player hits
      within that distance (None when it hits nothing). */
  datatype Sight = Sight(distance: real, direction: Vec2, firstHit: Option<Layer>)

  /** The entity an enemy becomes when spawned at `pos`. */
  function EnemyRecord(enemy: Enemy, pos: Vec2): (r: Record)
    ensures r.enemy == Some(enemy) && r.pose == Some(Pose(pos, 0.0))
    ensures r.body == Some(Resolved(Body(Particle(1.0, true), Vec2(0.0, 0.0))))
    ensures r.collider == Some(Collider(Circle(0.25), EnemyLayer, false))
    ensures r.breakable.None? && r.player.None?
  {
    Bare.(
      enemy := Some(enemy),
      pose := Some(Pose(pos, 0.0)),
      body := Some(Resolved(Body(Particle(1.0, true), Vec2(0.0, 0.0)))),
      collider := Some(Collider(Circle(0.25), EnemyLayer, false)),
      mesh := Some(BombMesh))
  }

  /** Enemy::spawn. */
  method Spawn(enemy: Enemy, w: World, pos: Vec2) returns (e: Entity)
    requires w.Valid()
    modifies w
    ensures w.Valid() && w.dead == old(w.dead)
    ensures w.records == old(w.records) + [EnemyRecord(enemy, pos)]
    ensures e == |old(w.records)| && w.State().Has(e)
  {
    var pose := Pose(pos, 0.0);
    var body := Resolved(Body(Particle(1.0, true), Vec2(0.0, 0.0)));
    var coll := Collider(Circle(0.25), EnemyLayer, false);
    e := w.Spawn(Bare.(enemy := Some(enemy), pose := Some(pose), body := Some(body), collider := Some(coll), mesh := Some(BombMesh)));
  }

  /** The entities the loop of Enemy::tick visits: live, with an Enemy, a
      Pose and a BodyKey. */
  predicate IsEnemy(s: Store, e: Entity) {
    s.Has(e) && s.records[e].enemy.Some? && s.records[e].pose.Some? && s.records[e].body.Some?
  }

  /** The query for the player's Pose succeeds. */
  predicate PlayerPlaced(s: Store, player: Entity) {
    s.Has(player) && s.records[player].pose.Some?
  }

  /** One bat's step: a stale body key skips it; an active bat flies at the
      player; a passive bat within range becomes active when the player's
      collider is the first thing its ray hits. */
  function BatStep(r: Record, sight: Sight): (r': Record)
    requires r.enemy.Some? && r.body.Some?
    ensures r'.enemy.Some? && r'.body.Some? && (r.body.value.Resolved? <==> r'.body.value.Resolved?)
    ensures r'.pose == r.pose && r'.collider == r.collider && r'.mesh == r.mesh
    ensures r'.breakable == r.breakable && r'.player == r.player
    ensures r.enemy.value.isActive ==> r'.enemy == r.enemy
  {
    match r.body.value
    case Stale => r
    case Resolved(body) =>
      match r.enemy.value
      case Bat(isActive) =>
        if isActive then
          r.(body := Some(Resolved(body.(velocity := Vec2(sight.direction.x * BAT_CHASE_SPEED, sight.direction.y * BAT_CHASE_SPEED)))))
        else if sight.distance <= BAT_SPOT_RANGE then
          match sight.firstHit
          case None => r
          case Some(layer) => if layer == PlayerLayer then r.(enemy := Some(Bat(true))) else r
        else r
  }

  /** Enemy::tick on the world `s`; `look(e)` is what enemy `e` senses. */
  function Ticked(s: Store, player: Entity, look: Entity -> Sight): (s': Store)
    ensures |s'.records| == |s.records| && s'.dead == s.dead
  {
    if PlayerPlaced(s, player) then
      s.(records := seq(|s.records|, e requires 0 <= e < |s.records| =>
        if IsEnemy(s, e) then BatStep(s.records[e], look(e)) else s.records[e]))
    else s
  }

  /** Enemy::tick. */
  method Tick(w: World, player: Entity, look: Entity -> Sight)
    requires w.Valid()
    modifies w
    ensures w.Valid()
    ensures w.State() == Ticked(old(w.State()), player, look)
  {
    if !(w.State().Has(player) && w.records[player].pose.Some?) {
      return;
    }
    ghost var s0 := w.State();
    for e := 0 to |w.records|
      invariant w.Valid() && w.dead == s0.dead && |w.records| == |s0.records|
      invariant forall j :: 0 <= j < |w.records| ==>
        w.records[j] == if j < e && IsEnemy(s0, j) then BatStep(s0.records[j], look(j)) else s0.records[j]
    {
      if w.State().Has(e) && w.records[e].enemy.Some? && w.records[e].pose.Some? && w.records[e].body.Some? {
        BatVisit(w, e, look(e));
      }
    }
    assert w.records == Ticked(s0, player, look).records;
  }

  /** The body of the loop of Enemy::tick for enemy `e`. */
  method BatVisit(w: World, e: Entity, sight: Sight)
    requires w.Valid() && IsEnemy(w.State(), e)
    modifies w
    ensures w.Valid() && w.dead == old(w.dead)
    ensures w.records == old(w.records)[e := BatStep(old(w.records[e]), sight)]
  {
    var r := w.records[e];
    match r.body.value
    case Stale =>
      assert w.records[e := r] == w.records;
    case Resolved(body) =>
      match r.enemy.value
      case Bat(isActive) =>
        if isActive {
          var v := Vec2(sight.direction.x * BAT_CHASE_SPEED, sight.direction.y * BAT_CHASE_SPEED);
          w.Update(e, r.(body := Some(Resolved(body.(velocity := v)))));
        } else if sight.distance <= BAT_SPOT_RANGE {
          match sight.firstHit
          case None =>
            assert w.records[e := r] == w.records;
          case Some(layer) =>
            if layer == PlayerLayer {
              w.Update(e, r.(enemy := Some(Bat(true))));
            } else {
              assert w.records[e := r] == w.records;
            }
        } else {
          assert w.records[e := r] == w.records;
        }
  }

  // ---------------------------------------------------------------------
  // Properties

  /** What one step does to a bat, case by case: it never deactivates; an
      active bat keeps its state and gets the chase velocity; a passive bat
      keeps its body, and becomes active exactly when it is within range
      and its ray first hits the player. */
  lemma BatStepCases(r: Record, sight: Sight)
    requires r.enemy.Some? && r.body.Some? && r.body.value.Resolved?
    ensures var r' := BatStep(r, sight);
      r'.enemy.Some? && r'.body.Some? && r'.body.value.Resolved? &&
      r'.pose == r.pose && r'.collider == r.collider && r'.breakable == r.breakable && r'.player == r.player &&
      (r.enemy.value.isActive ==>
        r'.enemy == r.enemy &&
        r'.body.value.body.velocity == Vec2(3.0 * sight.direction.x, 3.0 * sight.direction.y) &&
        r'.body.value.body.kind == r.body.value.body.kind) &&
      (!r.enemy.value.isActive ==>
        r'.body == r.body &&
        (r'.enemy.value.isActive <==> sight.distance <= 8.0 && sight.firstHit == Some(PlayerLayer)))
  {
  }

  /** A bat whose body key is stale is left as it is. */
  lemma StaleSkipped(r: Record, sight: Sight)
    requires r.enemy.Some? && r.body == Some(Stale)
    ensures BatStep(r, sight) == r
  {
  }

  /** One tick rewrites only the enemies, and none of them if the player
      has no pose; nothing is spawned or removed. */
  lemma TickedFrame(s: Store, player: Entity, look: Entity -> Sight, e: Entity)
    requires e < |s.records|
    ensures var s' := Ticked(s, player, look);
      |s'.records| == |s.records| && s'.dead == s.dead &&
      (!PlayerPlaced(s, player) ==> s' == s) &&
      (!IsEnemy(s, e) ==> s'.records[e] == s.records[e]) &&
      (PlayerPlaced(s, player) && IsEnemy(s, e) ==> s'.records[e] == BatStep(s.records[e], look(e)))
  {
  }

  /** Ticks in sequence; looks[i] is what the enemies sense on tick i. */
  function Run(s: Store, player: Entity, looks: seq<Entity -> Sight>): Store
    decreases |looks|
  {
    if looks == [] then s else Run(Ticked(s, player, looks[0]), player, looks[1..])
  }

  /** Once a bat is active it stays active, however many ticks follow. */
  lemma {:induction false} OnceActiveAlwaysActive(s: Store, player: Entity, looks: seq<Entity -> Sight>, e: Entity)
    requires s.Has(e) && s.records[e].enemy == Some(Bat(true))
    ensures Run(s, player, looks).Has(e)
    ensures Run(s, player, looks).records[e].enemy == Some(Bat(true))
    decreases |looks|
  {
    if looks != [] {
      var next := Ticked(s, player, looks[0]);
      TickedFrame(s, player, looks[0], e);
      if PlayerPlaced(s, player) && IsEnemy(s, e) && s.records[e].body.value.Resolved? {
        BatStepCases(s.records[e], looks[0](e));
      }
      OnceActiveAlwaysActive(next, player, looks[1..], e);
    }
  }

  /** A passive bat that stays out of range, or whose ray never first hits
      the player, stays passive however many ticks follow. */
  lemma {:induction false} UnseenStaysPassive(s: Store, player: Entity, looks: seq<Entity -> Sight>, e: Entity)
    requires s.Has(e) && s.records[e].enemy == Some(Bat(false))
    requires forall i :: 0 <= i < |looks| ==> looks[i](e).distance > 8.0 || looks[i](e).firstHit != Some(PlayerLayer)
    ensures Run(s, player, looks).Has(e)
    ensures Run(s, player, looks).records[e].enemy == Some(Bat(false))
    decreases |looks|
  {
    if looks != [] {
      var next := Ticked(s, player, looks[0]);
      TickedFrame(s, player, looks[0], e);
      if PlayerPlaced(s, player) && IsEnemy(s, e) && s.records[e].body.value.Resolved? {
        BatStepCases(s.records[e], looks[0](e));
      }
      assert forall i :: 0 <= i < |looks[1..]| ==> looks[1..][i] == looks[i + 1];
      UnseenStaysPassive(next, player, looks[1..], e);
    }
  }
}
