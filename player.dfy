/** The player controller (player.rs): horizontal movement from the arrow
    keys, a jump on the jump key, and a camera that follows the player up. */
module Player {
  import opened World

  const PLAYER_MASS: real := 1.0
  const MAX_XSPEED: real := 5.0
  const JUMP_YSPEED: real := 10.0

  /** PlayerState::default. */
  const DefaultState: PlayerState := PlayerState(true)

  /** The player's collider (defined with the assets; no layer is set on it). */
  const PlayerCollider: Collider := Collider(RoundedRect(0.8, 1.0, 0.1), DefaultLayer, false)

  /** The entity the player becomes when spawned. */
  function PlayerRecord(): (r: Record)
    ensures r.player == Some(PlayerState(true))
    ensures r.pose == Some(Pose(Vec2(0.5, 0.5), 0.0))
    ensures r.body == Some(Resolved(Body(Particle(1.0, false), Vec2(0.0, 0.0))))
    ensures r.breakable.None? && r.enemy.None?
  {
    Bare.(
      player := Some(DefaultState),
      pose := Some(Pose(Vec2(0.5, 0.5), 0.0)),
      collider := Some(PlayerCollider),
      body := Some(Resolved(Body(Particle(PLAYER_MASS, false), Vec2(0.0, 0.0)))),
      mesh := Some(PlayerMesh))
  }

  /** spawn: the player always starts at the bottom left of the level. */
  method Spawn(w: World) returns (e: Entity)
    requires w.Valid()
    modifies w
    ensures w.Valid() && w.dead == old(w.dead)
    ensures w.records == old(w.records) + [PlayerRecord()]
    ensures e == |old(w.records)| && w.State().Has(e)
  {
    var state := DefaultState;
    var pose := Pose(Vec2(0.5, 0.5), 0.0);
    var body := Resolved(Body(Particle(PLAYER_MASS, false), Vec2(0.0, 0.0)));
    e := w.Spawn(Bare.(player := Some(state), pose := Some(pose), collider := Some(PlayerCollider), body := Some(body), mesh := Some(PlayerMesh)));
  }

  /** The entities the loop of tick visits: live, with a PlayerState and a BodyKey. */
  predicate IsPlayer(s: Store, e: Entity) {
    s.Has(e) && s.records[e].player.Some? && s.records[e].body.Some?
  }

  /** Every player's body key resolves; tick fails loudly otherwise. */
  predicate BodiesPresent(s: Store) {
    forall e :: 0 <= e < |s.records| && IsPlayer(s, e) ==> s.records[e].body.value.Resolved?
  }

  /** One player's step: the horizontal speed follows the axis input; a jump
      press with the double jump available sets the vertical speed; the
      double jump is then available again, whatever happened. */
  function PlayerStep(r: Record, lrInput: real, jumpInput: bool): (r': Record)
    requires r.player.Some? && r.body.Some? && r.body.value.Resolved?
    ensures r'.player == Some(PlayerState(true))
    ensures r'.body.Some? && r'.body.value.Resolved? && r'.body.value.body.kind == r.body.value.body.kind
    ensures r'.pose == r.pose && r'.collider == r.collider && r'.mesh == r.mesh
    ensures r'.enemy == r.enemy && r'.breakable == r.breakable
  {
    var body := r.body.value.body;
    var v := body.velocity.(x := lrInput * MAX_XSPEED);
    var v := if jumpInput && r.player.value.hasDoublejump then v.(y := JUMP_YSPEED) else v;
    r.(body := Some(Resolved(body.(velocity := v))), player := Some(r.player.value.(hasDoublejump := true)))
  }

  /** tick on the world `s`. */
  function Ticked(s: Store, lrInput: real, jumpInput: bool): (s': Store)
    requires BodiesPresent(s)
    ensures |s'.records| == |s.records| && s'.dead == s.dead
    ensures forall e :: 0 <= e < |s.records| && !IsPlayer(s, e) ==> s'.records[e] == s.records[e]
  {
    s.(records := seq(|s.records|, e requires 0 <= e < |s.records| =>
      if IsPlayer(s, e) then PlayerStep(s.records[e], lrInput, jumpInput) else s.records[e]))
  }

  /** tick: `lrInput` is the arrow-key axis, `jumpInput` whether the jump
      key is held. */
  method Tick(w: World, lrInput: real, jumpInput: bool)
    requires w.Valid() && BodiesPresent(w.State())
    modifies w
    ensures w.Valid()
    ensures w.State() == Ticked(old(w.State()), lrInput, jumpInput)
  {
    ghost var s0 := w.State();
    for e := 0 to |w.records|
      invariant w.Valid() && w.dead == s0.dead && |w.records| == |s0.records|
      invariant forall j :: 0 <= j < |w.records| ==>
        w.records[j] == if j < e && IsPlayer(s0, j) then PlayerStep(s0.records[j], lrInput, jumpInput) else s0.records[j]
    {
      if w.State().Has(e) && w.records[e].player.Some? && w.records[e].body.Some? {
        var r := w.records[e];
        var state := r.player.value;
        var body := r.body.value.body;
        body := body.(velocity := body.velocity.(x := lrInput * MAX_XSPEED));
        if jumpInput && state.hasDoublejump {
          body := body.(velocity := body.velocity.(y := JUMP_YSPEED));
          state := state.(hasDoublejump := false);
        }
        state := state.(hasDoublejump := true);
        w.Update(e, r.(body := Some(Resolved(body)), player := Some(state)));
      }
    }
    assert w.records == Ticked(s0, lrInput, jumpInput).records;
  }

  /** The player whose pose the camera follows: the first entity the query
      for (PlayerState, Pose) yields, taken here as the lowest handle. */
  function FirstPlaced(s: Store, from: nat): (p: Option<Entity>)
    ensures p.Some? ==>
      (from <= p.value < |s.records| && s.Has(p.value) &&
       s.records[p.value].player.Some? && s.records[p.value].pose.Some?)
    ensures forall e :: from <= e < |s.records| && (p.None? || e < p.value) ==>
      !(s.Has(e) && s.records[e].player.Some? && s.records[e].pose.Some?)
    decreases |s.records| - from
  {
    if from >= |s.records| then None
    else if s.Has(from) && s.records[from].player.Some? && s.records[from].pose.Some? then Some(from)
    else FirstPlaced(s, from + 1)
  }

  /** The camera height after move_camera. */
  function Followed(s: Store, cameraY: real): (y: real)
    ensures y >= cameraY
  {
    match FirstPlaced(s, 0)
    case None => cameraY
    case Some(e) =>
      var y := s.records[e].pose.value.position.y;
      if y > cameraY then y else cameraY
  }

  /** move_camera: the camera rises to the player, never falls. */
  method MoveCamera(w: World, camera: Camera)
    modifies camera
    ensures camera.y == Followed(w.State(), old(camera.y))
    ensures camera.x == old(camera.x) && camera.viewWidth == old(camera.viewWidth) && camera.viewHeight == old(camera.viewHeight)
  {
    var first := FirstPlaced(w.State(), 0);
    if first.None? {
      return;
    }
    var pose := w.records[first.value].pose.value;
    if pose.position.y > camera.y {
      camera.y := pose.position.y;
    }
  }

  // ---------------------------------------------------------------------
  // Properties

  /** What one step does to a player: the horizontal speed is the input
      times 5; the vertical speed becomes 10 exactly when jumping with the
      double jump available, and is kept otherwise; the double jump is
      available afterwards; nothing else changes. */
  lemma StepEffect(r: Record, lrInput: real, jumpInput: bool)
    requires r.player.Some? && r.body.Some? && r.body.value.Resolved?
    ensures var r' := PlayerStep(r, lrInput, jumpInput);
      var v, v' := r.body.value.body.velocity, r'.body.value.body.velocity;
      r'.player == Some(PlayerState(true)) && r'.body.Some? && r'.body.value.Resolved? &&
      v'.x == 5.0 * lrInput &&
      (jumpInput && r.player.value.hasDoublejump ==> v'.y == 10.0) &&
      (!(jumpInput && r.player.value.hasDoublejump) ==> v'.y == v.y) &&
      r'.body.value.body.kind == r.body.value.body.kind &&
      r'.pose == r.pose && r'.collider == r.collider && r'.enemy == r.enemy && r'.breakable == r.breakable
  {
  }

  /** After a tick every player has its double jump, so the next tick's
      jump press always jumps. */
  lemma {:induction false} JumpAlwaysReady(s: Store, lr1: real, jump1: bool, lr2: real, e: Entity)
    requires BodiesPresent(s) && e < |s.records| && IsPlayer(s, e)
    ensures var s1 := Ticked(s, lr1, jump1);
      BodiesPresent(s1) && IsPlayer(s1, e) && s1.records[e].player.value.hasDoublejump &&
      Ticked(s1, lr2, true).records[e].body.value.body.velocity.y == JUMP_YSPEED
  {
    var s1 := Ticked(s, lr1, jump1);
    forall j | 0 <= j < |s1.records| && IsPlayer(s1, j) ensures s1.records[j].body.value.Resolved? {
      if IsPlayer(s, j) {
        StepEffect(s.records[j], lr1, jump1);
      }
    }
    StepEffect(s.records[e], lr1, jump1);
    StepEffect(s1.records[e], lr2, true);
  }

  /** The camera never moves down; it moves up to the player when the
      player is above it, and stays put when there is no player. */
  lemma CameraFollows(s: Store, cameraY: real)
    ensures Followed(s, cameraY) >= cameraY
    ensures FirstPlaced(s, 0).None? ==> Followed(s, cameraY) == cameraY
    ensures FirstPlaced(s, 0).Some? ==>
      Followed(s, cameraY) >= s.records[FirstPlaced(s, 0).value].pose.value.position.y &&
      (Followed(s, cameraY) == cameraY || Followed(s, cameraY) == s.records[FirstPlaced(s, 0).value].pose.value.position.y)
  {
  }

  /** A world without players leaves the camera where it is. */
  lemma NoPlayerNoMove(s: Store, cameraY: real)
    requires forall e :: 0 <= e < |s.records| ==> s.records[e].player.None?
    ensures Followed(s, cameraY) == cameraY
  {
    assert FirstPlaced(s, 0).None?;
  }
}
