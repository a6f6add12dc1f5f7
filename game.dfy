/** The game state (main.rs): the level generator, the camera, the gameplay
    state machine and the handles of the player and the spike roller, with
    the per-frame tick that runs the gameplay systems in order while
    playing, and the restart after a game over. */
module Game {
  import opened World
  import Level
  import Tile
  import Player
  import Enemy
  import SpikeRoller

  datatype GameplayState = Playing | GameOver

  /** The gameplay state after a tick: a playing game ends when the roller
      hits the player; an ended game restarts on ShiftLeft. */
  function Next(state: GameplayState, playerHit: bool, shiftLeft: bool): GameplayState {
    match state
    case Playing => if playerHit then GameOver else Playing
    case GameOver => if shiftLeft then Playing else GameOver
  }

  /** The game ends only by a hit while playing, and restarts only by
      ShiftLeft after a game over; a game over survives every tick without
      ShiftLeft and a playing game every tick without a hit. */
  lemma NextCases(state: GameplayState, playerHit: bool, shiftLeft: bool)
    ensures Next(state, playerHit, shiftLeft) == GameOver <==>
      (state == Playing && playerHit) || (state == GameOver && !shiftLeft)
    ensures Next(state, playerHit, shiftLeft) == Playing <==>
      (state == Playing && !playerHit) || (state == GameOver && shiftLeft)
  {
  }

  /** What one frame brings from outside the gameplay code: the keys, what
      the physics world computes (what each enemy senses, the new poses,
      the roller's contacts), the fixed time step, and the random choices a
      restart would make. */
  datatype Frame = Frame(
    shiftLeft: bool,
    lrInput: real,
    look: Entity -> Enemy.Sight,
    moved: map<Entity, Pose>,
    contacts: seq<Option<Entity>>,
    dtFixed: real,
    choices: seq<nat>,
    flips: (nat, nat) -> bool)

  /** The "game over" message, placed where the camera looks, in front of
      everything. It is drawn only: nothing collides with it, moves it or
      ticks it. */
  function GameOverRecord(x: real, y: real): (r: Record)
    ensures r.pose.Some? && r.pose.value.position == Vec2(x, y) && r.pose.value.depth < 0.0
    ensures r.mesh == Some(GameOverMesh) && r.body.None? && r.collider.None?
    ensures r.player.None? && r.enemy.None? && r.breakable.None?
  {
    Bare.(pose := Some(Pose(Vec2(x, y), -10.0)), mesh := Some(GameOverMesh))
  }

  /** The world a restart builds: a fresh level, then the player, then the roller. */
  function StartWorld(g: Level.LevelGenerator, choices: seq<nat>, flips: (nat, nat) -> bool): seq<Record>
    requires Level.ValidChoices(g, choices)
  {
    Level.Fixtures() + Level.LevelTiles(g, choices, flips, |choices|) + [Player.PlayerRecord(), SpikeRoller.RollerRecord()]
  }

  /** The outcome of a playing tick. */
  datatype Played = Played(store: Store, cameraY: real, playerHit: bool)

  /** A playing tick, in the order the systems run: player, enemies,
      physics, camera, roller, tiles; then the game over message on a hit. */
  function PlayStep(s: Store, cameraX: real, cameraY: real, player: Entity, roller: SpikeRoller.SpikeRoller, f: Frame): (p: Played)
    requires s.Valid() && Player.BodiesPresent(s)
    ensures p.store.Valid()
  {
    var s1 := Player.Ticked(s, f.lrInput, f.shiftLeft);
    var s2 := Enemy.Ticked(s1, player, f.look);
    var s3 := Moved(s2, f.moved);
    var camY := Player.Followed(s3, cameraY);
    var o := SpikeRoller.Ticked(s3, roller, camY, player, f.contacts);
    var s5 := Tile.AfterBreak(o.store, f.dtFixed);
    var s6 := if o.playerHit then s5.(records := s5.records + [GameOverRecord(cameraX, camY)]) else s5;
    Played(s6, camY, o.playerHit)
  }

  class State {
    const levelGen: Level.LevelGenerator
    const camera: Camera
    var state: GameplayState
    var player: Entity
    var spikeRoller: SpikeRoller.SpikeRoller

    /** init: read the patterns, generate a level, set up the camera, spawn
        the player and the roller. */
    constructor Init(w: World, patternData: string, choices: seq<nat>, flips: (nat, nat) -> bool)
      requires w.Valid() && Level.ValidChoices(Level.New(patternData), choices)
      modifies w
      ensures levelGen == Level.New(patternData) && state == Playing
      ensures fresh(camera)
      ensures camera.x == 10.0 && camera.y == 3.0 && camera.viewWidth == 1.0 && camera.viewHeight == 14.0
      ensures w.Valid() && w.records == StartWorld(levelGen, choices, flips) && w.dead == {}
      ensures player == |w.records| - 2 && spikeRoller.entity == |w.records| - 1
      ensures Player.BodiesPresent(w.State())
    {
      var g := Level.New(patternData);
      Level.Generate(g, w, choices, flips);
      var cam := new Camera(Level.LEVEL_WIDTH / 2.0, 3.0, 1.0, Level.VIEW_HEIGHT);
      var p := Player.Spawn(w);
      var roller := SpikeRoller.Spawn(w);
      levelGen, camera, state, player, spikeRoller := g, cam, Playing, p, roller;
      new;
      StartIsPlayable(g, choices, flips);
    }

    /** reset: clear everything, generate a new level, put the camera back
        at its starting height, spawn a new player and a new roller. */
    method Reset(w: World, choices: seq<nat>, flips: (nat, nat) -> bool)
      requires w.Valid() && Level.ValidChoices(levelGen, choices)
      modifies this, camera, w
      ensures state == old(state)
      ensures camera.y == 3.0 && camera.x == old(camera.x)
      ensures camera.viewWidth == old(camera.viewWidth) && camera.viewHeight == old(camera.viewHeight)
      ensures w.Valid() && w.records == StartWorld(levelGen, choices, flips) && w.dead == {}
      ensures player == |w.records| - 2 && spikeRoller.entity == |w.records| - 1
      ensures Player.BodiesPresent(w.State())
    {
      w.Clear();
      Level.Generate(levelGen, w, choices, flips);
      camera.y := 3.0;
      player := Player.Spawn(w);
      spikeRoller := SpikeRoller.Spawn(w);
      StartIsPlayable(levelGen, choices, flips);
    }

    /** tick. While playing, the player body's lookup must succeed (it is
        an `expect`); the lighting keys, bullets and drawing are not part of
        this model. */
    method Tick(w: World, f: Frame) returns (r: Option<()>)
      requires w.Valid() && Level.ValidChoices(levelGen, f.choices)
      requires state == Playing ==> Player.BodiesPresent(w.State())
      modifies this, camera, w
      ensures r == Some(())
      ensures w.Valid()
      ensures state == Playing ==> Player.BodiesPresent(w.State())
      ensures old(state) == Playing ==>
        var p := PlayStep(old(w.State()), old(camera.x), old(camera.y), old(player), old(spikeRoller), f);
        w.State() == p.store && camera.y == p.cameraY && state == Next(Playing, p.playerHit, f.shiftLeft) &&
        player == old(player) && spikeRoller == old(spikeRoller)
      ensures old(state) == GameOver && f.shiftLeft ==>
        state == Playing && camera.y == 3.0 &&
        w.records == StartWorld(levelGen, f.choices, f.flips) && w.dead == {} &&
        player == |w.records| - 2 && spikeRoller.entity == |w.records| - 1
      ensures old(state) == GameOver && !f.shiftLeft ==>
        state == GameOver && w.State() == old(w.State()) && camera.y == old(camera.y) &&
        player == old(player) && spikeRoller == old(spikeRoller)
      ensures camera.x == old(camera.x)
      ensures camera.viewWidth == old(camera.viewWidth) && camera.viewHeight == old(camera.viewHeight)
    {
      match state {
      case Playing =>
        ghost var s0 := w.State();
        Player.Tick(w, f.lrInput, f.shiftLeft);
        Enemy.Tick(w, player, f.look);
        w.Move(f.moved);
        Player.MoveCamera(w, camera);
        var rollerResult := SpikeRoller.Tick(spikeRoller, w, camera, player, f.contacts);
        Tile.BreakTiles(w, f.dtFixed);
        if rollerResult.playerHit {
          state := GameOver;
          var _ := w.Spawn(GameOverRecord(camera.x, camera.y));
        }
        PlayKeepsBodies(s0, old(camera.x), old(camera.y), player, spikeRoller, f);
      case GameOver =>
        if f.shiftLeft {
          Reset(w, f.choices, f.flips);
          state := Playing;
        }
      }
      return Some(());
    }
  }

  // ---------------------------------------------------------------------
  // Properties

  /** A freshly started world has exactly one player, and its body is there. */
  lemma StartIsPlayable(g: Level.LevelGenerator, choices: seq<nat>, flips: (nat, nat) -> bool)
    requires Level.ValidChoices(g, choices)
    ensures Player.BodiesPresent(Store(StartWorld(g, choices, flips), {}))
    ensures var rs := StartWorld(g, choices, flips);
      forall e :: 0 <= e < |rs| && rs[e].player.Some? ==> e == |rs| - 2
  {
    Level.LevelIsScenery(g, choices, flips);
  }

  /** One record keeps the parts the player's body check reads. */
  predicate KeepsPlayer(r: Record, r': Record) {
    r'.player.Some? == r.player.Some? && r'.body.Some? == r.body.Some? &&
    (r.body.Some? && r.body.value.Resolved? ==> r'.body.value.Resolved?)
  }

  /** ... and also every component but the pose and the body's contents. */
  predicate KeepsKind(r: Record, r': Record) {
    KeepsPlayer(r, r') && r'.breakable == r.breakable && r'.collider == r.collider && r'.pose.Some? == r.pose.Some?
  }

  /** A step that spawns nothing, only despawns, and keeps every player's
      body resolved keeps the player body check passing. */
  lemma BodiesKept(s: Store, s': Store)
    requires Player.BodiesPresent(s)
    requires |s'.records| == |s.records| && s.dead <= s'.dead
    requires forall e :: 0 <= e < |s.records| ==> KeepsPlayer(s.records[e], s'.records[e])
    ensures Player.BodiesPresent(s')
  {
    forall e | 0 <= e < |s'.records| && Player.IsPlayer(s', e) ensures s'.records[e].body.value.Resolved? {
      assert KeepsPlayer(s.records[e], s'.records[e]);
      assert Player.IsPlayer(s, e);
    }
  }

  /** The world after the player, enemy and physics steps of a playing tick. */
  function Moving(s: Store, player: Entity, f: Frame): Store
    requires Player.BodiesPresent(s)
  {
    Moved(Enemy.Ticked(Player.Ticked(s, f.lrInput, f.shiftLeft), player, f.look), f.moved)
  }

  /** The player, enemy and physics steps only move things and change
      velocities and bat states: every entity keeps its kind. */
  lemma MovingKeepsKinds(s: Store, player: Entity, f: Frame)
    requires Player.BodiesPresent(s)
    ensures var s' := Moving(s, player, f);
      |s'.records| == |s.records| && s'.dead == s.dead &&
      forall e :: 0 <= e < |s.records| ==> KeepsKind(s.records[e], s'.records[e])
  {
    var s1 := Player.Ticked(s, f.lrInput, f.shiftLeft);
    var s2 := Enemy.Ticked(s1, player, f.look);
    var s3 := Moved(s2, f.moved);
    forall e | 0 <= e < |s.records| ensures KeepsKind(s.records[e], s3.records[e]) {
      if Player.IsPlayer(s, e) {
        Player.StepEffect(s.records[e], f.lrInput, f.shiftLeft);
      }
      assert KeepsKind(s.records[e], s1.records[e]);
      Enemy.TickedFrame(s1, player, f.look, e);
      if Enemy.PlayerPlaced(s1, player) && Enemy.IsEnemy(s1, e) {
        if s1.records[e].body.value.Resolved? {
          Enemy.BatStepCases(s1.records[e], f.look(e));
        } else {
          Enemy.StaleSkipped(s1.records[e], f.look(e));
        }
      }
      assert KeepsKind(s1.records[e], s2.records[e]);
    }
  }

  /** Playing never loses the player's body: whatever the frame, the player
      body check that the next tick runs passes again. */
  lemma PlayKeepsBodies(s: Store, cameraX: real, cameraY: real, player: Entity, roller: SpikeRoller.SpikeRoller, f: Frame)
    requires s.Valid() && Player.BodiesPresent(s)
    ensures Player.BodiesPresent(PlayStep(s, cameraX, cameraY, player, roller, f).store)
  {
    var s3 := Moving(s, player, f);
    MovingKeepsKinds(s, player, f);
    BodiesKept(s, s3);
    var camY := Player.Followed(s3, cameraY);
    var o := SpikeRoller.Ticked(s3, roller, camY, player, f.contacts);
    forall e | 0 <= e < |s3.records| ensures KeepsPlayer(s3.records[e], o.store.records[e]) {
      SpikeRoller.TickKeepsComponents(s3, roller, camY, player, f.contacts, e);
    }
    BodiesKept(s3, o.store);
    var s5 := Tile.AfterBreak(o.store, f.dtFixed);
    BodiesKept(o.store, s5);
    var p := PlayStep(s, cameraX, cameraY, player, roller, f);
    forall e | 0 <= e < |p.store.records| && Player.IsPlayer(p.store, e)
      ensures p.store.records[e].body.value.Resolved?
    {
      if e < |s5.records| {
        assert Player.IsPlayer(s5, e);
      }
    }
  }

  /** While playing, the camera never moves down, and the game ends
      exactly when the roller, present with its pose and collider, has the
      player among its contacts (the player being no breakable tile). */
  lemma PlayFacts(s: Store, cameraX: real, cameraY: real, player: Entity, roller: SpikeRoller.SpikeRoller, f: Frame)
    requires s.Valid() && Player.BodiesPresent(s)
    requires player < |s.records| && s.records[player].breakable.None?
    ensures var p := PlayStep(s, cameraX, cameraY, player, roller, f);
      p.cameraY >= cameraY &&
      (p.playerHit <==> SpikeRoller.Present(s, roller.entity) && Some(player) in f.contacts)
  {
    var s3 := Moving(s, player, f);
    MovingKeepsKinds(s, player, f);
    var camY := Player.Followed(s3, cameraY);
    Player.CameraFollows(s3, cameraY);
    if roller.entity < |s.records| {
      assert KeepsKind(s.records[roller.entity], s3.records[roller.entity]);
    }
    assert SpikeRoller.Present(s3, roller.entity) == SpikeRoller.Present(s, roller.entity);
    if SpikeRoller.Present(s3, roller.entity) {
      var risen := SpikeRoller.Rise(s3, roller.entity, camY);
      assert KeepsKind(s.records[player], s3.records[player]);
      assert !SpikeRoller.IsTile(risen, player);
      SpikeRoller.HitIffPlayerContact(risen, f.contacts, player);
    }
  }

  /** A playing tick adds exactly one entity, and only on a hit: the live
      "game over" message at the camera's x and its new height, after
      everything the systems left in place. */
  lemma GameOverShown(s: Store, cameraX: real, cameraY: real, player: Entity, roller: SpikeRoller.SpikeRoller, f: Frame)
    requires s.Valid() && Player.BodiesPresent(s)
    ensures var p := PlayStep(s, cameraX, cameraY, player, roller, f);
      |p.store.records| == |s.records| + (if p.playerHit then 1 else 0) &&
      (p.playerHit ==> p.store.Has(|s.records|) && p.store.records[|s.records|] == GameOverRecord(cameraX, p.cameraY))
  {
    var p := PlayStep(s, cameraX, cameraY, player, roller, f);
    var s1 := Player.Ticked(s, f.lrInput, f.shiftLeft);
    var s2 := Enemy.Ticked(s1, player, f.look);
    var s3 := Moved(s2, f.moved);
    var camY := Player.Followed(s3, cameraY);
    var o := SpikeRoller.Ticked(s3, roller, camY, player, f.contacts);
    var s5 := Tile.AfterBreak(o.store, f.dtFixed);
    assert |s5.records| == |s.records| && s5.Valid();
    if p.playerHit {
      assert p.store == s5.(records := s5.records + [GameOverRecord(cameraX, camY)]);
      assert |s.records| !in s5.dead;
    }
  }

  /** The player's collider carries no collision layer of its own, so a ray
      from a bat whose first hit is the player reports the default layer,
      not the player's: a passive bat stays passive however many ticks it
      looks straight at the player. This rests on the default layer being
      distinct from the player layer (see `Layer`). */
  lemma PlayerColliderNeverSpotted(s: Store, player: Entity, looks: seq<Entity -> Enemy.Sight>, e: Entity)
    requires s.Has(e) && s.records[e].enemy == Some(Bat(false))
    requires forall i :: 0 <= i < |looks| ==> looks[i](e).firstHit == Some(Player.PlayerCollider.layer)
    ensures Enemy.Run(s, player, looks).Has(e)
    ensures Enemy.Run(s, player, looks).records[e].enemy == Some(Bat(false))
  {
    Enemy.UnseenStaysPassive(s, player, looks, e);
  }
}
