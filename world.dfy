/** The entity/component store and physics entity set that the gameplay code
    reads and writes, reduced to what the gameplay code touches.

    Every entity spawned since the last `clear` has a record; an entity's
    handle is the index of its record. Despawning adds the handle to `dead`
    and leaves the record behind, so handles are never reused until the
    world is cleared. The component types of the gameplay modules are declared
    here so that the store can hold them. */
module World {

  type Entity = nat

  datatype Option<T> = None | Some(value: T)

  datatype Vec2 = Vec2(x: real, y: real)

  /** A pose: a position and a drawing depth (a pose built without a depth has depth 0). */
  datatype Pose = Pose(position: Vec2, depth: real)

  datatype Shape =
    | Square(side: real)
    | Rect(width: real, height: real)
    | Circle(radius: real)
    | RoundedRect(width: real, height: real, corner: real)

  /** Collision layers. Only PLAYER and BULLET are given numbers in
      physics_layers.rs; ENEMY and SPIKE_ROLLER are referred to by the
      spawning code and are kept apart here by name. A collider built
      without a layer gets DefaultLayer, which is taken to be distinct from
      PLAYER; the physics library's own default is not part of this model. */
  datatype Layer = DefaultLayer | PlayerLayer | BulletLayer | EnemyLayer | SpikeRollerLayer

  datatype Collider = Collider(shape: Shape, layer: Layer, sensor: bool)

  datatype Mesh = BlockMesh | CloudMesh | BackgroundMesh | SpikeRollerMesh | BombMesh | PlayerMesh | GameOverMesh

  datatype BodyKind = Kinematic | Particle(mass: real, ignoresGravity: bool)

  datatype Body = Body(kind: BodyKind, velocity: Vec2)

  /** A BodyKey component: the key resolves to a body of the physics set,
      or the body has gone and the key is stale. */
  datatype BodySlot = Resolved(body: Body) | Stale

  /** State that tracks when a tile needs to break (level/tile.rs). */
  datatype BreakableTile = BreakableTile(timeToBreak: real, isBreaking: bool, blocksBullets: bool)

  /** The enemy variants (enemy.rs). */
  datatype Enemy = Bat(isActive: bool)

  /** The player controller's state (player.rs). */
  datatype PlayerState = PlayerState(hasDoublejump: bool)

  /** The components one entity carries. */
  datatype Record = Record(
    pose: Option<Pose>,
    collider: Option<Collider>,
    mesh: Option<Mesh>,
    body: Option<BodySlot>,
    breakable: Option<BreakableTile>,
    enemy: Option<Enemy>,
    player: Option<PlayerState>)

  const Bare: Record := Record(None, None, None, None, None, None, None)

  /** A snapshot of the world's contents. */
  datatype Store = Store(records: seq<Record>, dead: set<Entity>) {
    /** Only spawned entities can have been despawned. */
    predicate Valid() {
      forall e :: e in dead ==> e < |records|
    }

    /** `e` has been spawned and not despawned since. */
    predicate Has(e: Entity) {
      e < |records| && e !in dead
    }
  }

  /** The physics step's effect on the store: every entity that carries a
      body and a pose takes the pose the solver gives it in `moved`. */
  function Moved(s: Store, moved: map<Entity, Pose>): (s': Store)
    ensures |s'.records| == |s.records| && s'.dead == s.dead
    ensures forall e :: 0 <= e < |s.records| ==>
      s'.records[e] == (if e in moved && s.records[e].pose.Some? && s.records[e].body.Some?
                        then s.records[e].(pose := Some(moved[e])) else s.records[e])
  {
    s.(records := seq(|s.records|, e requires 0 <= e < |s.records| =>
      if e in moved && s.records[e].pose.Some? && s.records[e].body.Some? then s.records[e].(pose := Some(moved[e]))
      else s.records[e]))
  }

  class World {
    var records: seq<Record>
    var dead: set<Entity>

    function State(): Store
      reads this
    {
      Store(records, dead)
    }

    predicate Valid()
      reads this
    {
      State().Valid()
    }

    constructor ()
      ensures records == [] && dead == {}
    {
      records, dead := [], {};
    }

    /** Removes every entity. */
    method Clear()
      modifies this
      ensures records == [] && dead == {}
    {
      records, dead := [], {};
    }

    /** Spawns an entity carrying the components of `r`. */
    method Spawn(r: Record) returns (e: Entity)
      requires Valid()
      modifies this
      ensures Valid() && State().Has(e)
      ensures e == |old(records)| && !old(State()).Has(e)
      ensures records == old(records) + [r] && dead == old(dead)
    {
      e := |records|;
      records := records + [r];
    }

    /** Despawns `e`; fails, changing nothing, when `e` is not alive. */
    method Despawn(e: Entity) returns (ok: bool)
      requires Valid()
      modifies this
      ensures Valid()
      ensures ok <==> old(State()).Has(e)
      ensures records == old(records)
      ensures dead == if ok then old(dead) + {e} else old(dead)
    {
      ok := e < |records| && e !in dead;
      if ok {
        dead := dead + {e};
      }
    }

    /** Applies the poses computed by a physics step. */
    method Move(moved: map<Entity, Pose>)
      requires Valid()
      modifies this
      ensures Valid() && State() == Moved(old(State()), moved)
    {
      records := Moved(State(), moved).records;
    }

    /** Overwrites the components of the live entity `e`. */
    method Update(e: Entity, r: Record)
      requires Valid() && State().Has(e)
      modifies this
      ensures Valid()
      ensures records == old(records)[e := r] && dead == old(dead)
    {
      records := records[e := r];
    }
  }

  /** The part of a camera the gameplay code reads and writes: where it
      looks and how much of the world it shows. */
  class Camera {
    var x: real
    var y: real
    var viewWidth: real
    var viewHeight: real

    constructor (x: real, y: real, viewWidth: real, viewHeight: real)
      ensures this.x == x && this.y == y && this.viewWidth == viewWidth && this.viewHeight == viewHeight
    {
      this.x, this.y, this.viewWidth, this.viewHeight := x, y, viewWidth, viewHeight;
    }
  }
}
