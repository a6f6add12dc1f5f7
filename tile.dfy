/** Terrain tiles (level/tile.rs): the symbol table of the level patterns,
    the break timers, spawning a tile into the world and the per-step pass
    that counts breaking tiles down and removes the expired ones. */
module Tile {
  import opened World

  datatype Tile = Empty | Cloud | GroundWeak | GroundStrong | GroundUnbreakable

  /** The tile a pattern symbol stands for and the chance that it appears. */
  function Symbol(c: char): (r: (Tile, real))
    ensures r.0 != GroundUnbreakable
    ensures r.0 == Empty <==> c !in "XxWwCc"
    ensures r.1 == 0.5 <==> c in "xwc"
    ensures r.1 == 1.0 <==> c !in "xwc"
  {
    match c
    case 'X' => (GroundStrong, 1.0)
    case 'x' => (GroundStrong, 0.5)
    case 'W' => (GroundWeak, 1.0)
    case 'w' => (GroundWeak, 0.5)
    case 'C' => (Cloud, 1.0)
    case 'c' => (Cloud, 0.5)
    case _ => (Empty, 1.0)
  }

  /** Tile::pick, where `heads` is what the random generator answered when
      asked for an event of the symbol's chance; it is only asked when that
      chance is below 1. */
  function Pick(c: char, heads: bool): (t: Tile)
    ensures t == Empty || t == Symbol(c).0
    ensures t != GroundUnbreakable
    ensures c in "XWC" ==> t != Empty
    ensures c in "xwc" ==> (t != Empty <==> heads)
    ensures c !in "XxWwCc" ==> t == Empty
  {
    var (tile, chance) := Symbol(c);
    if chance == 1.0 then tile
    else if heads then tile
    else Empty
  }

  /** An upper-case symbol is its lower-case variant with the coin forced
      to heads; the coin never matters for an upper-case symbol. */
  lemma CaseIsCertainty(upper: char, lower: char, heads: bool)
    requires (upper, lower) in {('X', 'x'), ('W', 'w'), ('C', 'c')}
    ensures Pick(upper, heads) == Pick(upper, !heads) == Pick(lower, true)
    ensures Pick(lower, false) == Empty
    ensures Pick('X', heads) == GroundStrong && Pick('W', heads) == GroundWeak && Pick('C', heads) == Cloud
  {
  }

  /** How long a tile lasts once it starts breaking; None for tiles that
      never break. */
  function TimeToBreak(t: Tile): (r: Option<real>)
    ensures r.Some? <==> t != Empty && t != GroundUnbreakable
    ensures r.Some? ==> 0.0 < r.value <= 2.0
  {
    match t
    case GroundUnbreakable => None
    case Empty => None
    case GroundStrong => Some(2.0)
    case GroundWeak => Some(0.75)
    case Cloud => Some(0.5)
  }

  /** Stronger ground lasts longer: strong outlasts weak, weak outlasts cloud. */
  lemma StrongerLastsLonger()
    ensures TimeToBreak(GroundStrong).value > TimeToBreak(GroundWeak).value > TimeToBreak(Cloud).value
  {
  }

  /** The entity a non-empty tile becomes at grid cell (x, y). */
  function TileRecord(t: Tile, x: int, y: int): (r: Record)
    requires t != Empty
    ensures r.pose.Some? && r.pose.value.depth == 0.0
    ensures var p := r.pose.value.position;
      x as real < p.x < x as real + 1.0 && y as real < p.y < y as real + 1.0 &&
      p.x - x as real == p.y - y as real == 0.5
    ensures r.breakable.Some? <==> TimeToBreak(t).Some?
    ensures r.breakable.Some? ==>
      r.breakable.value.timeToBreak == TimeToBreak(t).value &&
      !r.breakable.value.isBreaking &&
      (r.breakable.value.blocksBullets <==> t != Cloud)
    ensures r.enemy.None? && r.player.None? && r.body.None?
  {
    var base := Bare.(
      pose := Some(Pose(Vec2(x as real + 0.5, y as real + 0.5), 0.0)),
      collider := Some(Collider(Square(1.0), DefaultLayer, false)),
      mesh := Some(if t == Cloud then CloudMesh else BlockMesh));
    match TimeToBreak(t)
    case None => base
    case Some(time) => base.(breakable := Some(BreakableTile(time, false, !(t == Cloud || t == Empty))))
  }

  /** What spawning `t` at (x, y) adds to the world. */
  function Spawned(t: Tile, x: int, y: int): seq<Record> {
    if t == Empty then [] else [TileRecord(t, x, y)]
  }

  /** Tile::spawn: an empty tile changes nothing; any other tile becomes one
      new entity, with a break timer when its type has one. */
  method Spawn(t: Tile, w: World, x: int, y: int)
    requires w.Valid()
    modifies w
    ensures w.Valid()
    ensures w.records == old(w.records) + Spawned(t, x, y) && w.dead == old(w.dead)
  {
    if t == Empty {
      return;
    }
    var base := Bare.(
      pose := Some(Pose(Vec2(x as real + 0.5, y as real + 0.5), 0.0)),
      collider := Some(Collider(Square(1.0), DefaultLayer, false)),
      mesh := Some(if t == Cloud then CloudMesh else BlockMesh));
    var ent := w.Spawn(base);
    var time := TimeToBreak(t);
    if time.Some? {
      var breakable := BreakableTile(time.value, false, !(t == Cloud || t == Empty));
      w.Update(ent, base.(breakable := Some(breakable)));
    }
  }

  /** The live entities that carry a break timer. */
  function Breakables(s: Store): set<Entity> {
    set e | 0 <= e < |s.records| && e !in s.dead && s.records[e].breakable.Some?
  }

  /** One step of a timer: only a breaking tile counts down. */
  function Advance(b: BreakableTile, dt: real): (b': BreakableTile)
    ensures b'.isBreaking == b.isBreaking && b'.blocksBullets == b.blocksBullets
    ensures b.isBreaking ==> b'.timeToBreak == b.timeToBreak - dt
    ensures !b.isBreaking ==> b' == b
  {
    if b.isBreaking then b.(timeToBreak := b.timeToBreak - dt) else b
  }

  function AdvanceRecord(r: Record, dt: real): Record {
    match r.breakable
    case None => r
    case Some(b) => r.(breakable := Some(Advance(b, dt)))
  }

  /** The tiles whose timer runs out in this step. */
  function BreakQueue(s: Store, dt: real): set<Entity> {
    set e | e in Breakables(s) && e < |s.records| && s.records[e].breakable.Some? &&
      s.records[e].breakable.value.isBreaking && s.records[e].breakable.value.timeToBreak - dt <= 0.0
  }

  /** The world after break_tiles: every timer of a breaking tile is stepped,
      and the tiles whose timer reached zero are removed. */
  function AfterBreak(s: Store, dt: real): (s': Store)
    requires s.Valid()
    ensures s'.Valid() && |s'.records| == |s.records|
    ensures s'.dead == s.dead + BreakQueue(s, dt)
    ensures forall e :: 0 <= e < |s.records| ==>
      s'.records[e] == if s.Has(e) then AdvanceRecord(s.records[e], dt) else s.records[e]
  {
    Store(
      seq(|s.records|, e requires 0 <= e < |s.records| =>
        if s.Has(e) then AdvanceRecord(s.records[e], dt) else s.records[e]),
      s.dead + BreakQueue(s, dt))
  }

  /** break_tiles: a first pass over the breakable tiles steps the timers and
      queues the expired tiles; a second pass despawns the queue. */
  method BreakTiles(w: World, dtFixed: real)
    requires w.Valid()
    modifies w
    ensures w.Valid()
    ensures w.State() == AfterBreak(old(w.State()), dtFixed)
  {
    ghost var s0 := w.State();
    var breakQueue: seq<Entity> := [];
    var pending := Breakables(w.State());
    while pending != {}
      invariant w.Valid() && w.dead == s0.dead && |w.records| == |s0.records|
      invariant pending <= Breakables(s0)
      invariant forall e :: 0 <= e < |w.records| ==>
        w.records[e] == if e in Breakables(s0) - pending then AdvanceRecord(s0.records[e], dtFixed) else s0.records[e]
      invariant forall e :: e in breakQueue <==> e in BreakQueue(s0, dtFixed) - pending
      invariant forall i, j :: 0 <= i < j < |breakQueue| ==> breakQueue[i] != breakQueue[j]
      decreases pending
    {
      var e :| e in pending;
      pending := pending - {e};
      var tile := w.records[e].breakable.value;
      if tile.isBreaking {
        tile := tile.(timeToBreak := tile.timeToBreak - dtFixed);
        w.Update(e, w.records[e].(breakable := Some(tile)));
        if tile.timeToBreak <= 0.0 {
          assert e !in breakQueue;
          breakQueue := breakQueue + [e];
        }
      }
    }

    ghost var stepped := w.records;
    var i := 0;
    while i < |breakQueue|
      invariant 0 <= i <= |breakQueue|
      invariant w.Valid() && w.records == stepped
      invariant forall e :: e in breakQueue <==> e in BreakQueue(s0, dtFixed)
      invariant forall i, j :: 0 <= i < j < |breakQueue| ==> breakQueue[i] != breakQueue[j]
      invariant forall e :: e in w.dead <==> e in s0.dead || e in breakQueue[..i]
    {
      assert breakQueue[i] in BreakQueue(s0, dtFixed);
      assert breakQueue[i] in Breakables(s0);
      assert breakQueue[i] !in breakQueue[..i] by {
        forall k | 0 <= k < i ensures breakQueue[..i][k] != breakQueue[i] {
          assert breakQueue[..i][k] == breakQueue[k];
        }
      }
      var ok := w.Despawn(breakQueue[i]);
      assert ok;
      assert breakQueue[..i + 1] == breakQueue[..i] + [breakQueue[i]];
      i := i + 1;
    }
    assert breakQueue[..i] == breakQueue;
  }

  /** `n` consecutive calls of break_tiles. */
  function Ticks(s: Store, dt: real, n: nat): (s': Store)
    requires s.Valid()
    ensures s'.Valid() && |s'.records| == |s.records|
  {
    if n == 0 then s else AfterBreak(Ticks(s, dt, n - 1), dt)
  }

  /** A breaking tile with time left counts down by exactly one step per call,
      stays in the world while its timer is positive, and is gone from the
      call whose step takes the timer to zero or below. */
  lemma {:induction false} Countdown(s: Store, e: Entity, dt: real, n: nat)
    requires s.Valid() && s.Has(e) && dt > 0.0
    requires s.records[e].breakable.Some?
    requires s.records[e].breakable.value.isBreaking && s.records[e].breakable.value.timeToBreak > 0.0
    ensures Ticks(s, dt, n).Has(e) <==> s.records[e].breakable.value.timeToBreak - n as real * dt > 0.0
    ensures Ticks(s, dt, n).Has(e) ==>
      (Ticks(s, dt, n).records[e].breakable ==
       Some(s.records[e].breakable.value.(timeToBreak := s.records[e].breakable.value.timeToBreak - n as real * dt)))
  {
    if n > 0 {
      var b := s.records[e].breakable.value;
      var m: nat := n - 1;
      var prev := Ticks(s, dt, m);
      Countdown(s, e, dt, m);
      assert prev.Has(e) <==> b.timeToBreak - m as real * dt > 0.0;
      CountdownStep(prev, e, dt, b, m);
      assert Ticks(s, dt, n) == AfterBreak(prev, dt);
      assert (m + 1) as real == n as real;
      assert b.(timeToBreak := b.timeToBreak - (m + 1) as real * dt)
          == b.(timeToBreak := b.timeToBreak - n as real * dt);
    }
  }

  /** One pass of the countdown: a tile whose timer stands at t - m·dt
      stands at t - (m + 1)·dt afterwards, and is alive exactly while that
      is positive. */
  lemma CountdownStep(before: Store, e: Entity, dt: real, b: BreakableTile, m: nat)
    requires before.Valid() && e < |before.records| && dt > 0.0 && b.isBreaking
    requires before.Has(e) <==> b.timeToBreak - m as real * dt > 0.0
    requires before.Has(e) ==> before.records[e].breakable == Some(b.(timeToBreak := b.timeToBreak - m as real * dt))
    ensures AfterBreak(before, dt).Has(e) <==> b.timeToBreak - (m + 1) as real * dt > 0.0
    ensures AfterBreak(before, dt).Has(e) ==>
      AfterBreak(before, dt).records[e].breakable == Some(b.(timeToBreak := b.timeToBreak - (m + 1) as real * dt))
  {
    var after := AfterBreak(before, dt);
    assert (m + 1) as real * dt == m as real * dt + dt;
    if before.Has(e) {
      assert e in Breakables(before);
      assert after.records[e] == AdvanceRecord(before.records[e], dt);
      assert after.records[e].breakable == Some(b.(timeToBreak := b.timeToBreak - (m + 1) as real * dt));
      assert e in BreakQueue(before, dt) <==> b.timeToBreak - (m + 1) as real * dt <= 0.0;
      assert e in after.dead <==> e in BreakQueue(before, dt);
    } else {
      assert e in before.dead;
      assert e in after.dead;
    }
  }

  /** A breaking tile is removed on exactly one call: the one whose step
      takes its timer from positive to zero or below. */
  lemma RemovedOnce(s: Store, e: Entity, dt: real, n: nat)
    requires s.Valid() && s.Has(e) && dt > 0.0
    requires s.records[e].breakable.Some?
    requires s.records[e].breakable.value.isBreaking && s.records[e].breakable.value.timeToBreak > 0.0
    ensures var t := s.records[e].breakable.value.timeToBreak;
      (Ticks(s, dt, n).Has(e) && !Ticks(s, dt, n + 1).Has(e)) <==>
      (t - n as real * dt > 0.0 && t - (n + 1) as real * dt <= 0.0)
  {
    Countdown(s, e, dt, n);
    Countdown(s, e, dt, n + 1);
  }
}
