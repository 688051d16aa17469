/** The bullet pool of src/main.cpp: a fixed-size vector of entities in
    which CreateBullet claims the first slot that is not alive. */
module Bullets {
  import opened MidiTypes

  /** A 2-D vector. The pool only copies these values. */
  datatype Vector2 = Vector2(x: real, y: real)

  /** One pooled entity (struct Entity). */
  datatype Entity = Entity(
    alive: bool,
    canMove: bool,
    pos: Vector2,
    velocity: Vector2,
    entityType: int32,
    hp: int32,
    hpMax: int32,
    lastHitTime: real)

  /** The index of the lowest slot that is not alive, if any. */
  function FirstDead(s: seq<Entity>): (r: Option<nat>)
    ensures r.None? <==> forall j | 0 <= j < |s| :: s[j].alive
    ensures r.Some? ==> r.value < |s| && !s[r.value].alive
    ensures r.Some? ==> forall j | 0 <= j < r.value :: s[j].alive
  {
    if s == [] then None
    else if !s[0].alive then Some(0)
    else match FirstDead(s[1..])
         case None => None
         case Some(k) => Some(k + 1)
  }

  /** A slot once claimed for a new bullet: alive, at `pos`, moving with
      `velocity`; every other field is kept. */
  function Claim(e: Entity, pos: Vector2, velocity: Vector2): Entity {
    e.(alive := true, pos := pos, velocity := velocity)
  }

  /** The pool after a bullet is created: the first dead slot is claimed;
      with no dead slot the pool is unchanged. */
  function Spawned(s: seq<Entity>, pos: Vector2, velocity: Vector2): (r: seq<Entity>)
    ensures |r| == |s|
  {
    match FirstDead(s)
    case None => s
    case Some(i) => s[i := Claim(s[i], pos, velocity)]
  }

  /** CreateBullet: scan the slots in order and claim the first one that is
      not alive, then stop. */
  method CreateBullet(bullets: array<Entity>, pos: Vector2, velocity: Vector2)
    modifies bullets
    ensures bullets[..] == Spawned(old(bullets[..]), pos, velocity)
  {
    var i := 0;
    while i < bullets.Length
      invariant 0 <= i <= bullets.Length
      invariant bullets[..] == old(bullets[..])
      invariant forall j | 0 <= j < i :: bullets[j].alive
      decreases bullets.Length - i
    {
      if !bullets[i].alive {
        assert FirstDead(bullets[..]) == Some(i);
        bullets[i] := Claim(bullets[i], pos, velocity);
        return;
      }
      i := i + 1;
    }
    assert FirstDead(bullets[..]).None?;
  }

  /** A dead slot exists: the lowest one is claimed, gets `alive`, `pos`
      and `velocity` set and keeps its other fields; every other slot is
      unchanged. */
  lemma SpawnedClaimsFirstDead(s: seq<Entity>, pos: Vector2, velocity: Vector2, i: nat)
    requires i < |s| && !s[i].alive && forall j | 0 <= j < i :: s[j].alive
    ensures var r := Spawned(s, pos, velocity);
            && r[i].alive && r[i].pos == pos && r[i].velocity == velocity
            && r[i].canMove == s[i].canMove && r[i].entityType == s[i].entityType
            && r[i].hp == s[i].hp && r[i].hpMax == s[i].hpMax
            && r[i].lastHitTime == s[i].lastHitTime
            && forall j | 0 <= j < |s| && j != i :: r[j] == s[j]
  {
    assert FirstDead(s) == Some(i);
  }

  /** Every slot alive: the bullet is dropped and the pool is unchanged. */
  lemma SpawnedFull(s: seq<Entity>, pos: Vector2, velocity: Vector2)
    requires forall j | 0 <= j < |s| :: s[j].alive
    ensures Spawned(s, pos, velocity) == s
  {
  }

  /** Creating a bullet never kills a slot: every live slot stays live. */
  lemma SpawnedKeepsAlive(s: seq<Entity>, pos: Vector2, velocity: Vector2)
    ensures forall j | 0 <= j < |s| && s[j].alive :: Spawned(s, pos, velocity)[j] == s[j]
  {
  }

  /** The number of live slots. */
  function AliveCount(s: seq<Entity>): (n: nat)
    ensures n <= |s|
  {
    if s == [] then 0 else (if s[0].alive then 1 else 0) + AliveCount(s[1..])
  }

  /** Replacing one slot changes the live count by the change in that slot. */
  lemma {:induction false} AliveCountUpdate(s: seq<Entity>, i: nat, e: Entity)
    requires i < |s|
    ensures AliveCount(s[i := e]) + (if s[i].alive then 1 else 0)
            == AliveCount(s) + (if e.alive then 1 else 0)
    decreases |s|
  {
    if i > 0 {
      assert s[i := e][1..] == s[1..][i - 1 := e];
      AliveCountUpdate(s[1..], i - 1, e);
    } else {
      assert s[i := e][1..] == s[1..];
    }
  }

  /** The live count rises by exactly one if and only if a dead slot
      existed, and otherwise stays the same. */
  lemma SpawnedAliveCount(s: seq<Entity>, pos: Vector2, velocity: Vector2)
    ensures (exists j | 0 <= j < |s| :: !s[j].alive)
            <==> AliveCount(Spawned(s, pos, velocity)) == AliveCount(s) + 1
    ensures (forall j | 0 <= j < |s| :: s[j].alive)
            ==> AliveCount(Spawned(s, pos, velocity)) == AliveCount(s)
  {
    match FirstDead(s)
    case None =>
    case Some(i) =>
      AliveCountUpdate(s, i, Claim(s[i], pos, velocity));
  }
}
