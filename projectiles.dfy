/** The projectile rules of `update_bullets`: what one bullet does when it
    enters its next cell, and one pass over all active bullets.

    Pixel motion is not modelled: every bullet carries its `trail`, the grid
    cells it enters on its successive advances (worked out from its start
    pixel, direction and speed), ending with the first cell off the map. */
module Projectiles {
  import opened Board

  /** "normal" (basic attack), skill 1 (needle) and skill 2 (amulet). */
  datatype BulletKind = BasicShot | NeedleShot | AmuletShot

  /** A queued or flying bullet. `owner` is set only on basic-attack shots;
      `hit` is the amulet's `hit_entities`, the cells it has damaged. */
  datatype Bullet = Bullet(kind: BulletKind, owner: Option<Player>, trail: seq<Cell>, hit: set<Cell>)

  /** A straight flight always leaves the map: the trail ends off the map. */
  predicate ValidTrail(trail: seq<Cell>)
  {
    |trail| > 0 && !InBounds(trail[|trail| - 1])
  }

  predicate AllValidTrails(bs: seq<Bullet>)
  {
    forall b :: b in bs ==> ValidTrail(b.trail)
  }

  /** `n` copies of one bullet, as the list comprehensions build them. */
  function Copies(b: Bullet, n: nat): (r: seq<Bullet>)
    ensures |r| == n && forall x :: x in r ==> x == b
  {
    seq(n, _ => b)
  }

  predicate NoDup<T(==)>(s: seq<T>)
  {
    forall i, j :: 0 <= i < j < |s| ==> s[i] != s[j]
  }

  /** The wall list with the health and total maps: no wall listed twice,
      and every listed wall has 1 <= health <= total. Maps keep entries of
      destroyed walls. */
  predicate WallsSound(walls: seq<Cell>, health: map<Cell, int>, total: map<Cell, int>)
  {
    NoDup(walls) &&
    forall c :: c in walls ==> c in health && c in total && 1 <= health[c] <= total[c]
  }

  /** A new wall appended with health and total `n` keeps the walls sound. */
  lemma AddWallSound(walls: seq<Cell>, health: map<Cell, int>, total: map<Cell, int>, t: Cell, n: int)
    requires WallsSound(walls, health, total) && t !in walls && n >= 1
    ensures WallsSound(walls + [t], health[t := n], total[t := n])
  {
    var ws := walls + [t];
    forall i, j | 0 <= i < j < |ws|
      ensures ws[i] != ws[j]
    {
      if j == |walls| {
        assert ws[i] in walls;
      }
    }
  }

  /** Python's `list.remove`: drop the first occurrence, if any. */
  function RemoveFirst(s: seq<Cell>, x: Cell): (r: seq<Cell>)
    ensures x in s ==> |r| == |s| - 1
    ensures x !in s ==> r == s
    ensures forall y :: y in r ==> y in s
    ensures forall y :: y != x ==> (y in r <==> y in s)
  {
    if s == [] then []
    else if s[0] == x then s[1..]
    else [s[0]] + RemoveFirst(s[1..], x)
  }

  /** Where `x` first occurs in `s`. */
  function FirstIndex(s: seq<Cell>, x: Cell): (i: nat)
    requires x in s
    ensures i < |s| && s[i] == x && x !in s[..i]
  {
    if s[0] == x then 0
    else
      var k := FirstIndex(s[1..], x);
      assert s[..k + 1] == [s[0]] + s[1..][..k];
      k + 1
  }

  /** The occurrence removed is the first one, and the other elements keep
      their order. */
  lemma {:induction false} RemoveFirstKeepsOrder(s: seq<Cell>, x: Cell)
    requires x in s
    ensures var i := FirstIndex(s, x);
            RemoveFirst(s, x) == s[..i] + s[i + 1..]
  {
    if s[0] != x {
      var k := FirstIndex(s[1..], x);
      RemoveFirstKeepsOrder(s[1..], x);
      assert s[..k + 1] == [s[0]] + s[1..][..k];
      assert s[k + 2..] == s[1..][k + 1..];
    }
  }

  /** On a list without repeats, removing a cell removes it completely. */
  lemma {:induction false} RemoveFirstNoDup(s: seq<Cell>, x: Cell)
    requires NoDup(s)
    ensures NoDup(RemoveFirst(s, x)) && x !in RemoveFirst(s, x)
  {
    if s != [] && s[0] != x {
      assert NoDup(s[1..]);
      RemoveFirstNoDup(s[1..], x);
      assert s[0] !in s[1..];
    } else if s != [] {
      assert s[0] !in s[1..];
    }
  }

  /** What a bullet can touch: walls and their health, P2's cell and hp,
      and P1's mana (an amulet hit refunds one). */
  datatype Arena = Arena(walls: seq<Cell>, health: map<Cell, int>, total: map<Cell, int>,
                         enemy: Cell, enemyHp: int, mana: int)

  predicate SoundArena(a: Arena)
  {
    WallsSound(a.walls, a.health, a.total)
  }

  /** One point of damage to the wall at `c`, which is removed from the
      list once its health is no longer positive. */
  function DamageWall(a: Arena, c: Cell): (r: Arena)
    requires SoundArena(a) && c in a.walls
    ensures SoundArena(r)
    ensures r.health == a.health[c := a.health[c] - 1]
    ensures c in r.walls <==> a.health[c] >= 2
    ensures forall w :: w != c ==> (w in r.walls <==> w in a.walls)
    ensures r.total == a.total && r.enemy == a.enemy && r.enemyHp == a.enemyHp && r.mana == a.mana
  {
    var h := a.health[c] - 1;
    var walls := if h <= 0 then RemoveFirst(a.walls, c) else a.walls;
    RemoveFirstNoDup(a.walls, c);
    a.(health := a.health[c := h], walls := walls)
  }

  /** Skill 1 always stops at what it hits; a basic-attack shot does so only
      in the first half of `update_bullets` (`normalSingleHit`). */
  predicate SingleHit(kind: BulletKind, normalSingleHit: bool)
  {
    kind == NeedleShot || (normalSingleHit && kind == BasicShot)
  }

  /** The result of one bullet's advance: the arena after it, the bullet if
      it is still flying, and the cell that took damage, if any. */
  datatype Step = Step(arena: Arena, kept: Option<Bullet>, struck: Option<Cell>)

  /** The enemy check, run on a bullet that is still flying after the wall check. */
  function HitEnemy(a: Arena, b: Bullet, c: Cell, normalSingleHit: bool): (r: Step)
    ensures r.struck.Some? <==>
            c == a.enemy && (SingleHit(b.kind, normalSingleHit) || (b.kind == AmuletShot && c !in b.hit))
    ensures r.arena.enemyHp == (if r.struck.Some? then a.enemyHp - 1 else a.enemyHp)
    ensures r.arena.mana == (if r.struck.Some? && !SingleHit(b.kind, normalSingleHit) then a.mana + 1 else a.mana)
    ensures r.arena.(enemyHp := a.enemyHp, mana := a.mana) == a
    ensures r.kept.None? <==> r.struck.Some? && SingleHit(b.kind, normalSingleHit)
  {
    if c != a.enemy then Step(a, Some(b), None)
    else if SingleHit(b.kind, normalSingleHit) then
      Step(a.(enemyHp := a.enemyHp - 1), None, Some(c))
    else if b.kind == AmuletShot && c !in b.hit then
      Step(a.(enemyHp := a.enemyHp - 1, mana := a.mana + 1), Some(b.(hit := b.hit + {c})), Some(c))
    else Step(a, Some(b), None)
  }

  /** One bullet's advance into the next cell of its trail: off the map it
      is dropped; on a wall a single-hit bullet damages it and is spent while
      an amulet damages it once; then on P2's cell a single-hit bullet costs
      P2 one hp and is spent while an amulet does so once and refunds a mana. */
  function StepBullet(a: Arena, b: Bullet, normalSingleHit: bool): (s: Step)
    requires SoundArena(a) && ValidTrail(b.trail)
    ensures SoundArena(s.arena)
    ensures s.arena.total == a.total && s.arena.enemy == a.enemy
    ensures !InBounds(b.trail[0]) ==> s.kept.None? && s.struck.None?
    ensures s.struck.None? ==> s.arena == a
    ensures s.struck.Some? ==> s.struck.value == b.trail[0] && InBounds(b.trail[0]) &&
                               (b.trail[0] in a.walls || b.trail[0] == a.enemy)
    ensures s.kept.Some? ==> s.kept.value.kind == b.kind && s.kept.value.owner == b.owner &&
                             s.kept.value.trail == b.trail[1..] && ValidTrail(s.kept.value.trail)
    ensures SingleHit(b.kind, normalSingleHit) ==> (s.kept.Some? <==> InBounds(b.trail[0]) && s.struck.None?)
    ensures b.kind == AmuletShot ==> (s.kept.Some? <==> InBounds(b.trail[0]))
    ensures b.kind == AmuletShot && s.struck.Some? ==> s.struck.value !in b.hit
    ensures b.kind == AmuletShot && s.kept.Some? ==>
              s.kept.value.hit == b.hit + (if s.struck.Some? then {s.struck.value} else {})
    ensures b.kind != AmuletShot && s.kept.Some? ==> s.kept.value.hit == b.hit
    ensures a.mana <= s.arena.mana <= a.mana + 1
    ensures a.enemyHp - 1 <= s.arena.enemyHp <= a.enemyHp
    ensures s.arena.mana == a.mana + 1 ==> b.kind == AmuletShot && s.struck == Some(a.enemy)
    ensures var c := b.trail[0];
            InBounds(c) && (c in a.walls || c == a.enemy) &&
            (SingleHit(b.kind, normalSingleHit) || (b.kind == AmuletShot && c !in b.hit)) ==>
              s.struck == Some(c)
    ensures var c := b.trail[0];
            s.struck == Some(c) && c in a.walls ==> s.arena == DamageWall(a, c)
    ensures var c := b.trail[0];
            s.struck == Some(c) && c !in a.walls ==>
              s.arena == a.(enemyHp := a.enemyHp - 1, mana := a.mana + (if b.kind == AmuletShot then 1 else 0))
    ensures !SingleHit(b.kind, normalSingleHit) && b.kind != AmuletShot ==>
              s.struck.None? && (s.kept.Some? <==> InBounds(b.trail[0]))
  {
    var c := b.trail[0];
    var moved := b.(trail := b.trail[1..]);
    if !InBounds(c) then Step(a, None, None)
    else if c in a.walls && SingleHit(b.kind, normalSingleHit) then
      Step(DamageWall(a, c), None, Some(c))
    else if c in a.walls && b.kind == AmuletShot && c !in b.hit then
      // the enemy check that follows finds `c` already in the hit set
      Step(DamageWall(a, c), Some(moved.(hit := b.hit + {c})), Some(c))
    else HitEnemy(a, moved, c, normalSingleHit)
  }

  /** The survivors and the arena after one loop over the active bullets. */
  datatype PassResult = PassResult(arena: Arena, survivors: seq<Bullet>)

  /** One loop of `update_bullets` over a copy of the active list, each
      bullet stepped in order against the arena the earlier ones left. */
  function Pass(a: Arena, bs: seq<Bullet>, normalSingleHit: bool): (r: PassResult)
    requires SoundArena(a) && AllValidTrails(bs)
    ensures SoundArena(r.arena) && AllValidTrails(r.survivors)
    ensures |r.survivors| <= |bs|
    ensures r.arena.total == a.total && r.arena.enemy == a.enemy
    ensures a.mana <= r.arena.mana <= a.mana + |bs|
    ensures a.enemyHp - |bs| <= r.arena.enemyHp <= a.enemyHp
    decreases |bs|
  {
    if bs == [] then PassResult(a, [])
    else
      var last := bs[|bs| - 1];
      var before := Pass(a, bs[..|bs| - 1], normalSingleHit);
      var s := StepBullet(before.arena, last, normalSingleHit);
      PassResult(s.arena, before.survivors + (if s.kept.Some? then [s.kept.value] else []))
  }

  /** The cells one amulet damages over a flight in which it is stepped
      against `arenas` in turn (other bullets may change the arena between
      its steps), each step in either half of `update_bullets`. */
  function FlightStrikes(b: Bullet, arenas: seq<(Arena, bool)>): seq<Cell>
    requires b.kind == AmuletShot && ValidTrail(b.trail)
    requires forall a :: a in arenas ==> SoundArena(a.0)
    decreases |arenas|
  {
    if arenas == [] then []
    else
      var s := StepBullet(arenas[0].0, b, arenas[0].1);
      (if s.struck.Some? then [s.struck.value] else []) +
      (if s.kept.Some? then FlightStrikes(s.kept.value, arenas[1..]) else [])
  }

  /** A piercing amulet damages each cell at most once in its whole flight,
      and never one already in its hit set. */
  lemma {:induction false} AmuletStrikesEachCellOnce(b: Bullet, arenas: seq<(Arena, bool)>)
    requires b.kind == AmuletShot && ValidTrail(b.trail)
    requires forall a :: a in arenas ==> SoundArena(a.0)
    ensures NoDup(FlightStrikes(b, arenas))
    ensures forall c :: c in FlightStrikes(b, arenas) ==> c !in b.hit
    decreases |arenas|
  {
    if arenas != [] {
      var s := StepBullet(arenas[0].0, b, arenas[0].1);
      var head := if s.struck.Some? then [s.struck.value] else [];
      var tail := if s.kept.Some? then FlightStrikes(s.kept.value, arenas[1..]) else [];
      if s.kept.Some? {
        AmuletStrikesEachCellOnce(s.kept.value, arenas[1..]);
      }
      assert forall c :: c in tail ==> c !in b.hit && c !in head;
      assert FlightStrikes(b, arenas) == head + tail;
    }
  }
}
