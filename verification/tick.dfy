/**
 * One frame of the game loop, without the state container: the spawned enemy, the
 * move-and-cull step for enemies and bullets, and the bullet-by-bullet collision pass
 * with its kill accounting.
 */
module Tick {
  import opened Lists
  import opened Entities

  /**
   * An enemy entering at the right edge (x = 100) with 30 health, at height `y`. It is
   * on the field, and still is after the move of the frame it joins in.
   */
  function Spawned(id: int, y: real, glyph: nat): (e: Enemy)
    ensures OnField(e) && OnField(Retreated(e))
  {
    Enemy(id, 100, y, 30, glyph)
  }

  /**
   * The enemy list once this frame's spawn roll has been applied: the enemies already
   * on the field stay first and unchanged, and a successful roll adds exactly one
   * enemy behind them.
   */
  function Arrivals(es: seq<Enemy>, spawn: bool, id: int, y: real, glyph: nat): (r: seq<Enemy>)
    ensures |r| == |es| + (if spawn then 1 else 0)
    ensures r[..|es|] == es
  {
    if spawn then es + [Spawned(id, y, glyph)] else es
  }

  // ---------------------------------------------------------------------------
  // Move and cull

  /** An enemy one frame later: two units further left, nothing else changed. */
  function Retreated(e: Enemy): Enemy {
    e.(x := e.x - 2)
  }

  /** A bullet one frame later: four units further right, nothing else changed. */
  function Advanced(b: Bullet): Bullet {
    b.(x := b.x + 4)
  }

  /** An enemy that stays on the field: not past the left edge and not dead. */
  predicate OnField(e: Enemy) {
    e.x > -10 && e.health > 0
  }

  /** A bullet that stays in flight: not past the right edge. */
  predicate InFlight(b: Bullet) {
    b.x < 110
  }

  /** An enemy the collision pass keeps. */
  predicate Alive(e: Enemy) {
    e.health > 0
  }

  function Retreat(es: seq<Enemy>): seq<Enemy> {
    seq(|es|, i requires 0 <= i < |es| => Retreated(es[i]))
  }

  function Advance(bs: seq<Bullet>): seq<Bullet> {
    seq(|bs|, i requires 0 <= i < |bs| => Advanced(bs[i]))
  }

  /**
   * The enemy update of a frame: every enemy moves left by 2, and exactly the moved
   * enemies that are still on the field survive, in their original order.
   */
  function MoveEnemies(es: seq<Enemy>): (r: seq<Enemy>)
    ensures |r| <= |es|
    ensures forall k :: 0 <= k < |r| ==> OnField(r[k])
    ensures forall k :: 0 <= k < |r| ==> exists i :: 0 <= i < |es| && r[k] == Retreated(es[i])
    ensures forall i :: 0 <= i < |es| && OnField(Retreated(es[i])) ==> Retreated(es[i]) in r
  {
    var moved := Retreat(es);
    assert forall k :: 0 <= k < |moved| ==> moved[k] == Retreated(es[k]);
    Filter(moved, OnField)
  }

  /**
   * The bullet update of a frame: every bullet moves right by 4, and exactly the moved
   * bullets still in flight survive, in their original order.
   */
  function MoveBullets(bs: seq<Bullet>): (r: seq<Bullet>)
    ensures |r| <= |bs|
    ensures forall k :: 0 <= k < |r| ==> InFlight(r[k])
    ensures forall k :: 0 <= k < |r| ==> exists i :: 0 <= i < |bs| && r[k] == Advanced(bs[i])
    ensures forall i :: 0 <= i < |bs| && InFlight(Advanced(bs[i])) ==> Advanced(bs[i]) in r
  {
    var moved := Advance(bs);
    assert forall k :: 0 <= k < |moved| ==> moved[k] == Advanced(bs[k]);
    Filter(moved, InFlight)
  }

  /** Two surviving enemies keep their relative order through the move. */
  lemma MoveEnemiesKeepsOrder(es: seq<Enemy>, i: nat, j: nat)
    requires i < j < |es| && OnField(Retreated(es[i])) && OnField(Retreated(es[j]))
    ensures exists a, b :: 0 <= a < b < |MoveEnemies(es)|
                        && MoveEnemies(es)[a] == Retreated(es[i])
                        && MoveEnemies(es)[b] == Retreated(es[j])
  {
    var moved := Retreat(es);
    FilterKeepsOrder(moved, OnField, i, j);
    var a, b := |Filter(moved[..i], OnField)|, |Filter(moved[..j], OnField)|;
    assert MoveEnemies(es)[a] == Retreated(es[i]);
    assert MoveEnemies(es)[b] == Retreated(es[j]);
  }

  /** Two surviving bullets keep their relative order through the move. */
  lemma MoveBulletsKeepsOrder(bs: seq<Bullet>, i: nat, j: nat)
    requires i < j < |bs| && InFlight(Advanced(bs[i])) && InFlight(Advanced(bs[j]))
    ensures exists a, b :: 0 <= a < b < |MoveBullets(bs)|
                        && MoveBullets(bs)[a] == Advanced(bs[i])
                        && MoveBullets(bs)[b] == Advanced(bs[j])
  {
    var moved := Advance(bs);
    FilterKeepsOrder(moved, InFlight, i, j);
    var a, b := |Filter(moved[..i], InFlight)|, |Filter(moved[..j], InFlight)|;
    assert MoveBullets(bs)[a] == Advanced(bs[i]);
    assert MoveBullets(bs)[b] == Advanced(bs[j]);
  }

  /**
   * The spawn roll followed by the move: a spawned enemy ends the frame behind the
   * survivors of the move, two units in from the right edge with full health; without
   * a spawn the move sees the list as it was.
   */
  lemma SpawnJoinsBehind(es: seq<Enemy>, id: int, y: real, glyph: nat)
    ensures MoveEnemies(Arrivals(es, true, id, y, glyph)) == MoveEnemies(es) + [Enemy(id, 98, y, 30, glyph)]
    ensures MoveEnemies(Arrivals(es, false, id, y, glyph)) == MoveEnemies(es)
  {
    var s := Retreated(Spawned(id, y, glyph));
    assert Retreat(es + [Spawned(id, y, glyph)]) == Retreat(es) + [s];
    FilterAppend(Retreat(es), [s], OnField);
    assert Filter([s], OnField) == [s];
  }

  // ---------------------------------------------------------------------------
  // Collision pass

  /**
   * The state the collision pass threads through its bullets: the enemy list it
   * damages in place, the set of weapon ids that scored a hit so far, and the kills
   * and style points it has queued for the score counters.
   */
  datatype Pass = Pass(enemies: seq<Enemy>, used: set<int>, kills: nat, style: int)

  /**
   * Style points for one kill: a variety bonus of 15 once two or more weapons have
   * hit in this pass (10 otherwise), plus 5 for every three kills of the streak as it
   * stood when the frame started. Dafny's `/` by a positive divisor rounds down, as
   * `Math.floor(streak / 3)` does.
   */
  function KillBonus(weaponsUsed: nat, streak: int): (r: int)
    ensures streak >= 0 ==> 10 <= r <= 15 + (streak / 3) * 5
  {
    (if weaponsUsed > 1 then 15 else 10) + (streak / 3) * 5
  }

  /**
   * One bullet of the collision pass, as the queued counters see it: the enemy list
   * keeps its length, the bullet scores at most one kill, a kill earns `KillBonus`
   * for the weapons used so far, and only this bullet's weapon id can join the set.
   */
  function HitStep(p: Pass, b: Bullet, weapon: Option<Weapon>, streak: int): (q: Pass)
    ensures |q.enemies| == |p.enemies|
    ensures q.used <= p.used + {b.weaponId}
    ensures q.kills == p.kills || q.kills == p.kills + 1
    ensures q.style == p.style + (if q.kills > p.kills then KillBonus(|q.used|, streak) else 0)
    ensures weapon.None? ==> q == p
  {
    match weapon
    case None => p
    case Some(w) =>
      match FindFirst(p.enemies, b)
      case None => p
      case Some(j) =>
        var used := p.used + {b.weaponId};
        var hit := p.enemies[j].(health := p.enemies[j].health - w.damage);
        var enemies := p.enemies[j := hit];
        if hit.health <= 0 then Pass(enemies, used, p.kills + 1, p.style + KillBonus(|used|, streak))
        else Pass(enemies, used, p.kills, p.style)
  }

  /**
   * Which enemy one bullet touches: at most one, the first in list order that it is
   * near, and only when a weapon is current; that enemy loses the current weapon's
   * damage, whatever weapon fired the bullet. Every other enemy is left as it was.
   */
  lemma HitStepTouchesFirstNear(p: Pass, b: Bullet, weapon: Option<Weapon>, streak: int)
    ensures var q := HitStep(p, b, weapon, streak);
      forall i :: 0 <= i < |p.enemies| ==>
        q.enemies[i] == if weapon.Some? && IsFirstNear(p.enemies, b, i)
                        then p.enemies[i].(health := p.enemies[i].health - weapon.value.damage)
                        else p.enemies[i]
    ensures var q := HitStep(p, b, weapon, streak);
      forall i, j :: 0 <= i < j < |p.enemies| ==> q.enemies[i] == p.enemies[i] || q.enemies[j] == p.enemies[j]
  {
  }

  /**
   * When one bullet scores a kill: exactly when a weapon is current and the first enemy
   * it is near is left at zero health or below, even if that enemy was already dead.
   * The weapon id joins the set exactly when the bullet hits something.
   */
  lemma HitStepKills(p: Pass, b: Bullet, weapon: Option<Weapon>, streak: int)
    ensures var q := HitStep(p, b, weapon, streak);
      q.kills == p.kills + 1 <==>
        weapon.Some? &&
        exists i :: IsFirstNear(p.enemies, b, i) && p.enemies[i].health - weapon.value.damage <= 0
    ensures var q := HitStep(p, b, weapon, streak);
      q.used == if weapon.Some? && (exists i :: IsFirstNear(p.enemies, b, i))
                then p.used + {b.weaponId} else p.used
  {
  }

  /**
   * The whole pass: every bullet of `bs`, in order, starting from `p`. What it keeps
   * and what it scores are stated by the `Pass...` lemmas below.
   */
  function RunPass(p: Pass, bs: seq<Bullet>, weapon: Option<Weapon>, streak: int): Pass
    decreases |bs|
  {
    if bs == [] then p
    else RunPass(HitStep(p, bs[0], weapon, streak), bs[1..], weapon, streak)
  }

  /**
   * The pass never moves, adds, removes or reorders enemies: each keeps its id,
   * position and glyph, and only its health may change. With a non-negative damage,
   * health only goes down.
   */
  lemma {:induction false} PassKeepsPositions(p: Pass, bs: seq<Bullet>, weapon: Option<Weapon>, streak: int)
    ensures var r := RunPass(p, bs, weapon, streak);
      |r.enemies| == |p.enemies| &&
      forall i :: 0 <= i < |p.enemies| ==> r.enemies[i] == p.enemies[i].(health := r.enemies[i].health)
    ensures weapon.Some? && weapon.value.damage >= 0 ==>
      var r := RunPass(p, bs, weapon, streak);
      forall i :: 0 <= i < |p.enemies| ==> r.enemies[i].health <= p.enemies[i].health
    decreases |bs|
  {
    if bs != [] {
      var q := HitStep(p, bs[0], weapon, streak);
      PassKeepsPositions(q, bs[1..], weapon, streak);
    }
  }

  /** Without a current weapon the pass changes nothing and scores nothing. */
  lemma {:induction false} PassWithoutWeapon(p: Pass, bs: seq<Bullet>, streak: int)
    ensures RunPass(p, bs, None, streak) == p
    decreases |bs|
  {
    if bs != [] {
      PassWithoutWeapon(p, bs[1..], streak);
    }
  }

  /** Each bullet of a pass scores at most one kill. */
  lemma {:induction false} PassKillCount(p: Pass, bs: seq<Bullet>, weapon: Option<Weapon>, streak: int)
    ensures var r := RunPass(p, bs, weapon, streak);
      p.kills <= r.kills <= p.kills + |bs|
    decreases |bs|
  {
    if bs != [] {
      var q := HitStep(p, bs[0], weapon, streak);
      assert RunPass(p, bs, weapon, streak) == RunPass(q, bs[1..], weapon, streak);
      PassKillCount(q, bs[1..], weapon, streak);
    }
  }

  /** Per-kill bounds of two consecutive stretches of a pass add up. */
  lemma AddBounds(cap: int, s1: int, s2: int, d1: int, d2: int)
    requires 10 * d1 <= s1 <= cap * d1 && 10 * d2 <= s2 <= cap * d2
    ensures 10 * (d1 + d2) <= s1 + s2 <= cap * (d1 + d2)
  {
    assert cap * (d1 + d2) == cap * d1 + cap * d2;
  }

  /** An exact per-kill rate over two consecutive stretches of a pass adds up. */
  lemma AddExact(base: int, s1: int, s2: int, d1: int, d2: int)
    requires s1 == base * d1 && s2 == base * d2
    ensures s1 + s2 == base * (d1 + d2)
  {
    assert base * (d1 + d2) == base * d1 + base * d2;
  }

  /** One bullet's style points: between 10 and 15 + 5 * floor(streak / 3) for its kill, if any. */
  lemma StepKillBounds(p: Pass, b: Bullet, weapon: Option<Weapon>, streak: int)
    requires streak >= 0
    ensures var q := HitStep(p, b, weapon, streak);
      10 * (q.kills - p.kills) <= q.style - p.style <= (15 + (streak / 3) * 5) * (q.kills - p.kills)
  {
  }

  /**
   * Style accounting of a pass: each kill earns between 10 and 15 + 5 * floor(streak / 3)
   * style points.
   */
  lemma {:induction false} PassKillBounds(p: Pass, bs: seq<Bullet>, weapon: Option<Weapon>, streak: int)
    requires streak >= 0
    ensures var r := RunPass(p, bs, weapon, streak);
      10 * (r.kills - p.kills) <= r.style - p.style <= (15 + (streak / 3) * 5) * (r.kills - p.kills)
    decreases |bs|
  {
    if bs != [] {
      var q := HitStep(p, bs[0], weapon, streak);
      var r := RunPass(q, bs[1..], weapon, streak);
      assert RunPass(p, bs, weapon, streak) == r;
      StepKillBounds(p, bs[0], weapon, streak);
      PassKillBounds(q, bs[1..], weapon, streak);
      AddBounds(15 + (streak / 3) * 5, q.style - p.style, r.style - q.style, q.kills - p.kills, r.kills - q.kills);
    }
  }

  /** One bullet of the single weapon: the used set stays within it, and a kill earns the base bonus. */
  lemma StepSingleWeapon(p: Pass, b: Bullet, weapon: Option<Weapon>, streak: int, id: int)
    requires p.used <= {id} && b.weaponId == id
    ensures var q := HitStep(p, b, weapon, streak);
      q.used <= {id} && q.style - p.style == (10 + (streak / 3) * 5) * (q.kills - p.kills)
  {
    var q := HitStep(p, b, weapon, streak);
    assert q.used <= {id};
    assert |q.used| <= 1 by {
      if q.used != {} {
        assert q.used == {id};
      }
    }
  }

  /**
   * When every bullet was fired by one weapon, no kill earns the variety bonus: each
   * kill is worth exactly 10 + 5 * floor(streak / 3).
   */
  lemma {:induction false} SingleWeaponPassStyle(p: Pass, bs: seq<Bullet>, weapon: Option<Weapon>, streak: int, id: int)
    requires p.used <= {id}
    requires forall k :: 0 <= k < |bs| ==> bs[k].weaponId == id
    ensures var r := RunPass(p, bs, weapon, streak);
      r.used <= {id} &&
      r.style - p.style == (10 + (streak / 3) * 5) * (r.kills - p.kills)
    decreases |bs|
  {
    if bs != [] {
      var q := HitStep(p, bs[0], weapon, streak);
      var r := RunPass(q, bs[1..], weapon, streak);
      assert RunPass(p, bs, weapon, streak) == r;
      StepSingleWeapon(p, bs[0], weapon, streak, id);
      SingleWeaponPassStyle(q, bs[1..], weapon, streak, id);
      AddExact(10 + (streak / 3) * 5, q.style - p.style, r.style - q.style, q.kills - p.kills, r.kills - q.kills);
    }
  }

  /**
   * Enemies that survive the pass are on the field whenever the enemies it started
   * from were: the pass does not move them, and it drops every enemy at zero health.
   */
  lemma CollisionSurvivorsOnField(moved: seq<Enemy>, bs: seq<Bullet>, weapon: Option<Weapon>, streak: int)
    requires forall k :: 0 <= k < |moved| ==> OnField(moved[k])
    ensures var r := RunPass(Pass(moved, {}, 0, 0), bs, weapon, streak);
      forall k :: 0 <= k < |Filter(r.enemies, Alive)| ==> OnField(Filter(r.enemies, Alive)[k])
  {
    var r := RunPass(Pass(moved, {}, 0, 0), bs, weapon, streak);
    PassKeepsPositions(Pass(moved, {}, 0, 0), bs, weapon, streak);
    var survivors := Filter(r.enemies, Alive);
    forall k | 0 <= k < |survivors|
      ensures OnField(survivors[k])
    {
      var i :| 0 <= i < |r.enemies| && r.enemies[i] == survivors[k];
      assert r.enemies[i].x == moved[i].x;
    }
  }

  /**
   * The search of the pass does not skip enemies it has already killed: two bullets
   * at the spot of one enemy that the first bullet kills score two kills.
   */
  lemma DeadEnemyScoredAgain(e: Enemy, b: Bullet, w: Weapon, streak: int)
    requires Near(e, b) && e.health > 0 && w.damage >= e.health
    ensures var r := RunPass(Pass([e], {}, 0, 0), [b, b], Some(w), streak);
      |r.enemies| == 1 && r.kills == 2 && r.enemies[0].health <= 0 && Filter(r.enemies, Alive) == []
  {
    var p0 := Pass([e], {}, 0, 0);
    assert FindFirst(p0.enemies, b) == Some(0);
    var p1 := HitStep(p0, b, Some(w), streak);
    assert p1.enemies == [e.(health := e.health - w.damage)] && p1.kills == 1;
    assert FindFirst(p1.enemies, b) == Some(0);
    var p2 := HitStep(p1, b, Some(w), streak);
    assert p2.kills == 2 && p2.enemies[0].health <= 0;
    assert [b, b][1..] == [b];
    assert RunPass(p1, [b], Some(w), streak) == RunPass(p2, [], Some(w), streak);
    assert RunPass(p0, [b, b], Some(w), streak) == p2;
    assert Filter(p2.enemies[1..], Alive) == [];
  }

  /**
   * The collision pass as the game loop runs it: a loop over the bullets fired before
   * this frame's move, damaging the moved enemies in place and queueing kills and style
   * points, followed by dropping the enemies at zero health or below.
   */
  method CollisionPass(moved: seq<Enemy>, shots: seq<Bullet>, weapon: Option<Weapon>, streak: int)
    returns (survivors: seq<Enemy>, kills: nat, style: int)
    ensures var r := RunPass(Pass(moved, {}, 0, 0), shots, weapon, streak);
      survivors == Filter(r.enemies, Alive) && kills == r.kills && style == r.style
  {
    var updated := moved;
    var weaponsUsed: set<int> := {};
    kills, style := 0, 0;
    for i := 0 to |shots|
      invariant RunPass(Pass(updated, weaponsUsed, kills, style), shots[i..], weapon, streak)
             == RunPass(Pass(moved, {}, 0, 0), shots, weapon, streak)
    {
      var bullet := shots[i];
      ghost var before := Pass(updated, weaponsUsed, kills, style);
      var hit := FindFirst(updated, bullet);
      assert shots[i..][1..] == shots[i + 1..];
      assert RunPass(before, shots[i..], weapon, streak)
          == RunPass(HitStep(before, bullet, weapon, streak), shots[i + 1..], weapon, streak);
      if hit.Some? && weapon.Some? {
        var j := hit.value;
        weaponsUsed := weaponsUsed + {bullet.weaponId};
        updated := updated[j := updated[j].(health := updated[j].health - weapon.value.damage)];
        if updated[j].health <= 0 {
          kills := kills + 1;
          style := style + KillBonus(|weaponsUsed|, streak);
        }
      }
      assert Pass(updated, weaponsUsed, kills, style) == HitStep(before, bullet, weapon, streak);
    }
    assert shots[|shots|..] == [];
    survivors := Filter(updated, Alive);
  }

  /**
   * The collision pass of a frame: the bullets as they were when the frame started,
   * run against the enemies after the spawn and the move.
   */
  function FramePass(enemies: seq<Enemy>, bullets: seq<Bullet>, spawn: bool, spawnY: real, glyph: nat, now: int,
                     weapon: Option<Weapon>, streak: int): Pass
  {
    RunPass(Pass(MoveEnemies(Arrivals(enemies, spawn, now, spawnY, glyph)), {}, 0, 0), bullets, weapon, streak)
  }

  /**
   * The body of one animation frame, as values: the spawn roll's enemy joins, enemies
   * and bullets move and are culled, and the bullets of the previous frame are run
   * against the moved enemies. Returns the new lists and the kills and style points
   * the frame queues for the counters.
   */
  method Frame(enemies: seq<Enemy>, bullets: seq<Bullet>, spawn: bool, spawnY: real, glyph: nat, now: int,
               weapon: Option<Weapon>, streak: int)
    returns (nextEnemies: seq<Enemy>, nextBullets: seq<Bullet>, kills: nat, style: int)
    ensures nextBullets == MoveBullets(bullets)
    ensures var r := FramePass(enemies, bullets, spawn, spawnY, glyph, now, weapon, streak);
      nextEnemies == Filter(r.enemies, Alive) && kills == r.kills && style == r.style
    ensures forall k :: 0 <= k < |nextEnemies| ==> OnField(nextEnemies[k])
    ensures forall k :: 0 <= k < |nextBullets| ==> InFlight(nextBullets[k])
    ensures kills <= |bullets|
    ensures streak >= 0 ==> 10 * kills <= style
  {
    var moved := MoveEnemies(Arrivals(enemies, spawn, now, spawnY, glyph));
    nextBullets := MoveBullets(bullets);
    nextEnemies, kills, style := CollisionPass(moved, bullets, weapon, streak);
    PassKillCount(Pass(moved, {}, 0, 0), bullets, weapon, streak);
    if streak >= 0 {
      PassKillBounds(Pass(moved, {}, 0, 0), bullets, weapon, streak);
    }
    CollisionSurvivorsOnField(moved, bullets, weapon, streak);
  }
}
