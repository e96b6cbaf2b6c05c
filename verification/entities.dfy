/**
 * The records of the game: characters, weapons, enemies and bullets, the static
 * catalogues the game starts from, and the proximity test of the collision pass.
 *
 * Horizontal coordinates only ever take integral steps (spawn at 100, enemies -2,
 * bullets +4, bullets fired at 15), so `x` is an `int`; vertical coordinates come
 * from a random number or the mouse, so `y` is a `real`.
 */
module Entities {

  datatype Option<T> = None | Some(value: T)

  /** A playable hero. Stats are display data; only `unlocked` affects the rules. */
  datatype Character = Character(id: int, name: string, speed: int, power: int, health: int, unlocked: bool)

  /** A weapon of the shop. `fireRate` is display data and is never enforced. */
  datatype Weapon = Weapon(id: int, name: string, damage: int, fireRate: int, price: int, owned: bool)

  /** An enemy on the field; `glyph` indexes the five enemy pictures. */
  datatype Enemy = Enemy(id: int, x: int, y: real, health: int, glyph: nat)

  /** A bullet in flight, tagged with the weapon that was current when it was fired. */
  datatype Bullet = Bullet(id: int, x: int, y: real, weaponId: int)

  /** Number of enemy pictures a spawned enemy picks from. */
  const GlyphCount: nat := 5

  /** The weapon table a session starts with; only the first weapon is owned. */
  const Arsenal: seq<Weapon> := [
    Weapon(1, "Sprinkle Shot", 10, 500, 0, true),
    Weapon(2, "Chocolate Blast", 20, 700, 200, false),
    Weapon(3, "Rainbow Beam", 30, 600, 500, false),
    Weapon(4, "Candy Cannon", 50, 1000, 1000, false)
  ]

  /** No two weapons of a table share an id. */
  predicate UniqueIds(ws: seq<Weapon>) {
    forall i, j :: 0 <= i < j < |ws| ==> ws[i].id != ws[j].id
  }

  function Abs(n: int): nat {
    if n < 0 then -n else n
  }

  function RealAbs(r: real): real {
    if r < 0.0 then -r else r
  }

  /** A bullet touches an enemy when both coordinates are less than 5 apart. */
  predicate Near(e: Enemy, b: Bullet) {
    Abs(e.x - b.x) < 5 && RealAbs(e.y - b.y) < 5.0
  }

  /** `es[i]` is the first enemy of the list that bullet `b` touches. */
  predicate IsFirstNear(es: seq<Enemy>, b: Bullet, i: int) {
    0 <= i < |es| && Near(es[i], b) && forall h :: 0 <= h < i ==> !Near(es[h], b)
  }

  /**
   * The `find` of the collision pass: the index of the first enemy in list order that
   * bullet `b` touches, dead or alive, or `None` when it touches none.
   */
  function FindFirst(es: seq<Enemy>, b: Bullet): (r: Option<nat>)
    ensures r.Some? ==> IsFirstNear(es, b, r.value)
    ensures r.None? ==> forall i :: 0 <= i < |es| ==> !Near(es[i], b)
  {
    if es == [] then None
    else if Near(es[0], b) then Some(0)
    else match FindFirst(es[1..], b)
      case None => None
      case Some(j) => Some(j + 1)
  }
}
