# Cookie shooter: the run state and its rules

This project models the game rules of a single-screen browser arcade shooter. They sit in
the page component `Index` (`src/pages/Index.tsx`). The player moves a hero up and down a
lane and fires the current weapon at enemies that enter from the right. Kills earn score,
a kill streak and style points. Style points buy further weapons in the shop, and a run's
score is promoted to the high score when the run ends.

The model has five modules:

- `Lists` (`lists.dfy`): order-preserving `filter`, which every cull in the game loop uses.
- `Entities` (`entities.dfy`): the records (`Character`, `Weapon`, `Enemy`, `Bullet`), the
  starting weapon table, the proximity test of a bullet and the `find` of the
  collision pass.
- `Tick` (`tick.dfy`): one animation frame as values. This covers the spawn roll, the
  move-and-cull step, the collision pass as a specification (`HitStep`, `RunPass`) and as
  the loop the code runs (`CollisionPass`), and the whole frame body (`Frame`).
- `Actions` (`actions.dfy`): the mouse clamp, the ownership update of a purchase, and the
  weapon-switch test of a shot.
- `Game` (`game.dfy`): the class `GameState`. It holds the component's state fields and has
  one method per handler. `Valid()` is the invariant every handler keeps:
  - style points, score, high score, streak and distance are non-negative;
  - weapon ids are unique;
  - the current weapon is an owned entry of the table;
  - only an unlocked hero is selected;
  - `playerY` is in [10, 90];
  - every bullet has `x < 110`;
  - every enemy has `x > -10` and health above 0.

Each handler applies its state setters in the order it calls them. It reads the other
fields as they were when the handler started, as a closure over one render does. Within a
frame this means:

- the collision pass runs the bullets as they were before the frame's move against the
  enemies after the frame's spawn and move;
- the damage dealt is always the current weapon's damage, whatever weapon fired the bullet;
- the streak bonus uses the streak as it was when the frame started.

The score, streak and style setters that the code calls inside the enemy updater are
modelled as running once, in order.

Horizontal positions are integers, because every step is integral (spawn at 100, enemies
-2, bullets fired at 15 and +4). Vertical positions are reals.

Three things the code reads from outside are parameters of the methods:

- `Math.random()` becomes `spawn`, `spawnY` and `glyph` of `GameState.Tick`;
- `Date.now()` becomes `now`, used as the entity id;
- the mouse height becomes `rawY` of `GameState.MovePlayer`.

`GameState.SelectWeapon` requires an owned entry of the table, because the shop offers the
equip button only for owned weapons. `GameState.Tick` requires a spawn height in [10, 90)
and a picture index below 5, the ranges the random draws produce.

Points where the code behaves differently from what a reader of the game might expect:

- The code has no combo timer and no combo rank labels. Neither is modelled.
- A shot that switches weapons earns 5 + 2 = 7 style points, not just double the base point of 1.
- The check for a recorded previous weapon uses JavaScript truthiness (`Actions.Truthy`), so
  a recorded id of 0 counts as none. The ids of the weapon table start at 1.
- The search of the collision pass does not skip enemies already killed in the same pass.
  So a later bullet that reaches a dead enemy is scored as a second kill
  (`Tick.DeadEnemyScoredAgain`).

## Model

| member | source | states |
|---|---|---|
| `Lists.Filter` | src/pages/Index.tsx:101-109 | The result keeps only elements of the input that satisfy the predicate, keeps every input element that does, and is no longer than the input. |
| `Lists.FilterAppend` | src/pages/Index.tsx:101-109 | Filtering a concatenation is the concatenation of the filtered parts. |
| `Lists.FilterPosition` | src/pages/Index.tsx:101-109 | A kept element lands in the result at the index equal to the number of kept elements before it. |
| `Lists.FilterKeepsOrder` | src/pages/Index.tsx:101-109 | Two kept elements at input positions i < j appear in the result at positions a < b: filtering preserves relative order. |
| `Entities.FindFirst` | src/pages/Index.tsx:116-119 | Returns the index of the first enemy in list order within 5 of the bullet on both axes, dead or alive; returns none exactly when no enemy is that close. |
| `Tick.Spawned` | src/pages/Index.tsx:91-97 | A spawned enemy enters at x = 100 with 30 health; it is on the field and stays on it through the move of its first frame. |
| `Tick.Arrivals` | src/pages/Index.tsx:90-99 | The spawn roll keeps every enemy already on the field, first and unchanged, and a successful roll adds exactly one enemy behind them. |
| `Tick.SpawnJoinsBehind` | src/pages/Index.tsx:90-104 | After the spawn and the move, a spawned enemy sits behind the move's survivors at x = 98 with 30 health and its own id, height and picture; without a spawn the move sees the list unchanged. |
| `Tick.MoveEnemies` | src/pages/Index.tsx:101-104 | Every survivor is an input enemy moved left by 2 with nothing else changed, and has x > -10 and health > 0; every moved enemy meeting that bound survives. |
| `Tick.MoveBullets` | src/pages/Index.tsx:106-109 | Every survivor is an input bullet moved right by 4 with nothing else changed, and has x < 110; every moved bullet meeting that bound survives. |
| `Tick.MoveEnemiesKeepsOrder` | src/pages/Index.tsx:101-104 | Two surviving enemies keep their relative order through the move. |
| `Tick.MoveBulletsKeepsOrder` | src/pages/Index.tsx:106-109 | Two surviving bullets keep their relative order through the move. |
| `Tick.KillBonus` | src/pages/Index.tsx:127-129 | With a non-negative streak, a kill earns at least 10 and at most 15 + 5 * floor(streak / 3) style points. |
| `Tick.HitStep` | src/pages/Index.tsx:115-133 | One bullet keeps the enemy count. It scores at most one kill, and a kill adds the kill bonus for the weapons used so far. Only the bullet's own weapon id can join the used set. Without a current weapon nothing changes. |
| `Tick.HitStepTouchesFirstNear` | src/pages/Index.tsx:116-122 | Only the first enemy near the bullet can change, and only when a weapon is current. It loses exactly the current weapon's damage and no other field changes. At most one enemy changes. |
| `Tick.HitStepKills` | src/pages/Index.tsx:120-131 | A bullet scores a kill exactly when a weapon is current and the first enemy it is near is left at health <= 0 (even if already dead). The weapon id joins the used set exactly when the bullet hits something. |
| `Tick.RunPass` | src/pages/Index.tsx:111-134 | The pass specification: `HitStep` applied to the bullets in order. Its properties are the `Pass...` lemmas below (length, order and positions kept, at most one kill per bullet, style bounds). |
| `Tick.PassKeepsPositions` | src/pages/Index.tsx:111-135 | The whole pass keeps the enemy list's length and order, and keeps every enemy's id, position and glyph. Only health changes, and with non-negative damage it never rises. |
| `Tick.PassWithoutWeapon` | src/pages/Index.tsx:120 | Without a current weapon the pass changes nothing and scores nothing. |
| `Tick.PassKillCount` | src/pages/Index.tsx:115-131 | A pass scores at most one kill per bullet. |
| `Tick.PassKillBounds` | src/pages/Index.tsx:123-131 | With a non-negative streak, the style points of a pass lie between 10 and 15 + 5 * floor(streak / 3) per kill. |
| `Tick.SingleWeaponPassStyle` | src/pages/Index.tsx:113-131 | When every bullet comes from one weapon, no kill gets the variety bonus. Each kill earns exactly 10 + 5 * floor(streak / 3). |
| `Tick.CollisionSurvivorsOnField` | src/pages/Index.tsx:111-135 | If every moved enemy is on the field, every enemy surviving the pass has x > -10 and health > 0. |
| `Tick.DeadEnemyScoredAgain` | src/pages/Index.tsx:116-125 | Two bullets on one enemy that the first bullet kills score two kills. The enemy is removed once. |
| `Tick.CollisionPass` | src/pages/Index.tsx:111-136 | The loop over the bullets, which damages enemies in place and then drops the dead, returns exactly the survivors, kills and style points of the pass specification `RunPass`. |
| `Tick.Frame` | src/pages/Index.tsx:87-136 | A frame appends the spawned enemy (x = 100, health 30), moves and culls enemies and bullets, and runs the pre-move bullets against the moved enemies. The new enemies are on the field, the new bullets in flight, kills are at most one per bullet, and style is at least 10 per kill. |
| `Actions.ClampY` | src/pages/Index.tsx:350 | The player height always lies in [10, 90]. It equals the raw height when that is in range, and 10 or 90 when it is below or above. |
| `Actions.MarkOwned` | src/pages/Index.tsx:190-192 | The table keeps its length. Each entry with the bought id becomes owned and every other entry keeps its owned flag. No other field of any entry changes. |
| `Actions.PurchaseFlipsOnlyTarget` | src/pages/Index.tsx:187-194 | With unique ids, buying the k-th weapon flips exactly its owned flag, leaves every other entry unchanged and keeps the ids unique. |
| `Actions.MarkOwnedKeepsIds` | src/pages/Index.tsx:190-192 | A purchase keeps the ids unique and keeps every already-owned entry (such as the current weapon) in the table. |
| `Game.GameState.Valid` | src/pages/Index.tsx:45-59 | The invariant of the state: non-negative counters, unique weapon ids, an owned current weapon from the table, an unlocked selected hero, the player in [10, 90], bullets with x < 110 and enemies with x > -10 and health > 0. |
| `Game.GameState.constructor` | src/pages/Index.tsx:45-82 | The initial state: menu screen, no hero, first weapon current, counters 0, player at 50, empty field, invariant established. |
| `Game.GameState.SelectCharacter` | src/pages/Index.tsx:196-200 | A locked hero is ignored; an unlocked one becomes selected; the invariant is kept. |
| `Game.GameState.StartGame` | src/pages/Index.tsx:147-159 | Without a selected hero nothing changes. Otherwise score, distance, style points and streak become 0, the field is emptied, the player is at 50, no weapon is recorded, and the run starts on the game screen. |
| `Game.GameState.EndGame` | src/pages/Index.tsx:161-165 | The run stops, the menu is shown and the high score becomes max(high score, score). So the high score never decreases and ends at least the score. |
| `Game.GameState.Shoot` | src/pages/Index.tsx:167-185 | Without a current weapon nothing changes. Otherwise it appends one bullet at x = 15 and the player's height, tagged with the current weapon, and records that weapon. Style points rise by 7 when a different weapon was recorded, else by 1. |
| `Game.GameState.BuyWeapon` | src/pages/Index.tsx:187-194 | Only when style points cover the price and the weapon is unowned: the price is paid and the weapon marked owned. Otherwise nothing changes, and style points stay non-negative. |
| `Game.GameState.SelectWeapon` | src/pages/Index.tsx:433-440 | An owned weapon of the table becomes current; the invariant is kept. |
| `Game.GameState.MovePlayer` | src/pages/Index.tsx:346-352 | The player height becomes the clamped mouse height. |
| `Game.GameState.Tick` | src/pages/Index.tsx:87-136 | Distance grows by 1 and the bullets and enemies become those of `Frame`. Score grows by 10 per kill, the streak by 1 per kill and style by the pass's style. The invariant, including the field bounds, is kept. |

## Left out

- Rendering, Tailwind classes, icons and emoji strings (src/pages/Index.tsx:202-491). These are presentation. Enemy pictures are kept only as an index.
- The screen navigation buttons. Only the screen changes made by `startGame` and `endGame` are modelled.
- React scheduling. This covers effect re-runs on dependency changes, `requestAnimationFrame` and `cancelAnimationFrame`, and a frame that might still fire after a run has ended. `GameState.Tick` is simply called while a run is active.
- The effect that makes the first weapon current (src/pages/Index.tsx:78-82). It is the initial state of `GameState.constructor`: once set, the current weapon is never cleared.
- A development-mode double call of state updaters. Every updater runs once.
- `Math.random()` and `Date.now()`. These are parameters. Ids carry no meaning in the rules.
- The DOM geometry of the mouse handler (`getBoundingClientRect`, the division by the height). This is browser input with floating-point division; only the clamp is modelled.
- Floating-point arithmetic in general. Vertical positions are mathematical reals, and horizontal positions are exact integers.
- `coins` is never used. `fireRate` is display-only and never enforced, so it is only a field.
- The hero table (src/pages/Index.tsx:63-68). Only a hero's `unlocked` flag matters to the rules, and `GameState.SelectCharacter` takes any hero, so the table's contents are not modelled.
