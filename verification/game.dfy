/**
 * The run state of the shooter and its transitions. Each method is one handler of the
 * page component: the state setters it calls are applied in the order it calls them,
 * and it reads the other fields as they stood when the handler started. Random
 * numbers and the clock are parameters.
 */
module Game {
  import opened Lists
  import opened Entities
  import opened Tick
  import opened Actions

  /** The mutually exclusive screens of the page. */
  datatype Screen = Menu | Characters | Play | Shop | Leaderboard

  class GameState {
    var screen: Screen
    var selectedCharacter: Option<Character>
    var currentWeapon: Option<Weapon>
    var score: int
    var highScore: int
    var stylePoints: int
    /** Id of the weapon of the last shot, `None` before the first shot of a run. */
    var lastWeaponUsed: Option<int>
    var killStreak: int
    var isPlaying: bool
    /** Height of the player, in percent of the field. */
    var playerY: real
    var enemies: seq<Enemy>
    var bullets: seq<Bullet>
    var distance: int
    var weapons: seq<Weapon>

    /**
     * The invariant every handler keeps: counters are non-negative, the current
     * weapon is an owned entry of the table, only an unlocked hero is selected, the
     * player stays in the lane, and every entity on the field is inside its bounds.
     */
    ghost predicate Valid()
      reads this
    {
      && stylePoints >= 0
      && score >= 0
      && highScore >= 0
      && killStreak >= 0
      && distance >= 0
      && UniqueIds(weapons)
      && (currentWeapon.Some? ==> currentWeapon.value.owned && currentWeapon.value in weapons)
      && (selectedCharacter.Some? ==> selectedCharacter.value.unlocked)
      && LaneTop <= playerY <= LaneBottom
      && (forall k :: 0 <= k < |bullets| ==> InFlight(bullets[k]))
      && (forall k :: 0 <= k < |enemies| ==> OnField(enemies[k]))
    }

    /**
     * The state of a fresh page, after the effect that makes the first weapon of the
     * table current has run.
     */
    constructor ()
      ensures Valid()
      ensures screen == Menu && selectedCharacter == None && !isPlaying
      ensures weapons == Arsenal && currentWeapon == Some(Arsenal[0])
      ensures score == 0 && highScore == 0 && stylePoints == 0 && killStreak == 0 && distance == 0
      ensures lastWeaponUsed == None && playerY == 50.0 && enemies == [] && bullets == []
    {
      screen := Menu;
      selectedCharacter := None;
      weapons := Arsenal;
      currentWeapon := Some(Arsenal[0]);
      score, highScore, stylePoints, killStreak, distance := 0, 0, 0, 0, 0;
      lastWeaponUsed := None;
      isPlaying := false;
      playerY := 50.0;
      enemies, bullets := [], [];
    }

    /** Picking a hero: a locked hero is ignored. */
    method SelectCharacter(c: Character)
      requires Valid()
      modifies this`selectedCharacter
      ensures Valid()
      ensures selectedCharacter == if c.unlocked then Some(c) else old(selectedCharacter)
    {
      if c.unlocked {
        selectedCharacter := Some(c);
      }
    }

    /**
     * Starting a run: without a selected hero nothing happens; otherwise every
     * run-scoped counter and list is reset and the game screen is shown.
     */
    method StartGame()
      requires Valid()
      modifies this`isPlaying, this`score, this`distance, this`enemies, this`bullets,
               this`playerY, this`stylePoints, this`killStreak, this`lastWeaponUsed, this`screen
      ensures Valid()
      ensures old(selectedCharacter).None? ==>
        isPlaying == old(isPlaying) && score == old(score) && distance == old(distance) &&
        enemies == old(enemies) && bullets == old(bullets) && playerY == old(playerY) &&
        stylePoints == old(stylePoints) && killStreak == old(killStreak) &&
        lastWeaponUsed == old(lastWeaponUsed) && screen == old(screen)
      ensures old(selectedCharacter).Some? ==>
        isPlaying && score == 0 && distance == 0 && enemies == [] && bullets == [] &&
        playerY == 50.0 && stylePoints == 0 && killStreak == 0 &&
        lastWeaponUsed == None && screen == Play
    {
      if selectedCharacter.None? {
        return;
      }
      isPlaying := true;
      score := 0;
      distance := 0;
      enemies := [];
      bullets := [];
      playerY := 50.0;
      stylePoints := 0;
      killStreak := 0;
      lastWeaponUsed := None;
      screen := Play;
    }

    /**
     * Ending a run: the simulation stops, the score is promoted to the high score
     * when it beats it, and the menu is shown.
     */
    method EndGame()
      requires Valid()
      modifies this`isPlaying, this`highScore, this`screen
      ensures Valid()
      ensures !isPlaying && screen == Menu
      ensures highScore == if score > old(highScore) then score else old(highScore)
      ensures highScore >= old(highScore) && highScore >= score
    {
      isPlaying := false;
      if score > highScore {
        highScore := score;
      }
      screen := Menu;
    }

    /**
     * Firing: without a current weapon nothing happens. Otherwise one bullet leaves
     * the player's position tagged with the current weapon, the weapon is recorded as
     * the last used, and the shot earns 1 style point, or 5 + 2 when it switches from
     * a different recorded weapon.
     */
    method Shoot(now: int)
      requires Valid()
      modifies this`stylePoints, this`lastWeaponUsed, this`bullets
      ensures Valid()
      ensures old(currentWeapon).None? ==>
        stylePoints == old(stylePoints) && lastWeaponUsed == old(lastWeaponUsed) && bullets == old(bullets)
      ensures old(currentWeapon).Some? ==>
        var id := old(currentWeapon).value.id;
        && bullets == old(bullets) + [Bullet(now, 15, old(playerY), id)]
        && lastWeaponUsed == Some(id)
        && stylePoints == old(stylePoints) + (if Switched(old(lastWeaponUsed), id) then 7 else 1)
    {
      if currentWeapon.None? {
        return;
      }
      var weapon := currentWeapon.value;
      var styleBonus := 1;
      if Truthy(lastWeaponUsed) && lastWeaponUsed.value != weapon.id {
        styleBonus := 2;
        stylePoints := stylePoints + 5;
      }
      lastWeaponUsed := Some(weapon.id);
      var bullet := Bullet(now, 15, playerY, weapon.id);
      bullets := bullets + [bullet];
      stylePoints := stylePoints + styleBonus;
    }

    /**
     * Buying `weapon` (an entry of the shop as it was displayed): only when the style
     * points cover its price and it is not owned yet, in which case the price is paid
     * and every table entry with its id becomes owned. Otherwise nothing changes.
     */
    method BuyWeapon(weapon: Weapon)
      requires Valid()
      modifies this`stylePoints, this`weapons
      ensures Valid()
      ensures var bought := old(stylePoints) >= weapon.price && !weapon.owned;
        && stylePoints == (if bought then old(stylePoints) - weapon.price else old(stylePoints))
        && weapons == (if bought then MarkOwned(old(weapons), weapon.id) else old(weapons))
    {
      if stylePoints >= weapon.price && !weapon.owned {
        MarkOwnedKeepsIds(weapons, weapon.id);
        stylePoints := stylePoints - weapon.price;
        weapons := MarkOwned(weapons, weapon.id);
      }
    }

    /** Equipping an owned weapon of the shop. */
    method SelectWeapon(weapon: Weapon)
      requires Valid()
      requires weapon in weapons && weapon.owned
      modifies this`currentWeapon
      ensures Valid()
      ensures currentWeapon == Some(weapon)
    {
      currentWeapon := Some(weapon);
    }

    /** Moving the mouse: the player follows the mouse, clamped to the lane. */
    method MovePlayer(rawY: real)
      requires Valid()
      modifies this`playerY
      ensures Valid()
      ensures playerY == ClampY(rawY)
    {
      playerY := ClampY(rawY);
    }

    /**
     * One frame of a run. `spawn` is the outcome of the 2% spawn roll, `spawnY` and
     * `glyph` the random height and picture of the new enemy, `now` the clock used as
     * its id. The distance grows by one; the spawned enemy joins at the right edge;
     * enemies and bullets move and are culled; then the bullets as they were before
     * this frame's move are run against the moved enemies with the current weapon's
     * damage, kills being scored with the streak the frame started with.
     */
    method Tick(spawn: bool, spawnY: real, glyph: nat, now: int)
      requires Valid() && isPlaying
      requires 10.0 <= spawnY < 90.0 && glyph < GlyphCount
      modifies this`distance, this`enemies, this`bullets, this`score, this`killStreak, this`stylePoints
      ensures Valid()
      ensures distance == old(distance) + 1
      ensures bullets == MoveBullets(old(bullets))
      ensures var r := FramePass(old(enemies), old(bullets), spawn, spawnY, glyph, now, currentWeapon, old(killStreak));
        && enemies == Filter(r.enemies, Alive)
        && score == old(score) + 10 * r.kills
        && killStreak == old(killStreak) + r.kills
        && stylePoints == old(stylePoints) + r.style
    {
      // The setters of the frame, applied in the order the loop queues them.
      var nextEnemies, nextBullets, kills, style :=
        Frame(enemies, bullets, spawn, spawnY, glyph, now, currentWeapon, killStreak);
      distance := distance + 1;
      enemies := nextEnemies;
      bullets := nextBullets;
      score := score + 10 * kills;
      killStreak := killStreak + kills;
      stylePoints := stylePoints + style;
    }
  }
}
