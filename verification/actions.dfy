/**
 * The value-level parts of the player's actions: the vertical clamp of the mouse
 * handler, the ownership update of a purchase, and the weapon-switch test of a shot.
 */
module Actions {
  import opened Entities

  /** The player's lane runs from 10 to 90 percent of the field's height. */
  const LaneTop: real := 10.0
  const LaneBottom: real := 90.0

  /** `Math.max(10, Math.min(90, y))`: the raw mouse height pulled into the lane. */
  function ClampY(y: real): (r: real)
    ensures LaneTop <= r <= LaneBottom
    ensures LaneTop <= y <= LaneBottom ==> r == y
    ensures y < LaneTop ==> r == LaneTop
    ensures y > LaneBottom ==> r == LaneBottom
  {
    var low := if y < 90.0 then y else 90.0;
    if 10.0 > low then 10.0 else low
  }

  /**
   * The weapon table after buying the weapon with id `id`: every entry with that id
   * becomes owned, and nothing else about any entry changes.
   */
  function MarkOwned(ws: seq<Weapon>, id: int): (r: seq<Weapon>)
    ensures |r| == |ws|
    ensures forall i :: 0 <= i < |ws| ==> r[i] == ws[i].(owned := r[i].owned)
    ensures forall i :: 0 <= i < |ws| ==> (r[i].owned <==> ws[i].owned || ws[i].id == id)
  {
    seq(|ws|, i requires 0 <= i < |ws| => if ws[i].id == id then ws[i].(owned := true) else ws[i])
  }

  /**
   * With unique ids, buying the `k`-th weapon flips exactly its `owned` flag and leaves
   * every other entry of the table as it was; an entry that was already owned, in
   * particular the current weapon, is unchanged.
   */
  lemma PurchaseFlipsOnlyTarget(ws: seq<Weapon>, k: nat)
    requires UniqueIds(ws) && k < |ws|
    ensures var r := MarkOwned(ws, ws[k].id);
      r[k] == ws[k].(owned := true) &&
      (forall i :: 0 <= i < |ws| && i != k ==> r[i] == ws[i]) &&
      UniqueIds(r)
  {
  }

  /** Marking a table owned keeps its ids, so it keeps them unique. */
  lemma MarkOwnedKeepsIds(ws: seq<Weapon>, id: int)
    requires UniqueIds(ws)
    ensures UniqueIds(MarkOwned(ws, id))
    ensures forall w :: w in ws && w.owned ==> w in MarkOwned(ws, id)
  {
  }

  /**
   * JavaScript truthiness of the recorded weapon id: `null` and `0` are false. The
   * weapon ids of the table start at 1, so in play this is "some id was recorded".
   */
  predicate Truthy(last: Option<int>) {
    last.Some? && last.value != 0
  }

  /** A shot earns the switch bonus when a previous id was recorded and it differs. */
  predicate Switched(last: Option<int>, id: int) {
    Truthy(last) && last.value != id
  }
}
