/** The value-like game elements that result events carry: a bomb and a fire
    (src/redoxbombs/game_element/bomb.rs, fire.rs), and the
    `AnyGameElementAt` query over a slice of optional bombs. */
module Elements {
  import opened Wrappers
  import opened Coords

  /** A bomb that has not exploded yet (`Bomb::new(x, y)`). */
  datatype Bomb = Bomb(position: Coordinates)

  /** The fire of an explosion, burning for `duration` milliseconds
      (`Fire::new(x, y, duration)`). */
  datatype Fire = Fire(position: Coordinates, duration: nat)

  /** `any_game_element_at` on a slice of optional bombs: some live slot holds
      a bomb at `p`. Empty slots never count. */
  function AnyGameElementAt(slots: seq<Option<Bomb>>, p: Coordinates): (r: bool)
    ensures r <==> exists i :: 0 <= i < |slots| && slots[i].Some? && slots[i].value.position == p
  {
    if slots == [] then false
    else
      var n := |slots| - 1;
      assert forall i :: 0 <= i < n ==> slots[..n][i] == slots[i];
      AnyGameElementAt(slots[..n], p) || (slots[n].Some? && slots[n].value.position == p)
  }
}
