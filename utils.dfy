/** `InsertAtEmpty` for a vector of optional elements
    (src/redoxbombs/utils.rs): the arena in which the level keeps its bombs and
    fires, where `None` marks a free slot that the next insertion reuses. */
module Utils {
  import opened Wrappers

  /** `iter().position(Option::is_none)`: the index of the first free slot, if
      there is one. */
  method FirstEmpty<T>(items: seq<Option<T>>) returns (r: Option<nat>)
    ensures r.None? <==> forall j :: 0 <= j < |items| ==> items[j].Some?
    ensures r.Some? ==> r.value < |items| && items[r.value].None?
    ensures r.Some? ==> forall j :: 0 <= j < r.value ==> items[j].Some?
  {
    r := None;
    var i := 0;
    while i < |items|
      invariant 0 <= i <= |items|
      invariant forall j :: 0 <= j < i ==> items[j].Some?
    {
      if items[i].None? {
        return Some(i);
      }
      i := i + 1;
    }
  }

  /** A `Vec<Option<T>>` updated in place. */
  class Slots<T> {
    var items: seq<Option<T>>

    constructor (items: seq<Option<T>>)
      ensures this.items == items
    {
      this.items := items;
    }

    /** `insert_at_empty`: put `item` in the first free slot, or append it
        when every slot is taken; return the slot's index. */
    method InsertAtEmpty(item: T) returns (index: nat)
      modifies this
      ensures index <= |old(items)| && index < |items| && items[index] == Some(item)
      ensures |items| >= |old(items)|
      ensures forall j :: 0 <= j < index ==> old(items)[j].Some?
      ensures forall j :: 0 <= j < |old(items)| && j != index ==> items[j] == old(items)[j]
      ensures index < |old(items)| ==> old(items)[index].None? && |items| == |old(items)|
      ensures index == |old(items)| <==> forall j :: 0 <= j < |old(items)| ==> old(items)[j].Some?
      ensures index == |old(items)| ==> |items| == |old(items)| + 1
    {
      var free := FirstEmpty(items);
      match free
      case Some(i) =>
        items := items[i := Some(item)];
        index := i;
      case None =>
        index := |items|;
        items := items + [Some(item)];
    }
  }
}
