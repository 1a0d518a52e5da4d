/** Where the scene puts each recommended product: at most five are placed, the
    selected one in the centre, the others far away while one is selected, and each
    at its own scattered slot while none is. */
module Scene {
  import opened Common

  datatype Position = Position(x: real, y: real, z: real)

  const MaxPlaced: nat := 5

  const Center := Position(0.0, 0.0, 0.0)

  /** Where the unselected products are parked while one is selected. */
  const Hidden := Position(10.0, 10.0, 10.0)

  /** The scattered slots, one per placed product. */
  const Slots: seq<Position> := [
    Position(-9.0, 1.5, 0.0),
    Position(5.0, -3.0, 0.0),
    Position(-1.5, 4.5, 0.0),
    Position(8.0, 2.5, 0.0),
    Position(-4.0, -2.365, 0.0)
  ]

  function PositionOf(i: nat, selected: Option<int>): Position
    requires i < MaxPlaced
  {
    if selected == Some(i) then Center
    else if selected.Some? then Hidden
    else Slots[i]
  }

  /** The positions of the first `min(count, 5)` products, in list order. */
  function Place(count: nat, selected: Option<int>): (r: seq<Position>)
    ensures |r| == Min(count, MaxPlaced)
    ensures forall i :: 0 <= i < |r| ==> (r[i] == Center <==> selected == Some(i))
    ensures selected.Some? ==> forall i :: 0 <= i < |r| && selected != Some(i) ==> r[i] == Hidden
    ensures selected.None? ==> r == Slots[..|r|]
    ensures selected.None? ==> forall i, j :: 0 <= i < j < |r| ==> r[i] != r[j]
  {
    seq(Min(count, MaxPlaced), i requires 0 <= i < Min(count, MaxPlaced) => PositionOf(i, selected))
  }

  /** Exactly one product sits in the centre when the selection is one of the placed
      indices, and none otherwise. */
  lemma CenterIffSelectedPlaced(count: nat, selected: Option<int>)
    ensures var r := Place(count, selected);
      (exists i :: 0 <= i < |r| && r[i] == Center) <==>
      (selected.Some? && 0 <= selected.value < Min(count, MaxPlaced))
    ensures var r := Place(count, selected);
      forall i, j :: 0 <= i < |r| && 0 <= j < |r| && r[i] == Center && r[j] == Center ==> i == j
  {
    var r := Place(count, selected);
    if selected.Some? && 0 <= selected.value < Min(count, MaxPlaced) {
      assert r[selected.value] == Center;
    }
  }
}
