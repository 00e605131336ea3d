/**
 * The two states of a box. The source keeps them as bare integers, and a cell
 * of a grid may hold any integer (a loaded state file is not validated), so
 * the model keeps cells as `int` and says which values are box states.
 */
module BoxState {

  const ON: int := 1
  const OFF: int := 0

  /** True of the two values a box is meant to hold. */
  predicate IsBoxState(v: int) {
    v == ON || v == OFF
  }

  /** True when every cell holds ON or OFF. */
  predicate AllBoxStates(cells: seq<int>) {
    forall j :: 0 <= j < |cells| ==> IsBoxState(cells[j])
  }

  /**
   * The value a clicked box takes: OFF becomes ON, and every other value,
   * ON or not a box state at all, becomes OFF.
   */
  function Toggled(v: int): (r: int)
    ensures IsBoxState(r)
    ensures r != v
    ensures r == ON <==> v == OFF
  {
    if v == OFF then ON else OFF
  }

  /** Toggling twice gives the value back exactly when it was a box state. */
  lemma ToggledTwice(v: int)
    ensures Toggled(Toggled(v)) == v <==> IsBoxState(v)
  {
  }
}
