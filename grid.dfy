/**
 * The state layer of the grid-of-boxes visualiser: a fixed-length column of
 * boxes, each ON or OFF, that can be toggled by index or by a click, copied
 * out, replaced wholesale after validation, and saved to and loaded from a
 * keyed `{height, grid}` record.
 */
module GridModel {
  import opened Wrappers
  import BoxState

  /** The number of boxes of a grid built without an explicit height. */
  const DEFAULT_HEIGHT: nat := 14

  /** The width of one box in the axes' data coordinates. */
  const BOX_WIDTH: int := 20

  /**
   * The exceptions the grid lets escape: `IndexError` from `toggle_box` for
   * an index outside the cells, and the plotting library's `ValueError` for
   * a figure sized from a negative height.
   */
  datatype GridError = IndexError(index: int, size: nat) | FigureSizeError(height: int)

  /** How `load_state` ends: it returns true or false, or it raises. */
  datatype LoadOutcome = Returned(ok: bool) | Raised(error: GridError)

  /**
   * A parsed state file: a dictionary in which each of the two keys the
   * grid reads may be present or absent.
   */
  datatype StateRecord = StateRecord(height: Option<int>, grid: Option<seq<int>>)

  /**
   * A mouse click as the plotting library delivers it: whether it landed
   * on the axes, and its data coordinates, either of which may be missing.
   */
  datatype ClickEvent = ClickEvent(inAxes: bool, xData: Option<real>, yData: Option<real>)

  // ---------------------------------------------------------------------
  // Cell sequences

  /** The cells after the box at `index` is toggled. */
  function ToggleAt(cells: seq<int>, index: int): (r: seq<int>)
    requires 0 <= index < |cells|
    ensures |r| == |cells|
    ensures r[index] == BoxState.Toggled(cells[index])
    ensures forall j :: 0 <= j < |cells| && j != index ==> r[j] == cells[j]
  {
    cells[index := BoxState.Toggled(cells[index])]
  }

  /** The positions at which two cell sequences of equal length differ. */
  function ChangedIndices(before: seq<int>, after: seq<int>): set<int>
    requires |before| == |after|
  {
    set j | 0 <= j < |before| && before[j] != after[j]
  }

  /** Toggling changes exactly one box: the one at `index`. */
  lemma ToggleAtChangesExactlyOne(cells: seq<int>, index: int)
    requires 0 <= index < |cells|
    ensures ChangedIndices(cells, ToggleAt(cells, index)) == {index}
  {
  }

  /**
   * Toggling the same box twice restores the cells exactly when that box
   * held ON or OFF; any other value is replaced by OFF for good.
   */
  lemma ToggleAtTwice(cells: seq<int>, index: int)
    requires 0 <= index < |cells|
    ensures ToggleAt(ToggleAt(cells, index), index) == cells <==> BoxState.IsBoxState(cells[index])
    ensures !BoxState.IsBoxState(cells[index]) ==> ToggleAt(cells, index)[index] == BoxState.OFF
  {
  }

  /** Toggling keeps a grid whose boxes are all ON or OFF that way. */
  lemma ToggleAtKeepsBoxStates(cells: seq<int>, index: int)
    requires 0 <= index < |cells|
    requires BoxState.AllBoxStates(cells)
    ensures BoxState.AllBoxStates(ToggleAt(cells, index))
  {
  }

  // ---------------------------------------------------------------------
  // Clicks

  /** The box a click at horizontal data coordinate `x` falls on: floor(x / 20). */
  function ClickIndex(x: real): (i: int)
    ensures (BOX_WIDTH * i) as real <= x < (BOX_WIDTH * (i + 1)) as real
  {
    (x / BOX_WIDTH as real).Floor
  }

  /**
   * The box a click toggles on a grid of `size` boxes, if any: a click is
   * acted on exactly when it is on the axes, has both coordinates, and its
   * x coordinate lies within the grid's horizontal extent [0, 20 * size).
   */
  function ClickTarget(event: ClickEvent, size: nat): (r: Option<nat>)
    ensures r.Some? <==>
      event.inAxes && event.xData.Some? && event.yData.Some? &&
      0.0 <= event.xData.value < (BOX_WIDTH * size) as real
    ensures r.Some? ==>
      r.value < size &&
      (BOX_WIDTH * r.value) as real <= event.xData.value < (BOX_WIDTH * (r.value + 1)) as real
  {
    if !event.inAxes then None
    else if event.xData.None? || event.yData.None? then None
    else
      var index := ClickIndex(event.xData.value);
      if 0 <= index < size then Some(index) else None
  }

  /** Worked cases: x = 45 is box 2, x = -5 and x = 100 on five boxes miss the grid. */
  lemma ClickExamples()
    ensures ClickIndex(45.0) == 2
    ensures ClickTarget(ClickEvent(true, Some(45.0), Some(270.0)), 5) == Some(2)
    ensures ClickTarget(ClickEvent(true, Some(-5.0), Some(270.0)), 5) == None
    ensures ClickTarget(ClickEvent(true, Some(100.0), Some(270.0)), 5) == None
    ensures ClickTarget(ClickEvent(false, Some(45.0), Some(270.0)), 5) == None
    ensures ClickTarget(ClickEvent(true, Some(45.0), None), 5) == None
  {
  }

  // ---------------------------------------------------------------------
  // Validation

  /**
   * The validating loop of `set_state`: scans the cells in order and stops
   * at the first value that is neither ON nor OFF.
   */
  method ValidateCells(cells: seq<int>) returns (ok: bool)
    ensures ok <==> BoxState.AllBoxStates(cells)
  {
    var i := 0;
    while i < |cells|
      invariant 0 <= i <= |cells|
      invariant forall j :: 0 <= j < i ==> BoxState.IsBoxState(cells[j])
    {
      if !BoxState.IsBoxState(cells[i]) {
        return false;
      }
      i := i + 1;
    }
    return true;
  }

  // ---------------------------------------------------------------------
  // The grid

  class Grid {
    /** The number of boxes the grid was built or loaded with. */
    var height: int
    /** The state of each box, index 0 first. */
    var grid: array<int>

    /** The current cells as a value. */
    function Cells(): seq<int>
      reads this, grid
    {
      grid[..]
    }

    /**
     * The recorded height matches the number of cells. Construction,
     * toggling and `SetState` keep this; `LoadState` does not check it.
     */
    predicate Consistent()
      reads this
    {
      height == grid.Length
    }

    /** Consistent, and every box is ON or OFF. */
    predicate WellFormed()
      reads this, grid
    {
      Consistent() && BoxState.AllBoxStates(grid[..])
    }

    /** A grid of `height` boxes, all OFF. */
    constructor (height: nat := DEFAULT_HEIGHT)
      ensures this.height == height && fresh(grid)
      ensures grid.Length == height
      ensures forall j :: 0 <= j < grid.Length ==> grid[j] == BoxState.OFF
      ensures WellFormed()
    {
      this.height := height;
      grid := new int[height](_ => BoxState.OFF);
    }

    /**
     * Toggles the box at `index`, raising `IndexError` (and changing
     * nothing) when `index` is outside the cells. The bound is the number
     * of cells, not `height`.
     */
    method ToggleBox(index: int) returns (o: Outcome<GridError>)
      modifies grid
      ensures o == if 0 <= index < grid.Length then Pass else Fail(IndexError(index, grid.Length))
      ensures Cells() == if o.Pass? then ToggleAt(old(Cells()), index) else old(Cells())
      ensures old(WellFormed()) ==> WellFormed()
    {
      if !(0 <= index < grid.Length) {
        return Fail(IndexError(index, grid.Length));
      }
      grid[index] := BoxState.Toggled(grid[index]);
      o := Pass;
    }

    /**
     * Toggles the box under a click; a click off the axes, without
     * coordinates, or outside the boxes is ignored.
     */
    method ToggleBoxAtPosition(event: ClickEvent)
      modifies grid
      ensures Cells() ==
        match ClickTarget(event, grid.Length)
        case Some(index) => ToggleAt(old(Cells()), index)
        case None => old(Cells())
    {
      if !event.inAxes {
        return;
      }
      if event.xData.None? || event.yData.None? {
        return;
      }
      var index := ClickIndex(event.xData.value);
      if 0 <= index < grid.Length {
        var _ := ToggleBox(index);
      }
    }

    /** A fresh copy of the cells: writing to it never reaches the grid. */
    method GetState() returns (copy: array<int>)
      ensures fresh(copy)
      ensures copy[..] == Cells()
    {
      var cells := grid;
      copy := new int[cells.Length](j requires 0 <= j < cells.Length reads cells => cells[j]);
    }

    /**
     * Replaces the cells with a copy of `newState` when it has `height`
     * elements, all ON or OFF, and reports whether it did; otherwise
     * nothing changes.
     */
    method SetState(newState: seq<int>) returns (ok: bool)
      modifies this
      ensures ok <==> |newState| == old(height) && BoxState.AllBoxStates(newState)
      ensures height == old(height)
      ensures ok ==> fresh(grid) && Cells() == newState && WellFormed()
      ensures !ok ==> grid == old(grid) && Cells() == old(Cells())
    {
      if |newState| != height {
        return false;
      }
      ok := ValidateCells(newState);
      if !ok {
        return;
      }
      grid := new int[|newState|](j requires 0 <= j < |newState| => newState[j]);
    }

    /**
     * Writes the `{height, grid}` record to a destination. `sinkWritable`
     * stands for whether opening and writing the file succeeds; the result
     * reports it, and `written` is the record this call wrote, if any.
     */
    method SaveState(sinkWritable: bool) returns (ok: bool, written: Option<StateRecord>)
      ensures ok == sinkWritable
      ensures ok ==> written == Some(StateRecord(Some(height), Some(Cells())))
      ensures !ok ==> written == None
    {
      if !sinkWritable {
        return false, None;
      }
      return true, Some(StateRecord(Some(height), Some(grid[..])));
    }

    /**
     * Restores the grid from a parsed state file; `None` stands for a
     * missing file or one that does not parse. When both keys are present
     * both values are taken as they are, without checking them against each
     * other or against ON/OFF. The figure is then rebuilt from the new
     * height; the plotting library refuses a negative size with an
     * exception the load does not catch, so a negative height escapes as
     * `FigureSizeError` after both fields have been replaced. Without both
     * keys the load returns false and changes nothing.
     */
    method LoadState(source: Option<StateRecord>) returns (r: LoadOutcome)
      modifies this
      ensures var hasKeys := source.Some? && source.value.height.Some? && source.value.grid.Some?;
        r == if !hasKeys then Returned(false)
             else if source.value.height.value < 0 then Raised(FigureSizeError(source.value.height.value))
             else Returned(true)
      ensures r != Returned(false) ==>
        height == source.value.height.value && fresh(grid) && Cells() == source.value.grid.value
      ensures r == Returned(false) ==> height == old(height) && grid == old(grid) && Cells() == old(Cells())
    {
      if source.None? {
        return Returned(false);
      }
      var record := source.value;
      if record.height.Some? && record.grid.Some? {
        var cells := record.grid.value;
        height := record.height.value;
        grid := new int[|cells|](j requires 0 <= j < |cells| => cells[j]);
        if height < 0 {
          return Raised(FigureSizeError(height));
        }
        return Returned(true);
      }
      return Returned(false);
    }
  }

  // ---------------------------------------------------------------------
  // Properties relating several operations

  /** Writing to the copy `GetState` returns leaves the grid as it was. */
  method MutatingCopyLeavesGridAlone(g: Grid) returns (copy: array<int>)
    requires g.grid.Length > 0
    ensures fresh(copy) && copy.Length == g.grid.Length && copy[0] == BoxState.ON
    ensures g.Cells() == old(g.Cells())
  {
    copy := g.GetState();
    copy[0] := BoxState.ON;
  }

  /**
   * Saving a grid to a writable destination and loading that into a new
   * grid of any height reproduces the height and the cells. The load
   * returns true unless the saved height is negative, in which case it
   * raises, but only after both fields have taken the saved values.
   */
  method SaveThenLoad(g: Grid, newHeight: nat) returns (loaded: Grid, r: LoadOutcome)
    ensures fresh(loaded)
    ensures r == if g.height >= 0 then Returned(true) else Raised(FigureSizeError(g.height))
    ensures loaded.height == g.height && loaded.Cells() == g.Cells()
    ensures loaded.Consistent() == g.Consistent()
  {
    var saved, written := g.SaveState(true);
    loaded := new Grid(newHeight);
    r := loaded.LoadState(written);
  }

  /**
   * A grid of five boxes with boxes 0, 2 and 4 toggled saves and loads into
   * a fresh grid of five boxes unchanged.
   */
  method ToggleSaveLoadScenario() returns (original: Grid, loaded: Grid)
    ensures original.Cells() == [BoxState.ON, BoxState.OFF, BoxState.ON, BoxState.OFF, BoxState.ON]
    ensures loaded.height == original.height == 5
    ensures loaded.Cells() == original.Cells()
  {
    original := new Grid(5);
    var o0 := original.ToggleBox(0);
    var o2 := original.ToggleBox(2);
    var o4 := original.ToggleBox(4);
    assert o0.Pass? && o2.Pass? && o4.Pass?;
    var r;
    loaded, r := SaveThenLoad(original, 5);
    assert r == Returned(true);
  }

  /**
   * A state file is loaded without validation: its height need not match
   * its cells and its cells need not be ON or OFF.
   */
  method LoadAcceptsUnvalidatedRecord() returns (g: Grid)
    ensures g.height == 3 && g.Cells() == [2, 7]
    ensures !g.Consistent() && !g.WellFormed()
  {
    g := new Grid(5);
    var r := g.LoadState(Some(StateRecord(Some(3), Some([2, 7]))));
    assert r == Returned(true);
  }

  /**
   * A record with a negative height makes the load raise, yet both fields
   * already hold the record's values.
   */
  method LoadNegativeHeightRaises() returns (g: Grid, r: LoadOutcome)
    ensures r == Raised(FigureSizeError(-1))
    ensures g.height == -1 && g.Cells() == []
  {
    g := new Grid(5);
    r := g.LoadState(Some(StateRecord(Some(-1), Some([]))));
  }
}
