# Grid of boxes: the state layer, in Dafny

This project models the state layer of an interactive grid-of-boxes
visualiser (`grid.py`). A `Grid` holds a `height` and a list of cells. Each
cell is meant to be `BoxState.ON` (1) or `BoxState.OFF` (0). The grid can:

- toggle one box by index, raising `IndexError` for an index outside the cells;
- toggle the box under a mouse click, at index `floor(x / 20)`, ignoring clicks that miss;
- hand out a copy of its cells;
- replace its cells after validating them, reporting failure as `false`;
- save and load a `{height, grid}` record, reporting failure as `false` (a loaded negative height raises instead).

Files:

- `wrappers.dfy` (module `Wrappers`): `Option` and `Outcome`.
- `box_state.dfy` (module `BoxState`): the two constants and what toggling does to one value.
- `grid.dfy` (module `GridModel`): the `Grid` class, its records, the click mapping, and the lemmas.

The class keeps `height: int` and `grid: array<int>`. Toggling writes the
array in place. `GetState`, `SetState` and `LoadState` work with fresh
arrays, so their copies cannot alias the grid's storage. Cells stay
integers, as in the source, and the model says which values are box states.
This matters for two behaviours: `load_state` accepts any values, and
`toggle_box` turns any value other than OFF into OFF.

Two lengths are kept apart, as in the source:

- `toggle_box` and the click handler bound the index by the number of cells;
- `set_state` compares against `height`.

`Grid.Consistent()` (height equals the number of cells) holds after
construction, `ToggleBox` and a successful `SetState`. `LoadState` can break
it, and `LoadAcceptsUnvalidatedRecord` shows a case.

Persistence is abstract:

- The file system and JSON are replaced by values.
- `SaveState` takes a flag saying whether the destination can be written. It returns the record it wrote.
- `LoadState` takes `Option<StateRecord>`. `None` stands for a missing or unparsable file. Each of the two keys of a `StateRecord` may be present or absent.

Three behaviours of the code shape the model:

- Cells are integers (`List[int]`, grid.py:34), not Booleans.
- `load_state` does not validate what it loads (grid.py:174-176). The loaded height need not match the loaded cells.
- `load_state` rebuilds the figure from the loaded height (grid.py:178). The plotting library refuses a negative figure size with a `ValueError`, which `load_state` does not catch (grid.py:183). The model returns `Raised(FigureSizeError(h))` in that case, after both fields have been replaced.

## Model

| member | source | states |
|---|---|---|
| BoxState.Toggled | grid.py:73 | the new value is always ON or OFF and differs from the old one; it is ON exactly when the old value was OFF |
| BoxState.ToggledTwice | grid.py:73 | toggling a value twice gives it back exactly when it was ON or OFF |
| GridModel.ToggleAt | grid.py:73 | toggling keeps the length, flips the chosen cell and leaves every other cell as it was |
| GridModel.ToggleAtChangesExactlyOne | grid.py:70-73 | the set of positions where the cells differ after a toggle is exactly the toggled index |
| GridModel.ToggleAtTwice | grid.py:73 | toggling one index twice restores the cells if and only if that cell held ON or OFF; any other value becomes OFF |
| GridModel.ToggleAtKeepsBoxStates | grid.py:73 | toggling keeps a grid whose cells are all ON or OFF that way |
| GridModel.ClickIndex | grid.py:125 | the index i of a click at x satisfies 20*i <= x < 20*(i+1), which is floor(x/20) |
| GridModel.ClickTarget | grid.py:115-127 | a click picks a box exactly when it is on the axes, has both coordinates, and 0 <= x < 20*size; the box then contains x and is below size |
| GridModel.ClickExamples | grid.py:125-126 | x=45 maps to box 2; x=-5, x=100 on five boxes, a click off the axes and a click without y are all ignored |
| GridModel.ValidateCells | grid.py:211-215 | the validating loop accepts a list if and only if every element is ON or OFF |
| GridModel.Grid.constructor | grid.py:39-47 | a new grid of height h (14 by default) has height h and h cells, all OFF, and is well formed |
| GridModel.Grid.ToggleBox | grid.py:60-73 | an index in [0, number of cells) flips that cell only; any other index fails with IndexError and changes nothing; height is untouched and well-formedness is kept |
| GridModel.Grid.ToggleBoxAtPosition | grid.py:105-127 | the cells become those of toggling ClickTarget's box, or stay as they were when the click is ignored |
| GridModel.Grid.GetState | grid.py:187-194 | the result is a freshly allocated array holding exactly the current cells |
| GridModel.Grid.SetState | grid.py:196-218 | succeeds if and only if the new list has height elements, all ON or OFF; then the cells become a fresh copy of it and the grid is well formed; otherwise nothing changes |
| GridModel.Grid.SaveState | grid.py:134-154 | succeeds exactly when the destination is writable; it then writes the record with both keys set to the height and the cells; on failure it writes nothing; the grid is never changed |
| GridModel.Grid.LoadState | grid.py:156-185 | returns false, with height and cells untouched, if and only if the parsed record is missing or lacks a key; otherwise height and cells are replaced by the record's values exactly, and the load returns true, or raises the figure-size error when the loaded height is negative |
| GridModel.MutatingCopyLeavesGridAlone | test_grid.py:80-93 | writing to the copy from GetState leaves the grid's cells unchanged |
| GridModel.SaveThenLoad | grid.py:144-150 | loading what SaveState wrote into a new grid of any height gives the same height and cells; the load returns true for a non-negative height and raises the figure-size error otherwise |
| GridModel.ToggleSaveLoadScenario | test_grid.py:114-139 | five boxes with 0, 2 and 4 toggled read ON, OFF, ON, OFF, ON, and survive a save and a load into a new grid of five |
| GridModel.LoadAcceptsUnvalidatedRecord | grid.py:174-176 | a record whose height does not match its cells, with cells outside ON/OFF, is loaded as it is |
| GridModel.LoadNegativeHeightRaises | grid.py:174-178 | loading height -1 with no cells raises the figure-size error, yet leaves height -1 and no cells in the grid |

## Left out

- Rendering is not modelled: `create_figure`, `print_grid`, and the figure and axes handles (grid.py:48-58, 75-103). These are calls into a plotting library. Of re-creating the figure after a load (grid.py:178), only its refusal of a negative height is modelled.
- `run_app`, the module's main block and `visualise.py` are not modelled. They are a GUI window and its blocking event loop.
- Real file I/O and JSON encoding are not modelled. They become the `sinkWritable` flag of `SaveState` and the optional `StateRecord` of `LoadState`.
- GridModel.Grid.constructor: takes a `nat` height. A negative height would make the plotting library refuse to size the figure, and rendering is not modelled.
- GridModel.Grid.LoadState: only a dictionary with an integer height and a list of integers is modelled. A JSON document of another shape, or values of other JSON types, cannot be expressed in the typed record.
- GridModel.Grid.LoadState: a file whose bytes do not decode as text makes `json.load` raise `UnicodeDecodeError`, which is not caught (grid.py:183). The model folds every unreadable file into `None`, which returns false.
- The diagnostic `print` calls are not modelled. Neither are the `TypeError`/`AttributeError`/`ValueError` handlers in `set_state` and the click handler (grid.py:130-132, 219-221). They guard against Python's dynamic typing, which the typed model rules out.
- Floating-point click coordinates are modelled as mathematical reals, with `Floor` for `//`.
- Re-registering the click callback on every redraw (grid.py:103) is GUI plumbing and is not modelled.
- The redraw after a successful click (grid.py:128-129) is not modelled.
