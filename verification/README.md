# Sensor menu controller, modelled in Dafny

A model of the menu-navigation logic in `SensorMenu.py`. This is a MicroPython script for a
320×240 display board with four buttons (A, B, X, Y) and three I2C sensors.
The script shows a list of seven sensor names. X and Y move the highlighted entry up and
down, wrapping at either end. B opens a screen with that sensor's current reading, and A
goes back to the list.

The model is purely functional:

- `Menu`: the seven entry names and the display size.
- `Navigation`: "next" and "previous" as modulo arithmetic, and repeated presses.
- `Layout`: the menu screen as a list of bands. Each band has a rectangle, a pen
  (highlight or base) and a label position (`draw_menu`).
- `Readout`: the sensor screen as a heading and a value, chosen from the captured name
  (`display_sensor`). A reading of all sensors is an input. The value is the quantity
  shown, not its formatted text.
- `Controller`: the state record (selection index, mode, captured sensor name). `Step`
  is one iteration of the main loop. It takes the buttons held down and a sensor reading,
  and returns the next state, the frame drawn and whether the debounce delay was taken.
  `Run` folds `Step` over a sequence of inputs.
- `Options`: the optional-value datatype shared by the others.

The frame an iteration draws comes from the state *before* its buttons are handled. This
matches the source, which draws first and polls afterwards.

In the source, `selected_sensor` is a separate variable. It is unset until the first
press of B and is never cleared, so the model keeps it as an `Option<string>` apart from
the mode.

Python's `%` rounds toward negative infinity and Dafny's is Euclidean. They agree for the
positive divisor 7, so `(i - 1) % 7` is written as in the source.

## Model

| member | source | states |
|---|---|---|
| `Menu.NamesDistinct` | SensorMenu.py:27-35 | the menu has seven entries and no name appears twice, so a captured name identifies its entry |
| `Navigation.Next` | SensorMenu.py:147 | "next" always gives an index in [0, 7); from a valid index it moves one entry down, with the last entry wrapping to the first |
| `Navigation.Previous` | SensorMenu.py:144 | "previous" always gives an index in [0, 7), never negative; from a valid index it moves one entry up, with 0 wrapping to 6 |
| `Navigation.PreviousUndoesNext` | SensorMenu.py:144-147 | "previous" after "next", and "next" after "previous", return any index to its residue modulo 7 |
| `Navigation.AdvanceMovesBy` | SensorMenu.py:147 | k presses of "next" from index i give (i + k) mod 7 |
| `Navigation.RetreatMovesBy` | SensorMenu.py:144 | k presses of "previous" from index i give (i - k) mod 7 |
| `Navigation.FullCycleReturns` | SensorMenu.py:144-147 | seven presses of "next", or of "previous", return to the start; no shorter run of "next" presses does |
| `Layout.ItemSpacing` | SensorMenu.py:60 | band height is 240 divided by 7 and rounded down: the largest h with 7·h ≤ 240, which is 34 |
| `Layout.MenuLayout` | SensorMenu.py:55-78 | the menu screen has one band per menu entry, in menu order, each labelled with that entry's name |
| `Layout.BandsOrderedWithinDisplay` | SensorMenu.py:60-72 | every band spans the full 320-pixel width and lies inside the 240-pixel height; each band ends at or above the top of every later band, so bands never overlap |
| `Layout.EachRowInOneBand` | SensorMenu.py:60-72 | each pixel row above 7·34 = 238 lies in exactly one band, band y / 34; rows 238 and 239 lie in none |
| `Layout.LabelsInsideBands` | SensorMenu.py:76 | each entry's label starts inside its own band and inside the display width, 10 pixels right of and below the band's top-left corner |
| `Layout.HighlightIsSelection` | SensorMenu.py:63-72 | the set of highlighted bands is exactly {selection} for a valid index, and empty for an index outside the menu |
| `Readout.DisplaySensor` | SensorMenu.py:106-129 | the heading is "Sensor not available" exactly when the name is not a menu name, and the value is blank in exactly those cases; the value is "No data" exactly for Light or Proximity without a light sample |
| `Readout.ValuesFollowMenu` | SensorMenu.py:106-126 | each sensor entry shows its own quantity: temperature in °C, pressure in hPa (pascals ÷ 100), humidity in %, light in lux and proximity as a count when a sample exists, accelerometer axes for Orientation and gyroscope axes for Motion |
| `Readout.HeadingsFollowMenu` | SensorMenu.py:106-126 | each of the seven menu names gets its own fixed heading, in menu order, whatever the reading |
| `Readout.ScreenReadsOnlyItsSensor` | SensorMenu.py:106-129 | the heading never depends on the reading; two readings that agree on the quantity a name shows give the same screen, and (over exact quantities) readings that differ in it give different screens |
| `Readout.ReadoutExamples` | SensorMenu.py:109-129 | 101325 Pa is shown as 1013.25 hPa; Light without a sample shows "No data"; a sample with 12.34 lux shows 12.34 lux; an unknown name gets the fallback screen |
| `Controller.Render` | SensorMenu.py:139-156 | menu mode draws the menu layout for the current selection, with exactly the selected band highlighted; sensor mode draws the whole screen of the captured name from this iteration's reading, whose heading is that menu entry's heading, never the fallback |
| `Controller.Step` | SensorMenu.py:138-161 | the state invariant is preserved; the frame comes from the state before any button is handled; the debounce delay is taken exactly when the state changes, which is exactly when the chosen action is neither the reserved A-in-menu nor idle |
| `Controller.Run` | SensorMenu.py:138-161 | any number of iterations from a valid state ends in a valid state |
| `Controller.Decide` | SensorMenu.py:143-161 | menu mode never yields "back" and sensor mode yields only "back" or nothing; the action is idle exactly when no button the mode listens to is held (all four in menu mode, A alone in sensor mode) |
| `Controller.RunAppend` | SensorMenu.py:138-161 | running over one more input gives the state of one more `Step` after the earlier iterations |
| `Controller.FirstPressed` | SensorMenu.py:143-154 | the reference for the button priority: the result, when present, is held down and no button before it in the given order is; it is absent exactly when no button of the order is held |
| `Controller.MenuFollowsPriority` | SensorMenu.py:143-154 | in menu mode the action is that of the first held-down button in the order X, Y, B, A, and nothing happens when none is held |
| `Controller.LowerPriorityPressIgnored` | SensorMenu.py:143-154 | also holding a button of lower priority than the deciding one does not change the menu-mode action |
| `Controller.NavigationMoves` | SensorMenu.py:143-148 | with X or Y held in menu mode, X moves to the previous entry, Y (without X) to the next; the mode stays menu and the captured name is kept |
| `Controller.SelectCapturesName` | SensorMenu.py:149-152 | B (without X or Y) in menu mode enters sensor mode, captures the selected entry's name, which is no other entry's name, keeps the selection index and takes the delay |
| `Controller.MenuIdleWithoutNavigation` | SensorMenu.py:153-154 | in menu mode the state is unchanged and no delay is taken exactly when none of X, Y, B is held, whether or not A is |
| `Controller.SensorModeOnlyBack` | SensorMenu.py:155-161 | in sensor mode the selection and captured name never change; the mode returns to menu, and the delay is taken, exactly when A is held |
| `Controller.StartsOnFirstEntry` | SensorMenu.py:37-38 | the start state is valid, shows the menu with the first entry highlighted, and has no sensor captured |
| `Controller.ReachableStatesValid` | SensorMenu.py:37-161 | every state reachable from the start (entry 0, menu mode) satisfies the invariant, and its sensor screen is never the fallback |

## Left out

- Hardware set-up is not modelled: display, buttons, RGB LED, I2C bus and the sensor
  drivers (SensorMenu.py:9-24, 44-49). These are calls into driver libraries that are not
  part of this model.
- The startup part-ID read and print of the light sensor (SensorMenu.py:51-53) is
  diagnostic output only.
- The sensor reads (SensorMenu.py:84-103) become an input `Reading` to each iteration.
  The light sample is optional, with lux and proximity present together or absent
  together. The source takes a reading on every sensor-mode iteration; the model takes
  one per iteration too, and the menu mode ignores it.
- Text formatting is not modelled. This covers `:.2f`, the unit suffixes, and the
  three-line X/Y/Z layout. A value is kept as the quantity shown (`Celsius`,
  `Hectopascals`, `ThreeAxes`, ...).
- Readout.ScreenReadsOnlyItsSensor: the converse half (different quantities give different screens) holds only for exact quantities; the source prints two decimals, so readings such as 21.001 and 21.004 °C give the same text.
- Readout.DisplaySensor: divides pressure by 100 exactly, over reals. The source divides
  a binary float, so the model does not capture its rounding.
- Drawing calls are not modelled: pen colours, `clear`, `rectangle`, `text` with its scale,
  and `update`. The model returns what is drawn (bands or a screen) instead of drawing.
- The 0.3 s `time.sleep` debounce is reported only as a boolean in the outcome; time is
  not modelled.
- The unbounded `while True` loop is modelled one iteration at a time (`Step`). `Run`
  covers any finite prefix of it.
