/**
  One iteration of the application's main loop. In menu mode the iteration
  draws the menu, then acts on the first pressed button in the order X
  (previous), Y (next), B (select), A (reserved, no effect). In sensor mode it
  draws the captured sensor's screen, then returns to the menu if A is
  pressed and ignores every other button. Every press that has an effect is
  followed by a fixed debounce delay; drawing and sleeping are reported in
  the outcome rather than performed.
 */
module Controller {

  import opened Options
  import opened Menu
  import opened Navigation
  import opened Layout
  import opened Readout

  datatype Mode = MenuMode | SensorMode

  /** The controller's variables: selection index, display mode and the
      sensor name captured by the last "select" (unset until the first). */
  datatype State = State(selection: int, mode: Mode, selectedSensor: Option<string>)

  /** Which of the four buttons are held down when the loop polls them. */
  datatype Buttons = Buttons(a: bool, b: bool, x: bool, y: bool)

  datatype ButtonId = A | B | X | Y

  /** What the iteration does with the buttons it saw. */
  datatype Action = MovePrevious | MoveNext | Select | Back | Reserved | Idle

  /** What the iteration puts on the display. */
  datatype Frame = MenuFrame(bands: seq<Band>) | SensorFrame(screen: Screen)

  /** The iteration's result: the next state, the frame drawn and whether the debounce delay was taken. */
  datatype Outcome = Outcome(state: State, frame: Frame, debounced: bool)

  /** Start of the program: first entry selected, menu shown, no sensor captured. */
  const Init: State := State(0, MenuMode, None)

  /** Every state the loop can reach satisfies this: the selection indexes the
      menu, a captured name is a menu name, and sensor mode has one. */
  predicate Valid(s: State) {
    && 0 <= s.selection < ItemCount
    && (s.selectedSensor.Some? ==> s.selectedSensor.value in Names)
    && (s.mode == SensorMode ==> s.selectedSensor.Some?)
  }

  function Pressed(buttons: Buttons, id: ButtonId): bool {
    match id
    case A => buttons.a
    case B => buttons.b
    case X => buttons.x
    case Y => buttons.y
  }

  /** The action picked for the buttons held down: menu mode tries X, Y, B, A
      in turn, sensor mode listens to A only. */
  function Decide(mode: Mode, buttons: Buttons): (r: Action)
    ensures mode == MenuMode ==> r != Back
    ensures mode == SensorMode ==> r == Back || r == Idle
    ensures r == Idle <==>
      if mode == MenuMode then !buttons.a && !buttons.b && !buttons.x && !buttons.y
      else !buttons.a
  {
    match mode
    case MenuMode =>
      if buttons.x then MovePrevious
      else if buttons.y then MoveNext
      else if buttons.b then Select
      else if buttons.a then Reserved
      else Idle
    case SensorMode =>
      if buttons.a then Back else Idle
  }

  /** Order in which the menu mode looks at the buttons. */
  const MenuPriority: seq<ButtonId> := [X, Y, B, A]

  /** No button among the first `k` of `order` is held down. */
  predicate NoneBefore(buttons: Buttons, order: seq<ButtonId>, k: int) {
    forall j :: 0 <= j < k && j < |order| ==> !Pressed(buttons, order[j])
  }

  /** The first button of `order` that is held down, if any. */
  function FirstPressed(buttons: Buttons, order: seq<ButtonId>): (r: Option<ButtonId>)
    ensures r.Some? ==> r.value in order && Pressed(buttons, r.value)
    ensures r.None? <==> forall k :: 0 <= k < |order| ==> !Pressed(buttons, order[k])
    ensures r.Some? ==>
      exists k :: 0 <= k < |order| && order[k] == r.value && NoneBefore(buttons, order, k)
  {
    if |order| == 0 then None
    else if Pressed(buttons, order[0]) then Some(order[0])
    else FirstPressed(buttons, order[1..])
  }

  /** The menu-mode meaning of each button. */
  function MenuActionOf(id: ButtonId): Action {
    match id
    case X => MovePrevious
    case Y => MoveNext
    case B => Select
    case A => Reserved
  }

  /** Position of a button in the menu-mode priority order; lower goes first. */
  function Rank(id: ButtonId): (k: nat)
    ensures k < |MenuPriority| && MenuPriority[k] == id
  {
    match id
    case X => 0
    case Y => 1
    case B => 2
    case A => 3
  }

  /** `buttons` with button `id` also held down. */
  function Press(buttons: Buttons, id: ButtonId): (r: Buttons)
    ensures Pressed(r, id)
    ensures forall other :: other != id ==> Pressed(r, other) == Pressed(buttons, other)
  {
    match id
    case A => buttons.(a := true)
    case B => buttons.(b := true)
    case X => buttons.(x := true)
    case Y => buttons.(y := true)
  }

  /** The frame drawn at the start of the iteration, from the state before any button is seen. */
  function Render(s: State, reading: Reading): (f: Frame)
    requires Valid(s)
    ensures s.mode == MenuMode ==>
      f.MenuFrame? && f.bands == MenuLayout(s.selection) && HighlightedIndices(f.bands) == {s.selection}
    ensures s.mode == SensorMode ==>
      f.SensorFrame? && f.screen.heading != Unavailable && f.screen.value != Blank
    ensures s.mode == SensorMode ==> forall i :: 0 <= i < ItemCount && Names[i] == s.selectedSensor.value ==>
      f.screen.heading == Headings[i]
    ensures s.mode == SensorMode ==> f.screen == DisplaySensor(s.selectedSensor.value, reading)
  {
    HeadingsFollowMenu(reading);
    match s.mode
    case MenuMode =>
      HighlightIsSelection(s.selection);
      MenuFrame(MenuLayout(s.selection))
    case SensorMode =>
      SensorFrame(DisplaySensor(s.selectedSensor.value, reading))
  }

  /** One main-loop iteration. */
  function Step(s: State, buttons: Buttons, reading: Reading): (r: Outcome)
    requires Valid(s)
    ensures Valid(r.state)
    ensures r.frame == Render(s, reading)
    ensures r.debounced <==> r.state != s
    ensures r.debounced <==> Decide(s.mode, buttons) !in {Reserved, Idle}
  {
    var frame := Render(s, reading);
    match Decide(s.mode, buttons)
    case MovePrevious => Outcome(s.(selection := Previous(s.selection)), frame, true)
    case MoveNext => Outcome(s.(selection := Next(s.selection)), frame, true)
    case Select =>
      Outcome(s.(mode := SensorMode, selectedSensor := Some(Names[s.selection])), frame, true)
    case Back => Outcome(s.(mode := MenuMode), frame, true)
    case Reserved => Outcome(s, frame, false)
    case Idle => Outcome(s, frame, false)
  }

  /** One poll of the buttons together with the reading the sensors would give at that moment. */
  datatype Input = Input(buttons: Buttons, reading: Reading)

  /** The state after running the loop over `inputs`, one iteration each. */
  function Run(s: State, inputs: seq<Input>): (t: State)
    requires Valid(s)
    ensures Valid(t)
    decreases |inputs|
  {
    if |inputs| == 0 then s
    else Run(Step(s, inputs[0].buttons, inputs[0].reading).state, inputs[1..])
  }

  /** Running over one more input is one more iteration after the earlier ones. */
  lemma {:induction false} RunAppend(s: State, inputs: seq<Input>, last: Input)
    requires Valid(s)
    ensures Run(s, inputs + [last]) == Step(Run(s, inputs), last.buttons, last.reading).state
    decreases |inputs|
  {
    if |inputs| > 0 {
      assert (inputs + [last])[1..] == inputs[1..] + [last];
      RunAppend(Step(s, inputs[0].buttons, inputs[0].reading).state, inputs[1..], last);
    } else {
      assert (inputs + [last])[1..] == [];
    }
  }

  /** In menu mode the buttons are taken in priority order X, Y, B, A: the
      first one held down decides the action, and holding none does nothing. */
  lemma MenuFollowsPriority(buttons: Buttons)
    ensures Decide(MenuMode, buttons) ==
      match FirstPressed(buttons, MenuPriority)
      case None => Idle
      case Some(id) => MenuActionOf(id)
  {
    var order := MenuPriority;
    assert order[0] == X && order[1..] == [Y, B, A];
    assert order[1..][1..] == [B, A];
    assert order[1..][1..][1..] == [A];
    assert order[1..][1..][1..][1..] == [];
    if !buttons.x {
      assert FirstPressed(buttons, order) == FirstPressed(buttons, [Y, B, A]);
      if !buttons.y {
        assert FirstPressed(buttons, [Y, B, A]) == FirstPressed(buttons, [B, A]);
        if !buttons.b {
          assert FirstPressed(buttons, [B, A]) == FirstPressed(buttons, [A]);
        }
      }
    }
  }

  /** Holding down, in addition, a button of lower priority than the one that
      decides leaves the menu-mode action unchanged. */
  lemma {:induction false} LowerPriorityPressIgnored(buttons: Buttons, winner: ButtonId, extra: ButtonId)
    requires FirstPressed(buttons, MenuPriority) == Some(winner)
    requires Rank(winner) < Rank(extra)
    ensures Decide(MenuMode, Press(buttons, extra)) == Decide(MenuMode, buttons)
  {
    MenuFollowsPriority(buttons);
    MenuFollowsPriority(Press(buttons, extra));
  }

  /** X moves the selection up and Y down, with wrap-around, staying in menu
      mode with the captured name untouched. */
  lemma NavigationMoves(s: State, buttons: Buttons, reading: Reading)
    requires Valid(s) && s.mode == MenuMode
    requires buttons.x || buttons.y
    ensures var r := Step(s, buttons, reading);
      && r.state.mode == MenuMode
      && r.state.selectedSensor == s.selectedSensor
      && (buttons.x ==> r.state.selection == Previous(s.selection))
      && (!buttons.x && buttons.y ==> r.state.selection == Next(s.selection))
  {
  }

  /** B in menu mode (with X and Y released) opens the sensor screen for the
      selected entry and keeps the selection index. */
  lemma SelectCapturesName(s: State, buttons: Buttons, reading: Reading)
    requires Valid(s) && s.mode == MenuMode
    requires !buttons.x && !buttons.y && buttons.b
    ensures var r := Step(s, buttons, reading);
      && r.state.mode == SensorMode
      && r.state.selectedSensor == Some(Names[s.selection])
      && r.state.selection == s.selection
      && r.debounced
    ensures forall i :: 0 <= i < ItemCount && i != s.selection ==>
      Names[i] != Step(s, buttons, reading).state.selectedSensor.value
  {
    NamesDistinct();
  }

  /** A alone, or no button, in menu mode changes nothing and takes no delay. */
  lemma MenuIdleWithoutNavigation(s: State, buttons: Buttons, reading: Reading)
    requires Valid(s) && s.mode == MenuMode
    ensures !buttons.x && !buttons.y && !buttons.b <==>
      Step(s, buttons, reading).state == s && !Step(s, buttons, reading).debounced
  {
  }

  /** In sensor mode only A has an effect: it returns to the menu, reopening it
      on the same entry with the captured name kept. */
  lemma SensorModeOnlyBack(s: State, buttons: Buttons, reading: Reading)
    requires Valid(s) && s.mode == SensorMode
    ensures var r := Step(s, buttons, reading);
      && r.state.selection == s.selection
      && r.state.selectedSensor == s.selectedSensor
      && (r.state.mode == MenuMode <==> buttons.a)
      && (r.debounced <==> buttons.a)
  {
  }

  /** At start the menu is shown with the first entry highlighted and no sensor captured. */
  lemma StartsOnFirstEntry(reading: Reading)
    ensures Valid(Init)
    ensures Render(Init, reading).MenuFrame?
    ensures HighlightedIndices(Render(Init, reading).bands) == {0}
    ensures Init.selectedSensor.None?
  {
  }

  /** Every state reachable from the start satisfies the invariant, and any
      sensor screen it draws belongs to a menu entry. */
  lemma ReachableStatesValid(inputs: seq<Input>, reading: Reading)
    ensures Valid(Run(Init, inputs))
    ensures Run(Init, inputs).mode == SensorMode ==>
      Render(Run(Init, inputs), reading).screen.heading != Unavailable
  {
  }

}
