/**
 * Mouse input for Neovim's `nvim_input_mouse`: the fixed action, button and
 * scroll-direction names, the modifier string, and the drag state.
 */
module Mouse {
  import opened Wrappers
  import opened Keyboard

  /** A non-empty word of lower-case ASCII letters. */
  predicate LowerWord(n: string)
  {
    |n| > 0 && forall i :: 0 <= i < |n| ==> 'a' <= n[i] <= 'z'
  }

  datatype MouseAction = Press | Release | Drag | Move

  /** `MouseAction::as_str`: the lower-case action name `nvim_input_mouse` expects. */
  function ActionName(a: MouseAction): (n: string)
    ensures n == "press" <==> a == Press
    ensures n == "release" <==> a == Release
    ensures n == "drag" <==> a == Drag
    ensures n == "move" <==> a == Move
    ensures LowerWord(n)
  {
    match a
    case Press => "press"
    case Release => "release"
    case Drag => "drag"
    case Move => "move"
  }

  datatype MouseButtonType = LeftButton | RightButton | MiddleButton

  /** `MouseButtonType::as_str`. */
  function ButtonName(b: MouseButtonType): (n: string)
    ensures n == "left" <==> b == LeftButton
    ensures n == "right" <==> b == RightButton
    ensures n == "middle" <==> b == MiddleButton
    ensures LowerWord(n)
  {
    match b
    case LeftButton => "left"
    case RightButton => "right"
    case MiddleButton => "middle"
  }

  datatype ScrollDirection = Up | Down | Left | Right

  /** `ScrollDirection::as_str`: the wheel button name. */
  function DirectionName(d: ScrollDirection): (n: string)
    ensures n == "up" <==> d == Up
    ensures n == "down" <==> d == Down
    ensures n == "left" <==> d == Left
    ensures n == "right" <==> d == Right
    ensures LowerWord(n)
  {
    match d
    case Up => "up"
    case Down => "down"
    case Left => "left"
    case Right => "right"
  }

  /** The action and button names are distinct within each enumeration, so Neovim can tell them apart. */
  lemma NamesDistinct(a: MouseAction, a': MouseAction, b: MouseButtonType, b': MouseButtonType)
    ensures ActionName(a) == ActionName(a') ==> a == a'
    ensures ButtonName(b) == ButtonName(b') ==> b == b'
  {
  }

  /** The scroll-direction names are distinct. */
  lemma DirectionNamesDistinct(d: ScrollDirection, d': ScrollDirection)
    ensures DirectionName(d) == DirectionName(d') ==> d == d'
  {
  }

  /** The buttons a windowing system reports; only three have a Neovim name. */
  datatype MouseButton = PhysLeft | PhysRight | PhysMiddle | PhysBack | PhysForward | PhysOther(id: nat)

  /** `mouse_button_to_type`: left, right and middle; every other button has no mapping. */
  function MouseButtonToType(button: MouseButton): (t: Option<MouseButtonType>)
    ensures t.Some? <==> button in {PhysLeft, PhysRight, PhysMiddle}
    ensures t == Some(LeftButton) <==> button == PhysLeft
    ensures t == Some(RightButton) <==> button == PhysRight
    ensures t == Some(MiddleButton) <==> button == PhysMiddle
  {
    match button
    case PhysLeft => Some(LeftButton)
    case PhysRight => Some(RightButton)
    case PhysMiddle => Some(MiddleButton)
    case _ => None
  }

  /** The modifier string as a value: one letter per held modifier. */
  function ModifierLetters(m: Modifiers): string
  {
    (if m.shift then "S" else "") + (if m.ctrl then "C" else "") + (if m.alt then "A" else "")
      + (if m.logo then "D" else "")
  }

  /** `modifiers_to_string`: appends S, C, A, D in that order. */
  method ModifiersToString(m: Modifiers) returns (s: string)
    ensures s == ModifierLetters(m)
    ensures |s| <= 4
  {
    s := "";
    if m.shift {
      s := s + "S";
    }
    if m.ctrl {
      s := s + "C";
    }
    if m.alt {
      s := s + "A";
    }
    if m.logo {
      s := s + "D";
    }
  }

  /** The letters say exactly which modifiers are held, one letter each. */
  lemma ModifierLettersExact(m: Modifiers)
    ensures ('S' in ModifierLetters(m) <==> m.shift) && ('C' in ModifierLetters(m) <==> m.ctrl)
    ensures ('A' in ModifierLetters(m) <==> m.alt) && ('D' in ModifierLetters(m) <==> m.logo)
    ensures |ModifierLetters(m)| == (if m.shift then 1 else 0) + (if m.ctrl then 1 else 0) + (if m.alt then 1 else 0) + (if m.logo then 1 else 0)
    ensures ModifierLetters(m) == "" <==> m == NoModifiers
  {
  }

  /** The letters appear in S, C, A, D order. */
  lemma ModifierLettersOrdered(m: Modifiers)
    ensures forall i, j :: 0 <= i < j < |ModifierLetters(m)| ==> Rank(ModifierLetters(m)[i]) < Rank(ModifierLetters(m)[j])
  {
    var s := if m.shift then "S" else "";
    var c := if m.ctrl then "C" else "";
    var a := if m.alt then "A" else "";
    var d := if m.logo then "D" else "";
    var l := ModifierLetters(m);
    assert l == s + c + a + d;
    assert forall k :: 0 <= k < |l| ==> Rank(l[k]) == (if k < |s| then 0 else if k < |s| + |c| then 1 else if k < |s| + |c| + |a| then 2 else 3);
  }

  /** The position of a modifier letter in the S, C, A, D order. */
  function Rank(ch: char): nat
  {
    if ch == 'S' then 0 else if ch == 'C' then 1 else if ch == 'A' then 2 else 3
  }

  datatype GridPosition = GridPosition(row: int, col: int)

  /** The last mouse position and the button held down, if any. */
  class MouseState {
    var lastPosition: Option<GridPosition>
    var pressedButton: Option<MouseButtonType>

    constructor()
      ensures lastPosition.None? && pressedButton.None? && !IsDragging()
    {
      lastPosition := None;
      pressedButton := None;
    }

    method UpdatePosition(position: GridPosition)
      modifies this
      ensures lastPosition == Some(position) && pressedButton == old(pressedButton)
      ensures IsDragging() == old(IsDragging())
    {
      lastPosition := Some(position);
    }

    method ButtonPressed(button: MouseButtonType)
      modifies this
      ensures pressedButton == Some(button) && lastPosition == old(lastPosition)
      ensures IsDragging()
    {
      pressedButton := Some(button);
    }

    method ButtonReleased()
      modifies this
      ensures pressedButton.None? && lastPosition == old(lastPosition)
      ensures !IsDragging()
    {
      pressedButton := None;
    }

    /** `is_dragging`: a button is held. */
    function IsDragging(): (d: bool)
      reads this
      ensures d <==> pressedButton.Some?
    {
      pressedButton.Some?
    }
  }
}
