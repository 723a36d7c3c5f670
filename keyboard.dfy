/**
 * Key events to Neovim key notation (`<C-a>`, `<S-Tab>`, `<lt>`, ...).
 *
 * Named keys and physical key codes come from fixed tables; a character key
 * is sent literally unless a modifier makes it special. Modifiers are
 * written in the order D- C- M- S- inside angle brackets.
 */
module Keyboard {
  import opened Wrappers
  import opened Seqs

  datatype Modifiers = Modifiers(ctrl: bool, shift: bool, alt: bool, logo: bool)

  const NoModifiers := Modifiers(false, false, false, false)

  /** The named (logical) keys the table knows; every other named key is `OtherNamed`. */
  datatype NamedKey =
    | Enter | Tab | Space | Backspace | Escape | Delete | Insert | Home | End | PageUp | PageDown
    | ArrowUp | ArrowDown | ArrowLeft | ArrowRight
    | F1 | F2 | F3 | F4 | F5 | F6 | F7 | F8 | F9 | F10 | F11 | F12
    | Help | Undo
    | Shift | Control | Alt | Super | Meta | Hyper
    | NumLock | CapsLock | ScrollLock
    | OtherNamed

  /** The physical key codes the table knows; every other code is `OtherCode`. */
  datatype KeyCode =
    | CodeEnter | NumpadEnter | CodeTab | CodeSpace | CodeBackspace | CodeEscape | CodeDelete | CodeInsert
    | CodeHome | CodeEnd | CodePageUp | CodePageDown
    | CodeArrowUp | CodeArrowDown | CodeArrowLeft | CodeArrowRight
    | CodeF1 | CodeF2 | CodeF3 | CodeF4 | CodeF5 | CodeF6 | CodeF7 | CodeF8 | CodeF9 | CodeF10 | CodeF11 | CodeF12
    | Numpad0 | Numpad1 | Numpad2 | Numpad3 | Numpad4 | Numpad5 | Numpad6 | Numpad7 | Numpad8 | Numpad9
    | NumpadAdd | NumpadSubtract | NumpadMultiply | NumpadDivide | NumpadDecimal
    | OtherCode

  datatype LogicalKey = Named(named: NamedKey) | Character(text: string) | Unidentified | Dead

  datatype PhysicalKey = Code(code: KeyCode) | UnidentifiedPhysical

  datatype KeyEvent = KeyEvent(pressed: bool, logicalKey: LogicalKey, physicalKey: PhysicalKey)

  /** `named_key_to_str`: the Neovim name of a named key; modifiers, locks and
      unknown keys have none. */
  function NamedKeyToStr(key: NamedKey): (s: Option<string>)
    ensures key in {Shift, Control, Alt, Super, Meta, Hyper, NumLock, CapsLock, ScrollLock, OtherNamed} <==> s.None?
  {
    match key
    case Enter => Some("CR")
    case Tab => Some("Tab")
    case Space => Some("Space")
    case Backspace => Some("BS")
    case Escape => Some("Esc")
    case Delete => Some("Del")
    case Insert => Some("Insert")
    case Home => Some("Home")
    case End => Some("End")
    case PageUp => Some("PageUp")
    case PageDown => Some("PageDown")
    case ArrowUp => Some("Up")
    case ArrowDown => Some("Down")
    case ArrowLeft => Some("Left")
    case ArrowRight => Some("Right")
    case F1 => Some("F1")
    case F2 => Some("F2")
    case F3 => Some("F3")
    case F4 => Some("F4")
    case F5 => Some("F5")
    case F6 => Some("F6")
    case F7 => Some("F7")
    case F8 => Some("F8")
    case F9 => Some("F9")
    case F10 => Some("F10")
    case F11 => Some("F11")
    case F12 => Some("F12")
    case Help => Some("Help")
    case Undo => Some("Undo")
    case _ => None
  }

  /** `physical_keycode_to_str`: the Neovim name of a physical key, numpad keys as `k...`. */
  function PhysicalKeycodeToStr(code: KeyCode): (s: Option<string>)
    ensures code == OtherCode <==> s.None?
  {
    match code
    case CodeEnter => Some("CR")
    case NumpadEnter => Some("CR")
    case CodeTab => Some("Tab")
    case CodeSpace => Some("Space")
    case CodeBackspace => Some("BS")
    case CodeEscape => Some("Esc")
    case CodeDelete => Some("Del")
    case CodeInsert => Some("Insert")
    case CodeHome => Some("Home")
    case CodeEnd => Some("End")
    case CodePageUp => Some("PageUp")
    case CodePageDown => Some("PageDown")
    case CodeArrowUp => Some("Up")
    case CodeArrowDown => Some("Down")
    case CodeArrowLeft => Some("Left")
    case CodeArrowRight => Some("Right")
    case CodeF1 => Some("F1")
    case CodeF2 => Some("F2")
    case CodeF3 => Some("F3")
    case CodeF4 => Some("F4")
    case CodeF5 => Some("F5")
    case CodeF6 => Some("F6")
    case CodeF7 => Some("F7")
    case CodeF8 => Some("F8")
    case CodeF9 => Some("F9")
    case CodeF10 => Some("F10")
    case CodeF11 => Some("F11")
    case CodeF12 => Some("F12")
    case Numpad0 => Some("k0")
    case Numpad1 => Some("k1")
    case Numpad2 => Some("k2")
    case Numpad3 => Some("k3")
    case Numpad4 => Some("k4")
    case Numpad5 => Some("k5")
    case Numpad6 => Some("k6")
    case Numpad7 => Some("k7")
    case Numpad8 => Some("k8")
    case Numpad9 => Some("k9")
    case NumpadAdd => Some("kPlus")
    case NumpadSubtract => Some("kMinus")
    case NumpadMultiply => Some("kMultiply")
    case NumpadDivide => Some("kDivide")
    case NumpadDecimal => Some("kPoint")
    case OtherCode => None
  }

  /** The named key a Neovim name stands for, if the table has one. */
  function KeyOfName(name: string): Option<NamedKey>
  {
    match name
    case "CR" => Some(Enter)
    case "Tab" => Some(Tab)
    case "Space" => Some(Space)
    case "BS" => Some(Backspace)
    case "Esc" => Some(Escape)
    case "Del" => Some(Delete)
    case "Insert" => Some(Insert)
    case "Home" => Some(Home)
    case "End" => Some(End)
    case "PageUp" => Some(PageUp)
    case "PageDown" => Some(PageDown)
    case "Up" => Some(ArrowUp)
    case "Down" => Some(ArrowDown)
    case "Left" => Some(ArrowLeft)
    case "Right" => Some(ArrowRight)
    case "F1" => Some(F1)
    case "F2" => Some(F2)
    case "F3" => Some(F3)
    case "F4" => Some(F4)
    case "F5" => Some(F5)
    case "F6" => Some(F6)
    case "F7" => Some(F7)
    case "F8" => Some(F8)
    case "F9" => Some(F9)
    case "F10" => Some(F10)
    case "F11" => Some(F11)
    case "F12" => Some(F12)
    case "Help" => Some(Help)
    case "Undo" => Some(Undo)
    case _ => None
  }

  /** Every name the table gives reads back as its key. */
  lemma NamedKeyNameRoundTrip(a: NamedKey)
    requires NamedKeyToStr(a).Some?
    ensures KeyOfName(NamedKeyToStr(a).value) == Some(a)
  {
  }

  /** No two named keys share a Neovim name. */
  lemma NamedKeyNamesDistinct(a: NamedKey, b: NamedKey)
    requires NamedKeyToStr(a).Some? && NamedKeyToStr(a) == NamedKeyToStr(b)
    ensures a == b
  {
    NamedKeyNameRoundTrip(a);
    NamedKeyNameRoundTrip(b);
  }

  /** The physical key that carries the same key as a named key, for the
      keys both tables list. */
  function CodeOfNamed(key: NamedKey): Option<KeyCode>
  {
    match key
    case Enter => Some(CodeEnter)
    case Tab => Some(CodeTab)
    case Space => Some(CodeSpace)
    case Backspace => Some(CodeBackspace)
    case Escape => Some(CodeEscape)
    case Delete => Some(CodeDelete)
    case Insert => Some(CodeInsert)
    case Home => Some(CodeHome)
    case End => Some(CodeEnd)
    case PageUp => Some(CodePageUp)
    case PageDown => Some(CodePageDown)
    case ArrowUp => Some(CodeArrowUp)
    case ArrowDown => Some(CodeArrowDown)
    case ArrowLeft => Some(CodeArrowLeft)
    case ArrowRight => Some(CodeArrowRight)
    case F1 => Some(CodeF1)
    case F2 => Some(CodeF2)
    case F3 => Some(CodeF3)
    case F4 => Some(CodeF4)
    case F5 => Some(CodeF5)
    case F6 => Some(CodeF6)
    case F7 => Some(CodeF7)
    case F8 => Some(CodeF8)
    case F9 => Some(CodeF9)
    case F10 => Some(CodeF10)
    case F11 => Some(CodeF11)
    case F12 => Some(CodeF12)
    case _ => None
  }

  /** Agreement of the two tables on the editing keys. */
  lemma AgreeEditing(key: NamedKey)
    requires key in {Enter, Tab, Space, Backspace, Escape, Delete, Insert, Home, End}
    ensures PhysicalKeycodeToStr(CodeOfNamed(key).value) == NamedKeyToStr(key)
  {
  }

  /** Agreement of the two tables on the page and arrow keys. */
  lemma AgreeNavigation(key: NamedKey)
    requires key in {PageUp, PageDown, ArrowUp, ArrowDown, ArrowLeft, ArrowRight}
    ensures PhysicalKeycodeToStr(CodeOfNamed(key).value) == NamedKeyToStr(key)
  {
  }

  /** Agreement of the two tables on F1 to F4. */
  lemma AgreeFunctionLow(key: NamedKey)
    requires key in {F1, F2, F3, F4}
    ensures PhysicalKeycodeToStr(CodeOfNamed(key).value) == NamedKeyToStr(key)
  {
  }

  /** Agreement of the two tables on F5 to F8. */
  lemma AgreeFunctionMid(key: NamedKey)
    requires key in {F5, F6, F7, F8}
    ensures PhysicalKeycodeToStr(CodeOfNamed(key).value) == NamedKeyToStr(key)
  {
  }

  /** Agreement of the two tables on F9 to F12. */
  lemma AgreeFunctionHigh(key: NamedKey)
    requires key in {F9, F10, F11, F12}
    ensures PhysicalKeycodeToStr(CodeOfNamed(key).value) == NamedKeyToStr(key)
  {
  }

  /** A key known to both tables gets the same name from each, and the
      numpad Enter is `CR` like Enter. */
  lemma PhysicalAgreesWithNamed(key: NamedKey)
    ensures CodeOfNamed(key).Some? ==> PhysicalKeycodeToStr(CodeOfNamed(key).value) == NamedKeyToStr(key)
    ensures PhysicalKeycodeToStr(NumpadEnter) == NamedKeyToStr(Enter)
  {
    if key in {Enter, Tab, Space, Backspace, Escape, Delete, Insert, Home, End} {
      AgreeEditing(key);
    } else if key in {PageUp, PageDown, ArrowUp, ArrowDown, ArrowLeft, ArrowRight} {
      AgreeNavigation(key);
    } else if key in {F1, F2, F3, F4} {
      AgreeFunctionLow(key);
    } else if key in {F5, F6, F7, F8} {
      AgreeFunctionMid(key);
    } else if key in {F9, F10, F11, F12} {
      AgreeFunctionHigh(key);
    }
  }

  /** The only named keys with a Neovim name that have no physical
      counterpart are `Help` and `Undo`. */
  lemma NamedOnlyKeys(key: NamedKey)
    ensures CodeOfNamed(key).None? && NamedKeyToStr(key).Some? <==> key == Help || key == Undo
  {
    match key {
      case Enter =>
      case Tab =>
      case Space =>
      case Backspace =>
      case Escape =>
      case Delete =>
      case Insert =>
      case Home =>
      case End =>
      case PageUp =>
      case PageDown =>
      case ArrowUp =>
      case ArrowDown =>
      case ArrowLeft =>
      case ArrowRight =>
      case F1 =>
      case F2 =>
      case F3 =>
      case F4 =>
      case F5 =>
      case F6 =>
      case F7 =>
      case F8 =>
      case F9 =>
      case F10 =>
      case F11 =>
      case F12 =>
      case Help =>
      case Undo =>
      case Shift =>
      case Control =>
      case Alt =>
      case Super =>
      case Meta =>
      case Hyper =>
      case NumLock =>
      case CapsLock =>
      case ScrollLock =>
      case OtherNamed =>
    }
  }

  /** `escape_literal`: the three characters that key notation reserves get their names. */
  function EscapeLiteral(key: string): (r: string)
    ensures key == "<" ==> r == "<lt>"
    ensures key == "\\" ==> r == "<Bslash>"
    ensures key == "|" ==> r == "<Bar>"
    ensures key !in {"<", "\\", "|"} ==> r == key
  {
    match key
    case "<" => "<lt>"
    case "\\" => "<Bslash>"
    case "|" => "<Bar>"
    case _ => key
  }

  /** Reading key notation back: the inverse of `EscapeLiteral`. */
  function UnescapeLiteral(s: string): string
  {
    match s
    case "<lt>" => "<"
    case "<Bslash>" => "\\"
    case "<Bar>" => "|"
    case _ => s
  }

  /** Escaping loses nothing on keys that are not themselves escape names. */
  lemma EscapeRoundTrip(key: string)
    requires key !in {"<lt>", "<Bslash>", "<Bar>"}
    ensures UnescapeLiteral(EscapeLiteral(key)) == key
  {
  }

  /** Whether Ctrl, Alt or Super is held. */
  predicate HasModifiers(m: Modifiers)
  {
    m.ctrl || m.alt || m.logo
  }

  /** Shift is written only for a special key or alongside another modifier. */
  predicate ShiftRelevant(m: Modifiers, isSpecial: bool)
  {
    m.shift && (isSpecial || HasModifiers(m))
  }

  /** The `D-C-M-S-` prefix, in that order. */
  function Prefix(m: Modifiers, isSpecial: bool): string
  {
    (if m.logo then "D-" else "") + (if m.ctrl then "C-" else "") + (if m.alt then "M-" else "")
      + (if ShiftRelevant(m, isSpecial) then "S-" else "")
  }

  /** `format_with_modifiers` as a value. */
  function Formatted(key: string, m: Modifiers, isSpecial: bool): string
  {
    if !HasModifiers(m) && !ShiftRelevant(m, isSpecial) then
      if isSpecial then "<" + key + ">" else EscapeLiteral(key)
    else "<" + Prefix(m, isSpecial) + key + ">"
  }

  /** `format_with_modifiers`: builds the prefix one modifier at a time. */
  method FormatWithModifiers(key: string, m: Modifiers, isSpecial: bool) returns (r: Option<string>)
    ensures r == Some(Formatted(key, m, isSpecial))
  {
    var hasModifiers := m.ctrl || m.alt || m.logo;
    var shiftRelevant := m.shift && (isSpecial || hasModifiers);
    if !hasModifiers && !shiftRelevant {
      if isSpecial {
        return Some("<" + key + ">");
      }
      return Some(EscapeLiteral(key));
    }
    var prefix := "";
    if m.logo {
      prefix := prefix + "D-";
    }
    if m.ctrl {
      prefix := prefix + "C-";
    }
    if m.alt {
      prefix := prefix + "M-";
    }
    if shiftRelevant {
      prefix := prefix + "S-";
    }
    assert prefix == Prefix(m, isSpecial);
    return Some("<" + prefix + key + ">");
  }

  /** Strips a two-letter tag from the front of `p` when it is there. */
  function ReadTag(tag: string, p: string): (bool, string)
  {
    if |p| >= 2 && p[..2] == tag then (true, p[2..]) else (false, p)
  }

  /** The modifiers a prefix spells, read back in D-, C-, M-, S- order. */
  function ReadPrefix(p: string): Option<(bool, bool, bool, bool)>
  {
    var (d, p1) := ReadTag("D-", p);
    var (c, p2) := ReadTag("C-", p1);
    var (a, p3) := ReadTag("M-", p2);
    var (s, p4) := ReadTag("S-", p3);
    if p4 == "" then Some((d, c, a, s)) else None
  }

  /** A tag written in front of a text that does not itself start with the
      tag is read back as present, and its absence as absent. */
  lemma ReadTagFront(tag: string, on: bool, rest: string)
    requires |tag| == 2 && !(|rest| >= 2 && rest[..2] == tag)
    ensures ReadTag(tag, (if on then tag else "") + rest) == (on, rest)
  {
    if on {
      assert (tag + rest)[..2] == tag;
      assert (tag + rest)[2..] == rest;
    } else {
      assert "" + rest == rest;
    }
  }

  /** The prefix determines the modifiers that were written: logo, ctrl, alt and a relevant shift. */
  lemma PrefixReadsBack(m: Modifiers, isSpecial: bool)
    ensures ReadPrefix(Prefix(m, isSpecial)) == Some((m.logo, m.ctrl, m.alt, ShiftRelevant(m, isSpecial)))
  {
    var shift := ShiftRelevant(m, isSpecial);
    var sPart := if shift then "S-" else "";
    var dPart, cPart, aPart := if m.logo then "D-" else "", if m.ctrl then "C-" else "", if m.alt then "M-" else "";
    var p2 := aPart + sPart;
    var p1 := cPart + p2;
    AppendAssoc(dPart + cPart, aPart, sPart);
    AppendAssoc(dPart, cPart, p2);
    assert Prefix(m, isSpecial) == dPart + p1;
    assert |p1| >= 2 ==> p1[..2] != "D-" by {
      if m.ctrl { assert p1[0] == 'C'; } else if m.alt { assert p1[0] == 'M'; } else if shift { assert p1[0] == 'S'; }
    }
    assert |p2| >= 2 ==> p2[..2] != "C-" by {
      if m.alt { assert p2[0] == 'M'; } else if shift { assert p2[0] == 'S'; }
    }
    assert |sPart| >= 2 ==> sPart[..2] != "M-" by {
      if shift { assert sPart[0] == 'S'; }
    }
    ReadTagFront("D-", m.logo, p1);
    ReadTagFront("C-", m.ctrl, p2);
    ReadTagFront("M-", m.alt, sPart);
    ReadTagFront("S-", shift, "");
  }

  /** With nothing held, a special key is bracketed and a literal is escaped. */
  lemma UnmodifiedKeys(key: string)
    ensures Formatted(key, NoModifiers, true) == "<" + key + ">"
    ensures Formatted(key, NoModifiers, false) == EscapeLiteral(key)
  {
  }

  /** Shift alone on a character key leaves it literal: the shifted character already carries the case. */
  lemma ShiftedCharacterStaysLiteral(key: string)
    ensures Formatted(key, Modifiers(false, true, false, false), false) == EscapeLiteral(key)
  {
  }

  /** A character key whose text is one ASCII control character (U+0000..U+001F or DEL);
      longer or non-ASCII texts are never treated as control characters. */
  predicate IsSingleControlChar(s: string)
  {
    |s| == 1 && (s[0] < 32 as char || s[0] == 127 as char)
  }

  /** The notation of a key known only by its physical code. */
  function PhysicalFallback(physical: PhysicalKey, m: Modifiers): Option<string>
  {
    match physical
    case UnidentifiedPhysical => None
    case Code(code) =>
      match PhysicalKeycodeToStr(code)
      case Some(name) => Some(Formatted(name, m, true))
      case None => None
  }

  /** `try_physical_key`: an unidentified physical key, or a code with no
      name, gives nothing; otherwise the code's name is formatted as special. */
  method TryPhysicalKey(physical: PhysicalKey, m: Modifiers) returns (r: Option<string>)
    ensures physical.UnidentifiedPhysical? ==> r.None?
    ensures physical.Code? ==> (r.Some? <==> PhysicalKeycodeToStr(physical.code).Some?)
    ensures r.Some? ==> r.value == Formatted(PhysicalKeycodeToStr(physical.code).value, m, true)
    ensures r == PhysicalFallback(physical, m)
  {
    if physical.UnidentifiedPhysical? {
      return None;
    }
    var name := PhysicalKeycodeToStr(physical.code);
    if name.None? {
      return None;
    }
    r := FormatWithModifiers(name.value, m, true);
  }

  /** `key_event_to_neovim`: releases, dead keys, control characters and keys
      with no name give nothing; an unidentified logical key falls back to its
      physical code, which is then formatted as special. */
  method KeyEventToNeovim(event: KeyEvent, m: Modifiers) returns (r: Option<string>)
    ensures !event.pressed || event.logicalKey.Dead? ==> r.None?
    ensures event.pressed && event.logicalKey.Named? ==>
      r == (match NamedKeyToStr(event.logicalKey.named)
            case Some(name) => Some(Formatted(name, m, true))
            case None => None)
    ensures event.pressed && event.logicalKey.Character? ==>
      r == (if IsSingleControlChar(event.logicalKey.text) then None
            else Some(Formatted(event.logicalKey.text, m, false)))
    ensures event.pressed && event.logicalKey.Unidentified? ==> r == PhysicalFallback(event.physicalKey, m)
  {
    if !event.pressed {
      return None;
    }
    match event.logicalKey {
      case Named(named) =>
        var name := NamedKeyToStr(named);
        if name.None? {
          return None;
        }
        r := FormatWithModifiers(name.value, m, true);
      case Character(text) =>
        if IsSingleControlChar(text) {
          return None;
        }
        r := FormatWithModifiers(text, m, false);
      case Unidentified =>
        r := TryPhysicalKey(event.physicalKey, m);
      case Dead =>
        return None;
    }
  }
}
