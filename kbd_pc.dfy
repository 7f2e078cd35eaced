/**
 * The PC keyboard controller driver's scancode decoder (scan code set 1).
 * Each scancode is a make code; with bit 0x80 set it is the break code of the
 * same key. A 128-entry table maps make codes to key codes, 0 meaning "no key".
 */
module KbdPc {
  import opened Wrappers

  datatype EventType = Press | Release

  /** The key codes the table uses. */
  datatype KeyCode =
    | Backtick
    | Num1 | Num2 | Num3 | Num4 | Num5 | Num6 | Num7 | Num8 | Num9 | Num0
    | Minus | Equals | Backspace | Tab
    | Q | W | E | R | T | Y | U | I | O | P
    | LBracket | RBracket | CapsLock
    | A | S | D | F | G | H | J | K | L
    | Semicolon | Quote | Backslash | LShift
    | Z | X | C | V | B | N | M
    | Comma | Period | Slash | RShift
    | LCtrl | LAlt | Space | Escape
    | F1 | F2 | F3 | F4 | F5 | F6 | F7 | F8 | F9 | F10 | F11 | F12
    | Enter

  /** The event handed to the keyboard server (`kbd_push_ev`). */
  datatype Event = Event(kind: EventType, key: KeyCode)

  const SCANMAP_SIZE: nat := 128

  /**
   * The `scanmap_simple` table: None stands for an entry with no initializer
   * (value 0). Print Screen, Scroll Lock and Pause have no entries.
   */
  function ScanmapSimple(code: nat): (r: Option<KeyCode>)
    requires code < SCANMAP_SIZE
    ensures r.Some? ==> 0x01 <= code <= 0x58
  {
    match code
    case 0x29 => Some(Backtick)
    case 0x02 => Some(Num1)
    case 0x03 => Some(Num2)
    case 0x04 => Some(Num3)
    case 0x05 => Some(Num4)
    case 0x06 => Some(Num5)
    case 0x07 => Some(Num6)
    case 0x08 => Some(Num7)
    case 0x09 => Some(Num8)
    case 0x0a => Some(Num9)
    case 0x0b => Some(Num0)
    case 0x0c => Some(Minus)
    case 0x0d => Some(Equals)
    case 0x0e => Some(Backspace)
    case 0x0f => Some(Tab)
    case 0x10 => Some(Q)
    case 0x11 => Some(W)
    case 0x12 => Some(E)
    case 0x13 => Some(R)
    case 0x14 => Some(T)
    case 0x15 => Some(Y)
    case 0x16 => Some(U)
    case 0x17 => Some(I)
    case 0x18 => Some(O)
    case 0x19 => Some(P)
    case 0x1a => Some(LBracket)
    case 0x1b => Some(RBracket)
    case 0x3a => Some(CapsLock)
    case 0x1e => Some(A)
    case 0x1f => Some(S)
    case 0x20 => Some(D)
    case 0x21 => Some(F)
    case 0x22 => Some(G)
    case 0x23 => Some(H)
    case 0x24 => Some(J)
    case 0x25 => Some(K)
    case 0x26 => Some(L)
    case 0x27 => Some(Semicolon)
    case 0x28 => Some(Quote)
    case 0x2b => Some(Backslash)
    case 0x2a => Some(LShift)
    case 0x2c => Some(Z)
    case 0x2d => Some(X)
    case 0x2e => Some(C)
    case 0x2f => Some(V)
    case 0x30 => Some(B)
    case 0x31 => Some(N)
    case 0x32 => Some(M)
    case 0x33 => Some(Comma)
    case 0x34 => Some(Period)
    case 0x35 => Some(Slash)
    case 0x36 => Some(RShift)
    case 0x1d => Some(LCtrl)
    case 0x38 => Some(LAlt)
    case 0x39 => Some(Space)
    case 0x01 => Some(Escape)
    case 0x3b => Some(F1)
    case 0x3c => Some(F2)
    case 0x3d => Some(F3)
    case 0x3e => Some(F4)
    case 0x3f => Some(F5)
    case 0x40 => Some(F6)
    case 0x41 => Some(F7)
    case 0x42 => Some(F8)
    case 0x43 => Some(F9)
    case 0x44 => Some(F10)
    case 0x57 => Some(F11)
    case 0x58 => Some(F12)
    case 0x1c => Some(Enter)
    case _ => None
  }

  /** `x & 0x80` for 0 <= x < 0x100: the top bit of a byte. */
  function AndBit7(x: int): (r: int)
    requires 0 <= x < 0x100
    ensures r == 0 || r == 0x80
  {
    x / 0x80 * 0x80
  }

  /** `x & ~0x80` for 0 <= x < 0x100: the byte with its top bit cleared. */
  function ClearBit7(x: int): (r: int)
    requires 0 <= x < 0x100
    ensures 0 <= r < 0x80
  {
    x % 0x80
  }

  /** Splits an in-range scancode into its event type and table index by
      testing and clearing bit 0x80. */
  function Classify(scancode: int): (r: (EventType, nat))
    requires 0 <= scancode < 0x100
    ensures r.1 < SCANMAP_SIZE
    ensures r.0 == Release <==> scancode >= 0x80
    ensures r.1 == if scancode >= 0x80 then scancode - 0x80 else scancode
  {
    if AndBit7(scancode) != 0 then (Release, ClearBit7(scancode)) else (Press, scancode)
  }

  /**
   * `kbd_ctl_parse_scancode`: the event it pushes, or None when it pushes
   * nothing (scancode out of range, or no key in the table).
   */
  function ParseScancode(scancode: int): (ev: Option<Event>)
    ensures (scancode < 0 || scancode >= 0x100) ==> ev == None
    ensures ev.Some? <==>
      0 <= scancode < 0x100 && ScanmapSimple(scancode % 0x80).Some?
    ensures ev.Some? ==>
      ev.value.key == ScanmapSimple(scancode % 0x80).value &&
      (ev.value.kind == Release <==> scancode >= 0x80)
  {
    if scancode < 0 || scancode >= 0x100 then None
    else
      var (kind, index) := Classify(scancode);
      assert index == scancode % 0x80;
      var entry := ScanmapSimple(index);
      match entry
      case None => None
      case Some(key) => Some(Event(kind, key))
  }

  /** A make code and its break code (the same code with bit 0x80 set) name
      the same key, as a press and as a release. */
  lemma MakeBreakSymmetry(code: int)
    requires 0 <= code < 0x80
    ensures ParseScancode(code).Some? <==> ParseScancode(code + 0x80).Some?
    ensures ParseScancode(code).Some? ==>
      ParseScancode(code).value == Event(Press, ParseScancode(code + 0x80).value.key) &&
      ParseScancode(code + 0x80).value.kind == Release
  {
  }

  /** Some table entries: Escape, Enter and Space. */
  lemma TableEntries()
    ensures ScanmapSimple(0x01) == Some(Escape)
    ensures ScanmapSimple(0x1c) == Some(Enter)
    ensures ScanmapSimple(0x39) == Some(Space)
  {
  }

  /** More table entries: left Shift, F1 and F12. */
  lemma TableEntriesMore()
    ensures ScanmapSimple(0x2a) == Some(LShift)
    ensures ScanmapSimple(0x3b) == Some(F1)
    ensures ScanmapSimple(0x58) == Some(F12)
  {
  }

  /** The function keys F2 to F4 follow F1 at 0x3c to 0x3e. */
  lemma FunctionKeysLow()
    ensures ScanmapSimple(0x3c) == Some(F2)
    ensures ScanmapSimple(0x3d) == Some(F3)
    ensures ScanmapSimple(0x3e) == Some(F4)
  {
  }

  /** F5 to F7 at 0x3f to 0x41. */
  lemma FunctionKeysMiddle()
    ensures ScanmapSimple(0x3f) == Some(F5)
    ensures ScanmapSimple(0x40) == Some(F6)
    ensures ScanmapSimple(0x41) == Some(F7)
  {
  }

  /** F8 to F10 at 0x42 to 0x44, and F11 apart from them at 0x57. */
  lemma FunctionKeysHigh()
    ensures ScanmapSimple(0x42) == Some(F8)
    ensures ScanmapSimple(0x43) == Some(F9)
    ensures ScanmapSimple(0x44) == Some(F10)
    ensures ScanmapSimple(0x57) == Some(F11)
  {
  }

  /** Codes whose entries have no initializer are ignored, pressed or
      released: for instance 0x00 and 0x37. */
  lemma UnmappedCodesIgnored()
    ensures ParseScancode(0x00) == None && ParseScancode(0x80) == None
    ensures ParseScancode(0x37) == None && ParseScancode(0xb7) == None
  {
  }

  /** 0x45, which would follow F10, has no entry either. */
  lemma CodeAfterF10Ignored()
    ensures ParseScancode(0x45) == None && ParseScancode(0xc5) == None
  {
  }
}
