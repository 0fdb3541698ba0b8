/** The keyboard driver's line discipline: scan-code set 1 codes update modifier flags and
    the current terminal's line buffer, and some key combinations reset the screen or
    switch terminals. The handler is proved to perform `KeyStep`, a function on an
    abstract state about which the driver's rules are proved as lemmas. */
module Keyboard {
  import opened Common
  import opened Terminal

  const NUM_SCANCODES: nat := 89
  const RELEASED_SCANCODE_OFFSET: nat := 0x80

  const CODE_BACKSPACE: nat := 0x0E
  const CODE_TAB: nat := 0x0F
  const CODE_ENTER: nat := 0x1C
  const CODE_LEFT_CONTROL: nat := 0x1D
  const CODE_L: nat := 0x26
  const CODE_LEFT_SHIFT: nat := 0x2A
  const CODE_RIGHT_SHIFT: nat := 0x36
  const CODE_ALT: nat := 0x38
  const CODE_CAPS_LOCK: nat := 0x3A
  const CODE_F1: nat := 0x3B
  const CODE_F2: nat := 0x3C
  const CODE_F3: nat := 0x3D
  const CODE_EXTENDED: nat := 0xE0

  /** Scan-code set 1 make codes 0x00 to 0x58: the character without and with shift.
      Every row not listed (escape, backspace, tab, Enter, the modifiers, the function
      keys, the lock keys and the unknown codes) holds '\0' twice. */
  function ScancodeToKey(code: nat): (r: (char, char))
    requires code < NUM_SCANCODES
    ensures r.0 == '\0' <==> r.1 == '\0'
    ensures r.0 != '\0' ==> 0x02 <= code
  {
    match code
    case 0x02 => ('1', '!')
    case 0x03 => ('2', '@')
    case 0x04 => ('3', '#')
    case 0x05 => ('4', '$')
    case 0x06 => ('5', '%')
    case 0x07 => ('6', '^')
    case 0x08 => ('7', '&')
    case 0x09 => ('8', '*')
    case 0x0A => ('9', '(')
    case 0x0B => ('0', ')')
    case 0x0C => ('-', '_')
    case 0x0D => ('=', '+')
    case 0x10 => ('q', 'Q')
    case 0x11 => ('w', 'W')
    case 0x12 => ('e', 'E')
    case 0x13 => ('r', 'R')
    case 0x14 => ('t', 'T')
    case 0x15 => ('y', 'Y')
    case 0x16 => ('u', 'U')
    case 0x17 => ('i', 'I')
    case 0x18 => ('o', 'O')
    case 0x19 => ('p', 'P')
    case 0x1A => ('[', '{')
    case 0x1B => (']', '}')
    case 0x1E => ('a', 'A')
    case 0x1F => ('s', 'S')
    case 0x20 => ('d', 'D')
    case 0x21 => ('f', 'F')
    case 0x22 => ('g', 'G')
    case 0x23 => ('h', 'H')
    case 0x24 => ('j', 'J')
    case 0x25 => ('k', 'K')
    case 0x26 => ('l', 'L')
    case 0x27 => (';', ':')
    case 0x28 => ('\'', '"')
    case 0x29 => ('`', '~')
    case 0x2B => ('\\', '|')
    case 0x2C => ('z', 'Z')
    case 0x2D => ('x', 'X')
    case 0x2E => ('c', 'C')
    case 0x2F => ('v', 'V')
    case 0x30 => ('b', 'B')
    case 0x31 => ('n', 'N')
    case 0x32 => ('m', 'M')
    case 0x33 => (',', '<')
    case 0x34 => ('.', '>')
    case 0x35 => ('/', '?')
    case 0x37 => ('*', '*')
    case 0x39 => (' ', ' ')
    case 0x47 => ('7', '7')
    case 0x48 => ('8', '8')
    case 0x49 => ('9', '9')
    case 0x4A => ('-', '-')
    case 0x4B => ('4', '4')
    case 0x4C => ('5', '5')
    case 0x4D => ('6', '6')
    case 0x4E => ('+', '+')
    case 0x4F => ('1', '1')
    case 0x50 => ('2', '2')
    case 0x51 => ('3', '3')
    case 0x52 => ('0', '0')
    case 0x53 => ('.', '.')
    case _ => ('\0', '\0')
  }

  /** The backspace character the handler echoes. */
  const BS: char := 8 as char

  /** C's logical negation of a flag. */
  function Not(f: byte): (r: byte)
    ensures (r != 0) <==> (f == 0)
  {
    if f == 0 then 1 else 0
  }

  predicate IsLower(c: char)
  {
    'a' <= c <= 'z'
  }

  /** The table gives every letter key its lower case unshifted and its upper case
      shifted. */
  lemma LetterRows(code: nat)
    requires code < NUM_SCANCODES && IsLower(ScancodeToKey(code).0)
    ensures ScancodeToKey(code).1 as int == ScancodeToKey(code).0 as int - 32
  {
  }

  /** The driver's state: the modifier flags, the extended-prefix flag, `doneTyping` and
      the current terminal's line buffer (`buf`, of which `size` characters are live).
      The flags are the source's `uint8_t` variables: non-zero means set. */
  datatype KbState = KbState(
    isExtended: byte, capsToggle: byte, capsActive: byte,
    leftControl: byte, rightControl: byte, leftShift: byte, rightShift: byte, alt: byte,
    doneTyping: byte, buf: seq<char>, size: nat)

  ghost predicate WellFormed(s: KbState)
  {
    |s.buf| == KBUFFER_SIZE && s.size <= KBUFFER_SIZE
  }

  /** The live line. */
  function Live(s: KbState): seq<char>
    requires WellFormed(s)
  {
    s.buf[..s.size]
  }

  /** What a key does besides changing the state: nothing, echo a character to the
      screen, reset the screen (`term_reset`), or switch to another terminal. */
  datatype Effect = Quiet | Echo(c: char) | ResetScreen | SwitchTo(terminal: nat)

  datatype Step = Step(state: KbState, effect: Effect)

  /** The handler reads its table only for pressed codes that reach the printable-key
      branch with room in the buffer; codes 0x59 to 0x7F there would read past its 89
      rows. */
  ghost predicate InTable(s: KbState, code: byte)
  {
    code < NUM_SCANCODES || code >= RELEASED_SCANCODE_OFFSET || s.isExtended != 0 || s.size >= KBUFFER_SIZE
  }

  /** The character a printable key appends. */
  function KeyChar(s: KbState, code: nat): (c: char)
    requires code < NUM_SCANCODES
    ensures c == ScancodeToKey(code).0 || c == ScancodeToKey(code).1
    ensures c == ScancodeToKey(code).1 ==> s.leftShift != 0 || s.rightShift != 0 || s.capsActive != 0 ||
                                           ScancodeToKey(code).0 == ScancodeToKey(code).1
  {
    if s.leftShift != 0 || s.rightShift != 0 then ScancodeToKey(code).1
    else if s.capsActive != 0 && IsLower(ScancodeToKey(code).0) then ScancodeToKey(code).1
    else ScancodeToKey(code).0
  }

  function Append(s: KbState, c: char): (r: KbState)
    requires WellFormed(s) && s.size < KBUFFER_SIZE
    ensures WellFormed(r) && Live(r) == Live(s) + [c]
  {
    var r := s.(buf := s.buf[s.size := c], size := s.size + 1);
    assert Live(r) == Live(s) + [c];
    r
  }

  /** A release code, already reduced by 0x80: it clears the flag of its own key. */
  function Released(s: KbState, base: nat): (r: KbState)
    ensures r == s.(leftShift := r.leftShift, rightShift := r.rightShift, leftControl := r.leftControl,
                    capsToggle := r.capsToggle, alt := r.alt)
    ensures r.leftShift == s.leftShift || r.leftShift == 0
    ensures r.rightShift == s.rightShift || r.rightShift == 0
    ensures r.leftControl == s.leftControl || r.leftControl == 0
    ensures r.capsToggle == s.capsToggle || r.capsToggle == 0
    ensures r.alt == s.alt || r.alt == 0
  {
    if base == CODE_LEFT_SHIFT then s.(leftShift := 0)
    else if base == CODE_RIGHT_SHIFT then s.(rightShift := 0)
    else if base == CODE_LEFT_CONTROL then s.(leftControl := 0)
    else if base == CODE_CAPS_LOCK then s.(capsToggle := 0)
    else if base == CODE_ALT then s.(alt := 0)
    else s
  }

  /** Backspace, Tab and Enter: the keys that edit the line. */
  function LineKey(s: KbState, code: nat): (r: Step)
    requires WellFormed(s) && code in {CODE_BACKSPACE, CODE_TAB, CODE_ENTER}
    ensures WellFormed(r.state)
    ensures r.state == s.(buf := r.state.buf, size := r.state.size, doneTyping := r.state.doneTyping)
    ensures r.state.doneTyping != s.doneTyping ==>
              code == CODE_ENTER && s.size < KBUFFER_SIZE && r.state.doneTyping == 1
  {
    if code == CODE_BACKSPACE then
      if s.size > 0 then Step(s.(size := s.size - 1), Echo(BS)) else Step(s, Quiet)
    else if code == CODE_TAB then
      if s.size < KBUFFER_SIZE then Step(Append(s, '\t'), Echo('\t')) else Step(s, Quiet)
    else
      if s.size < KBUFFER_SIZE then Step(Append(s, '\n').(doneTyping := 1), Echo('\n'))
      else Step(s, Quiet)
  }

  /** Left control, the shifts, alt and Caps Lock: the keys that only set flags. */
  function ModifierKey(s: KbState, code: nat): (r: Step)
    requires code in {CODE_LEFT_CONTROL, CODE_LEFT_SHIFT, CODE_RIGHT_SHIFT, CODE_ALT, CODE_CAPS_LOCK}
    ensures r.effect == Quiet
    ensures r.state.buf == s.buf && r.state.size == s.size && r.state.doneTyping == s.doneTyping
    ensures r.state.rightControl == s.rightControl && r.state.isExtended == s.isExtended
  {
    if code == CODE_LEFT_CONTROL then Step(s.(leftControl := 1), Quiet)
    else if code == CODE_LEFT_SHIFT then Step(s.(leftShift := 1), Quiet)
    else if code == CODE_RIGHT_SHIFT then Step(s.(rightShift := 1), Quiet)
    else if code == CODE_ALT then Step(s.(alt := 1), Quiet)
    else if s.capsToggle == 0 then Step(s.(capsToggle := 1, capsActive := Not(s.capsActive)), Quiet)
    else Step(s, Quiet)
  }

  /** Every other make code: F1 to F3 switch terminals under alt, Control+L resets the
      screen, and the rest append their character when there is room. */
  function OtherKey(s: KbState, code: nat): (r: Step)
    requires WellFormed(s) && code < RELEASED_SCANCODE_OFFSET
    requires code < NUM_SCANCODES || s.size >= KBUFFER_SIZE
    ensures WellFormed(r.state)
    ensures r.state == s.(buf := r.state.buf, size := r.state.size)
  {
    if code == CODE_F1 then Step(s, if s.alt != 0 then SwitchTo(0) else Quiet)
    else if code == CODE_F2 then Step(s, if s.alt != 0 then SwitchTo(1) else Quiet)
    else if code == CODE_F3 then Step(s, if s.alt != 0 then SwitchTo(2) else Quiet)
    else if code == CODE_L && (s.leftControl != 0 || s.rightControl != 0) then Step(s, ResetScreen)
    else if s.size < KBUFFER_SIZE then
      var c := KeyChar(s, code);
      Step(Append(s, c), Echo(c))
    else Step(s, Quiet)
  }

  /** A make code. */
  function Pressed(s: KbState, code: nat): (r: Step)
    requires WellFormed(s) && code < RELEASED_SCANCODE_OFFSET
    requires code < NUM_SCANCODES || s.size >= KBUFFER_SIZE
    ensures WellFormed(r.state)
    ensures r.state.rightControl == s.rightControl
    ensures r.state.doneTyping != s.doneTyping ==>
              code == CODE_ENTER && s.size < KBUFFER_SIZE && r.state.doneTyping == 1
  {
    if code in {CODE_BACKSPACE, CODE_TAB, CODE_ENTER} then LineKey(s, code)
    else if code in {CODE_LEFT_CONTROL, CODE_LEFT_SHIFT, CODE_RIGHT_SHIFT, CODE_ALT, CODE_CAPS_LOCK} then
      ModifierKey(s, code)
    else OtherKey(s, code)
  }

  /** One keyboard interrupt delivering `code`. The buffer stays within its 128
      characters, the right-control flag is never changed, and `doneTyping` changes only
      when Enter completes a line. */
  function KeyStep(s: KbState, code: byte): (r: Step)
    requires WellFormed(s) && InTable(s, code)
    ensures WellFormed(r.state)
    ensures r.state.rightControl == s.rightControl
    ensures r.state.doneTyping != s.doneTyping ==>
              code == CODE_ENTER && s.isExtended == 0 && s.size < KBUFFER_SIZE && r.state.doneTyping == 1
  {
    if code == CODE_EXTENDED then Step(s.(isExtended := 1), Quiet)
    else if s.isExtended != 0 then Step(s.(isExtended := 0), Quiet)
    else if code >= RELEASED_SCANCODE_OFFSET then
      var base := code - RELEASED_SCANCODE_OFFSET;
      if base >= NUM_SCANCODES then Step(s, Quiet) else Step(Released(s, base), Quiet)
    else Pressed(s, code)
  }

  // ---------------------------------------------------------------------------------
  // Properties of KeyStep
  // ---------------------------------------------------------------------------------

  /** Every key edits the live line in one of three ways: not at all, by appending the
      character it echoes, or (backspace on a non-empty line) by dropping the last one
      and echoing BS. */
  lemma KeyStepEditsLine(s: KbState, code: byte)
    requires WellFormed(s) && InTable(s, code)
    ensures var r := KeyStep(s, code);
            Live(r.state) == Live(s) ||
            (r.effect.Echo? && Live(r.state) == Live(s) + [r.effect.c]) ||
            (r.effect == Echo(BS) && s.size > 0 && Live(r.state) == Live(s)[..s.size - 1])
  {
    var r := KeyStep(s, code);
    if code != CODE_EXTENDED && s.isExtended == 0 && code < RELEASED_SCANCODE_OFFSET && code == CODE_BACKSPACE && s.size > 0 {
      assert Live(r.state) == Live(s)[..s.size - 1];
    }
  }

  /** A release code (other than the extended prefix, and with no prefix pending) echoes
      nothing, leaves the line alone and clears exactly the flag of its own key: the
      shifts, left control, alt, and the Caps Lock held-down flag. */
  lemma ReleaseClearsOwnFlag(s: KbState, code: byte)
    requires WellFormed(s) && s.isExtended == 0
    requires RELEASED_SCANCODE_OFFSET <= code && code != CODE_EXTENDED
    ensures var r := KeyStep(s, code); var base := code - RELEASED_SCANCODE_OFFSET;
            r.effect == Quiet &&
            r.state.buf == s.buf && r.state.size == s.size && r.state.doneTyping == s.doneTyping &&
            r.state.capsActive == s.capsActive && r.state.isExtended == 0 &&
            r.state.leftShift == (if base == CODE_LEFT_SHIFT then 0 else s.leftShift) &&
            r.state.rightShift == (if base == CODE_RIGHT_SHIFT then 0 else s.rightShift) &&
            r.state.leftControl == (if base == CODE_LEFT_CONTROL then 0 else s.leftControl) &&
            r.state.capsToggle == (if base == CODE_CAPS_LOCK then 0 else s.capsToggle) &&
            r.state.alt == (if base == CODE_ALT then 0 else s.alt)
  {
  }

  /** The extended prefix makes the handler swallow the next code: the pair changes
      nothing and echoes nothing. */
  lemma ExtendedPairIgnored(s: KbState, code: byte)
    requires WellFormed(s) && s.isExtended == 0 && code != CODE_EXTENDED
    ensures KeyStep(s, CODE_EXTENDED).state.isExtended == 1
    ensures KeyStep(KeyStep(s, CODE_EXTENDED).state, code) == Step(s, Quiet)
  {
  }

  /** Caps Lock flips the caps state once per press: auto-repeated make codes while the
      key is held do not flip it again, and after the release the next press does. */
  lemma CapsLockOncePerPress(s: KbState)
    requires WellFormed(s) && s.isExtended == 0 && s.capsToggle == 0
    ensures var held := KeyStep(KeyStep(s, CODE_CAPS_LOCK).state, CODE_CAPS_LOCK).state;
            held.capsActive == Not(s.capsActive) && held.capsToggle == 1 &&
            var again := KeyStep(KeyStep(held, CODE_CAPS_LOCK + RELEASED_SCANCODE_OFFSET).state,
                                 CODE_CAPS_LOCK).state;
            (again.capsActive != 0) == (s.capsActive != 0)
  {
    var once := KeyStep(s, CODE_CAPS_LOCK).state;
    var held := KeyStep(once, CODE_CAPS_LOCK).state;
    var up := KeyStep(held, CODE_CAPS_LOCK + RELEASED_SCANCODE_OFFSET).state;
    assert up.capsToggle == 0 && up.capsActive == held.capsActive;
  }

  /** Which case a printable key produces: a letter comes out upper case when either
      shift is held or caps is active (the two do not cancel); any other key takes its
      shifted character only with a shift held, whatever the caps state. */
  lemma KeyCharCase(s: KbState, code: nat)
    requires code < NUM_SCANCODES
    ensures IsLower(ScancodeToKey(code).0) ==>
              KeyChar(s, code) as int == ScancodeToKey(code).0 as int -
                (if s.leftShift != 0 || s.rightShift != 0 || s.capsActive != 0 then 32 else 0)
    ensures !IsLower(ScancodeToKey(code).0) ==>
              KeyChar(s, code) == if s.leftShift != 0 || s.rightShift != 0
                                  then ScancodeToKey(code).1 else ScancodeToKey(code).0
  {
    if IsLower(ScancodeToKey(code).0) {
      LetterRows(code);
    }
  }

  /** With caps active, the A key (0x1E) gives 'A' with or without shift, while the 1
      key (0x02) still gives '1' and, shifted, '!'. */
  lemma CapsExamples(s: KbState)
    requires s.capsActive != 0
    ensures KeyChar(s, 0x1E) == 'A'
    ensures s.leftShift == 0 && s.rightShift == 0 ==> KeyChar(s, 0x02) == '1'
    ensures s.leftShift != 0 ==> KeyChar(s, 0x02) == '!'
  {
  }

  /** A printable key with room in the buffer appends `KeyChar` and echoes it; with a full
      buffer it does nothing at all. */
  lemma PrintableKey(s: KbState, code: byte)
    requires WellFormed(s) && s.isExtended == 0 && code < NUM_SCANCODES
    requires code !in {CODE_BACKSPACE, CODE_TAB, CODE_ENTER, CODE_LEFT_CONTROL, CODE_LEFT_SHIFT,
                       CODE_RIGHT_SHIFT, CODE_ALT, CODE_CAPS_LOCK, CODE_F1, CODE_F2, CODE_F3}
    requires !(code == CODE_L && (s.leftControl != 0 || s.rightControl != 0))
    ensures s.size < KBUFFER_SIZE ==>
              Live(KeyStep(s, code).state) == Live(s) + [KeyChar(s, code)] &&
              KeyStep(s, code).effect == Echo(KeyChar(s, code))
    ensures s.size == KBUFFER_SIZE ==> KeyStep(s, code) == Step(s, Quiet)
  {
  }

  /** Control+L (either control flag) resets the screen and leaves the state alone;
      Alt+F1, F2 and F3 switch to terminals 0, 1 and 2. */
  lemma CommandKeys(s: KbState, code: byte)
    requires WellFormed(s) && s.isExtended == 0
    ensures code == CODE_L && (s.leftControl != 0 || s.rightControl != 0) ==> KeyStep(s, code) == Step(s, ResetScreen)
    ensures CODE_F1 <= code <= CODE_F3 && s.alt != 0 ==> KeyStep(s, code) == Step(s, SwitchTo(code - CODE_F1))
    ensures CODE_F1 <= code <= CODE_F3 && s.alt == 0 ==> KeyStep(s, code) == Step(s, Quiet)
  {
  }

  /** Backspace drops the last live character when there is one; Enter with room appends a
      line-feed and marks the line done. */
  lemma LineKeys(s: KbState)
    requires WellFormed(s) && s.isExtended == 0
    ensures s.size > 0 ==> Live(KeyStep(s, CODE_BACKSPACE).state) == Live(s)[..s.size - 1]
    ensures s.size == 0 ==> KeyStep(s, CODE_BACKSPACE) == Step(s, Quiet)
    ensures s.size < KBUFFER_SIZE ==>
              Live(KeyStep(s, CODE_ENTER).state) == Live(s) + ['\n'] && KeyStep(s, CODE_ENTER).state.doneTyping == 1
    ensures s.size == KBUFFER_SIZE ==> KeyStep(s, CODE_ENTER) == Step(s, Quiet)
  {
  }

  // ---------------------------------------------------------------------------------
  // The driver
  // ---------------------------------------------------------------------------------

  class Keyboard {
    var isExtended: byte
    var capsToggle: byte
    var capsActive: byte
    var leftControl: byte
    var rightControl: byte
    var leftShift: byte
    var rightShift: byte
    var alt: byte
    /** The current terminal, whose line buffer the keys fill. */
    var term: Terminal

    ghost predicate Valid()
      reads this, term
    {
      term.Valid()
    }

    ghost function Abs(): (s: KbState)
      reads this, term, term.kbuffer
      requires Valid()
      ensures WellFormed(s)
    {
      KbState(isExtended, capsToggle, capsActive, leftControl, rightControl, leftShift,
              rightShift, alt, term.doneTyping, term.kbuffer[..], term.kbufferSize)
    }

    constructor (t: Terminal)
      requires t.Valid()
      ensures Valid() && term == t
    {
      term := t;
    }

    /** `keyboard_init`: every modifier flag, the extended flag and `doneTyping` cleared;
        the line buffer, the screen position and the cursor are untouched. */
    method Init()
      requires Valid()
      modifies this, term
      ensures Valid() && term == old(term)
      ensures Abs() == old(Abs()).(isExtended := 0, capsToggle := 0, capsActive := 0,
                                   leftControl := 0, rightControl := 0, leftShift := 0,
                                   rightShift := 0, alt := 0, doneTyping := 0)
      ensures term.kbuffer == old(term.kbuffer)
      ensures term.screenX == old(term.screenX) && term.screenY == old(term.screenY)
      ensures term.cursorHigh == old(term.cursorHigh) && term.cursorLow == old(term.cursorLow)
    {
      isExtended := 0;
      capsToggle := 0;
      capsActive := 0;
      leftControl := 0;
      rightControl := 0;
      leftShift := 0;
      rightShift := 0;
      alt := 0;
      term.doneTyping := 0;
    }

    /** The release branch of `keyboard_handler` for a base code in the table: clears
        the flag of that key. */
    method HandleRelease(base: nat)
      requires Valid()
      modifies this
      ensures Valid() && term == old(term)
      ensures Abs() == Released(old(Abs()), base)
    {
      if base == CODE_LEFT_SHIFT {
        leftShift := 0;
      } else if base == CODE_RIGHT_SHIFT {
        rightShift := 0;
      } else if base == CODE_LEFT_CONTROL {
        leftControl := 0;
      } else if base == CODE_CAPS_LOCK {
        capsToggle := 0;
      } else if base == CODE_ALT {
        alt := 0;
      }
    }

    /** Backspace, Tab and Enter in `keyboard_handler`: edit the line buffer. */
    method HandleLineKey(code: nat) returns (e: Effect)
      requires Valid() && code in {CODE_BACKSPACE, CODE_TAB, CODE_ENTER}
      modifies term, term.kbuffer
      ensures Valid() && term.kbuffer == old(term.kbuffer)
      ensures Abs() == LineKey(old(Abs()), code).state
      ensures e == LineKey(old(Abs()), code).effect
      ensures term.screenX == old(term.screenX) && term.screenY == old(term.screenY) &&
              term.cursorHigh == old(term.cursorHigh) && term.cursorLow == old(term.cursorLow)
    {
      e := Quiet;
      if code == CODE_BACKSPACE {
        if term.kbufferSize > 0 {
          e := Echo(BS);
          term.kbufferSize := term.kbufferSize - 1;
        }
      } else if code == CODE_TAB {
        if term.kbufferSize < KBUFFER_SIZE {
          term.kbuffer[term.kbufferSize] := '\t';
          term.kbufferSize := term.kbufferSize + 1;
          e := Echo('\t');
        }
      } else {
        if term.kbufferSize < KBUFFER_SIZE {
          term.kbuffer[term.kbufferSize] := '\n';
          term.kbufferSize := term.kbufferSize + 1;
          e := Echo('\n');
          term.doneTyping := 1;
        }
      }
    }

    /** Left control, the shifts, alt and Caps Lock in `keyboard_handler`: set flags. */
    method HandleModifier(code: nat)
      requires Valid() && code in {CODE_LEFT_CONTROL, CODE_LEFT_SHIFT, CODE_RIGHT_SHIFT, CODE_ALT, CODE_CAPS_LOCK}
      modifies this
      ensures Valid() && term == old(term)
      ensures Abs() == ModifierKey(old(Abs()), code).state
    {
      if code == CODE_LEFT_CONTROL {
        leftControl := 1;
      } else if code == CODE_LEFT_SHIFT {
        leftShift := 1;
      } else if code == CODE_RIGHT_SHIFT {
        rightShift := 1;
      } else if code == CODE_ALT {
        alt := 1;
      } else {
        if capsToggle == 0 {
          capsToggle := 1;
          capsActive := Not(capsActive);
        }
      }
    }

    /** The remaining make codes in `keyboard_handler`: F1 to F3 under alt, Control+L, and
        the printable keys. */
    method HandleOther(code: nat) returns (e: Effect)
      requires Valid() && code < RELEASED_SCANCODE_OFFSET
      requires code < NUM_SCANCODES || term.kbufferSize >= KBUFFER_SIZE
      modifies term, term.kbuffer
      ensures Valid() && term.kbuffer == old(term.kbuffer)
      ensures Abs() == OtherKey(old(Abs()), code).state
      ensures e == OtherKey(old(Abs()), code).effect
      ensures e == ResetScreen ==> term.screenX == 0 && term.screenY == 0 &&
                                   term.cursorHigh == 0 && term.cursorLow == 0
      ensures e != ResetScreen ==> term.screenX == old(term.screenX) && term.screenY == old(term.screenY) &&
                                   term.cursorHigh == old(term.cursorHigh) && term.cursorLow == old(term.cursorLow)
    {
      e := Quiet;
      if code == CODE_F1 {
        if alt != 0 {
          e := SwitchTo(0);
        }
      } else if code == CODE_F2 {
        if alt != 0 {
          e := SwitchTo(1);
        }
      } else if code == CODE_F3 {
        if alt != 0 {
          e := SwitchTo(2);
        }
      } else if code == CODE_L && (leftControl != 0 || rightControl != 0) {
        term.Reset();
        e := ResetScreen;
      } else if term.kbufferSize < KBUFFER_SIZE {
        var c;
        if leftShift != 0 || rightShift != 0 {
          c := ScancodeToKey(code).1;
        } else if capsActive != 0 && IsLower(ScancodeToKey(code).0) {
          c := ScancodeToKey(code).1;
        } else {
          c := ScancodeToKey(code).0;
        }
        term.kbuffer[term.kbufferSize] := c;
        term.kbufferSize := term.kbufferSize + 1;
        e := Echo(c);
      }
    }

    /** `keyboard_handler` for the scan code `code`: performs `KeyStep`, and on Control+L
        also resets the terminal's screen position and cursor. */
    method Handle(code: byte) returns (e: Effect)
      requires Valid() && InTable(Abs(), code)
      modifies this, term, term.kbuffer
      ensures Valid() && term == old(term) && term.kbuffer == old(term.kbuffer)
      ensures Abs() == KeyStep(old(Abs()), code).state
      ensures e == KeyStep(old(Abs()), code).effect
      ensures e == ResetScreen ==> term.screenX == 0 && term.screenY == 0 &&
                                   term.cursorHigh == 0 && term.cursorLow == 0
      ensures e != ResetScreen ==> term.screenX == old(term.screenX) && term.screenY == old(term.screenY) &&
                                   term.cursorHigh == old(term.cursorHigh) && term.cursorLow == old(term.cursorLow)
    {
      if code == CODE_EXTENDED {
        isExtended := 1;
        return Quiet;
      }
      if isExtended != 0 {
        isExtended := 0;
        return Quiet;
      }
      if code >= RELEASED_SCANCODE_OFFSET {
        var base := code - RELEASED_SCANCODE_OFFSET;
        if base < NUM_SCANCODES {
          HandleRelease(base);
        }
        return Quiet;
      }
      if code in {CODE_BACKSPACE, CODE_TAB, CODE_ENTER} {
        e := HandleLineKey(code);
      } else if code in {CODE_LEFT_CONTROL, CODE_LEFT_SHIFT, CODE_RIGHT_SHIFT, CODE_ALT, CODE_CAPS_LOCK} {
        HandleModifier(code);
        e := Quiet;
      } else {
        e := HandleOther(code);
      }
    }
  }
}
