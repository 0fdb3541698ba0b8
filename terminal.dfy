/** The terminal driver: the current terminal's line buffer that the keyboard fills, the
    screen position, the VGA cursor registers, and the read and write calls. */
module Terminal {
  import opened Common

  const SCREEN_WIDTH: nat := 80
  const SCREEN_HEIGHT: nat := 50
  /** Capacity of the keyboard line buffer. */
  const KBUFFER_SIZE: nat := 128

  /** `cursor_set(x, y)`: the byte pair written to the VGA cursor-location registers (high
      register 0x0E, low register 0x0F). The position `y * 80 + x` is computed in 32-bit
      unsigned arithmetic and `outb` keeps the low eight bits of each value. */
  function CursorRegisters(x: nat, y: nat): (r: (byte, byte))
    requires x < TWO_32 && y < TWO_32
    ensures r.0 * 256 + r.1 == (y * SCREEN_WIDTH + x) % TWO_32 % 0x1_0000
  {
    var pos := (y * SCREEN_WIDTH + x) % TWO_32;
    LowBytes(pos);
    ((pos / 256) % 256, pos % 256)
  }

  /** The two low bytes of `p` recombine to `p` modulo 2^16. */
  lemma LowBytes(p: nat)
    ensures ((p / 256) % 256) * 256 + p % 256 == p % 0x1_0000
  {
    var q := p / 0x1_0000;
    var m := p % 0x1_0000;
    assert p == q * 0x1_0000 + m;
    assert p / 256 == q * 256 + m / 256;
    assert (p / 256) % 256 == m / 256;
    assert p % 256 == m % 256;
  }

  /** Whenever the position fits in 16 bits, the two register bytes recombine to it; every
      cell of the 80 by 50 screen does. */
  lemma CursorRoundTrip(x: nat, y: nat)
    requires x < SCREEN_WIDTH && y < SCREEN_HEIGHT
    ensures CursorRegisters(x, y).0 * 256 + CursorRegisters(x, y).1 == y * SCREEN_WIDTH + x
  {
  }

  /** The first line-feed in `s`, or `|s|`. */
  function FirstNewline(s: seq<char>): (n: nat)
    ensures n <= |s|
    ensures forall k :: 0 <= k < n ==> s[k] != '\n'
    ensures n < |s| ==> s[n] == '\n'
  {
    if s == [] || s[0] == '\n' then 0 else 1 + FirstNewline(s[1..])
  }

  /** How many bytes `term_read` copies out of the live buffer `line`: up to and including
      the first line-feed, or all of it. */
  function Copied(line: seq<char>): (n: nat)
    ensures n <= |line|
    ensures n < |line| ==> 0 < n && line[n - 1] == '\n' && forall k :: 0 <= k < n - 1 ==> line[k] != '\n'
    ensures n == |line| ==> forall k :: 0 <= k < n - 1 ==> line[k] != '\n'
  {
    var f := FirstNewline(line);
    if f < |line| then f + 1 else |line|
  }

  /** What `term_read` returns for the live buffer `line`: one past the first line-feed,
      and `|line| + 1` when there is none (one more than it copied). */
  function ReadResult(line: seq<char>): (r: nat)
    ensures r >= 1
    ensures r == Copied(line) + 1 <==> !('\n' in line)
    ensures '\n' in line ==> r == Copied(line) && line[r - 1] == '\n'
  {
    var f := FirstNewline(line);
    if f < |line| then f + 1 else |line| + 1
  }

  /** A buffer without a line-feed is copied whole, and the result overstates the copy by
      one: "ab" yields 3. */
  lemma ReadWithoutNewline()
    ensures ReadResult(['a', 'b']) == 3 && Copied(['a', 'b']) == 2
  {
    assert FirstNewline(['b']) == 1 by {
      assert ['b'][1..] == [];
    }
    assert ['a', 'b'][1..] == ['b'];
  }

  class Terminal {
    /** The line buffer; its first `kbufferSize` characters are live. */
    var kbuffer: array<char>
    var kbufferSize: nat
    /** Set by the keyboard when Enter completes a line. */
    var doneTyping: byte
    var screenX: nat
    var screenY: nat
    /** The last values written to the cursor-location registers. */
    var cursorHigh: byte
    var cursorLow: byte

    ghost predicate Valid()
      reads this
    {
      kbuffer.Length == KBUFFER_SIZE && kbufferSize <= KBUFFER_SIZE
    }

    /** The live part of the line buffer. */
    ghost function Line(): seq<char>
      reads this, kbuffer
      requires Valid()
    {
      kbuffer[..kbufferSize]
    }

    constructor ()
      ensures Valid() && fresh(kbuffer)
      ensures kbufferSize == 0 && doneTyping == 0
    {
      kbuffer := new char[KBUFFER_SIZE](_ => '\0');
      kbufferSize := 0;
      doneTyping := 0;
      screenX, screenY := 0, 0;
      cursorHigh, cursorLow := 0, 0;
    }

    /** `cursor_set`. */
    method CursorSet(x: nat, y: nat)
      requires x < TWO_32 && y < TWO_32
      modifies this
      ensures (cursorHigh, cursorLow) == CursorRegisters(x, y)
      ensures kbuffer == old(kbuffer) && kbufferSize == old(kbufferSize) && doneTyping == old(doneTyping)
      ensures screenX == old(screenX) && screenY == old(screenY)
    {
      var pos := (y * SCREEN_WIDTH + x) % TWO_32;
      cursorHigh := (pos / 256) % 256;
      cursorLow := pos % 256;
    }

    /** `term_reset`: the screen position and the cursor go to the top-left corner; the
        line buffer is untouched. */
    method Reset()
      modifies this
      ensures screenX == 0 && screenY == 0 && cursorHigh == 0 && cursorLow == 0
      ensures kbuffer == old(kbuffer) && kbufferSize == old(kbufferSize) && doneTyping == old(doneTyping)
    {
      screenX, screenY := 0, 0;
      CursorSet(0, 0);
    }

    /** `term_open`: reset and return 0. */
    method Open(filename: Option<seq<byte>>) returns (r: int)
      modifies this
      ensures r == 0
      ensures screenX == 0 && screenY == 0 && cursorHigh == 0 && cursorLow == 0
      ensures kbuffer == old(kbuffer) && kbufferSize == old(kbufferSize) && doneTyping == old(doneTyping)
    {
      Reset();
      return 0;
    }

    /** `term_close`: reset and return 0. */
    method Close(fd: int) returns (r: int)
      modifies this
      ensures r == 0
      ensures screenX == 0 && screenY == 0 && cursorHigh == 0 && cursorLow == 0
      ensures kbuffer == old(kbuffer) && kbufferSize == old(kbufferSize) && doneTyping == old(doneTyping)
    {
      Reset();
      return 0;
    }

    /** `clear_kbuffer`: the line buffer becomes empty. */
    method ClearKbuffer()
      modifies this
      ensures kbufferSize == 0
      ensures kbuffer == old(kbuffer) && doneTyping == old(doneTyping)
      ensures screenX == old(screenX) && screenY == old(screenY)
      ensures cursorHigh == old(cursorHigh) && cursorLow == old(cursorLow)
    {
      kbufferSize := 0;
    }

    /** `term_read`, from the moment a line is complete: -1 for a NULL buffer; otherwise
        the live buffer is copied into `buf` up to and including its first line-feed, the
        buffer is emptied, `doneTyping` cleared, and the result is `ReadResult` of the
        line. `nbytes` is not consulted. */
    method Read(fd: int, buf: array?<char>, nbytes: int) returns (r: int)
      requires Valid()
      requires buf != kbuffer
      requires buf != null ==> Copied(Line()) <= buf.Length
      modifies this, buf
      ensures buf == null ==> r == -1 && kbufferSize == old(kbufferSize) && doneTyping == old(doneTyping)
      ensures buf != null ==> r == ReadResult(old(Line()))
      ensures buf != null ==> buf[..Copied(old(Line()))] == old(Line())[..Copied(old(Line()))]
      ensures buf != null ==> buf[Copied(old(Line()))..] == old(buf[..])[Copied(old(Line()))..]
      ensures buf != null ==> kbufferSize == 0 && doneTyping == 0
      ensures Valid() && kbuffer == old(kbuffer) && kbuffer[..] == old(kbuffer[..])
      ensures screenX == old(screenX) && screenY == old(screenY)
      ensures cursorHigh == old(cursorHigh) && cursorLow == old(cursorLow)
    {
      if buf == null {
        return -1;
      }
      ghost var line := Line();
      ghost var n := Copied(line);
      var size := kbufferSize;
      var kb := kbuffer;
      var i := 0;
      while i < size
        modifies buf
        invariant 0 <= i <= n
        invariant forall k :: 0 <= k < i ==> line[k] != '\n'
        invariant forall k :: 0 <= k < i ==> buf[k] == line[k]
        invariant forall k :: i <= k < buf.Length ==> buf[k] == old(buf[k])
      {
        buf[i] := kb[i];
        if kb[i] == '\n' {
          break;
        }
        i := i + 1;
      }
      assert buf[..n] == line[..n] && buf[n..] == old(buf[..])[n..] && i + 1 == ReadResult(line) by {
        if i < size {
          assert line[i] == '\n' && n == i + 1;
        } else {
          assert n == size;
        }
      }
      ClearKbuffer();
      doneTyping := 0;
      return i + 1;
    }

    /** `term_write`: -1 for a NULL buffer; otherwise the first `nbytes` characters of
        `buf` are emitted in order (`out`) and `nbytes` is returned. */
    method Write(fd: int, buf: array?<char>, nbytes: int) returns (r: int, out: seq<char>)
      requires buf != null ==> nbytes <= buf.Length
      ensures buf == null ==> r == -1 && out == []
      ensures buf != null ==> r == nbytes
      ensures buf != null ==> out == if nbytes <= 0 then [] else buf[..nbytes]
    {
      if buf == null {
        return -1, [];
      }
      out := [];
      var i := 0;
      while i < nbytes
        invariant 0 <= i <= buf.Length && (nbytes > 0 ==> i <= nbytes) && (nbytes <= 0 ==> i == 0)
        invariant out == buf[..i]
      {
        out := out + [buf[i]];
        i := i + 1;
      }
      return nbytes, out;
    }
  }
}
