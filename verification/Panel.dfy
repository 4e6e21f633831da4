/** The display at the other end of the OLED driver's bus, in horizontal addressing mode: memory of
    128 columns in 8 pages, written byte by byte into a window that the commands set. */
module Panel {

  // Next names the place the next byte goes to.
  datatype Panel = Panel(ram: map<(int, int), bv8>, c0: int, c1: int, p0: int, p1: int, column: int, page: int)

  // Commands 0x21 and 0x22 with their two parameters; others do not move the window.
  function Told(p: Panel, command: seq<int>): Panel {
    if |command| == 3 && command[0] == 0x21 then p.(c0 := command[1], c1 := command[2], column := command[1])
    else if |command| == 3 && command[0] == 0x22 then p.(p0 := command[1], p1 := command[2], page := command[1])
    else p
  }

  // One byte of data: after the last column of the window the next page follows, after the last
  // page the first one.
  function Byte(p: Panel, b: bv8): Panel {
    var q := p.(ram := p.ram[(p.column, p.page) := b]);
    if p.column != p.c1 then q.(column := p.column + 1)
    else q.(column := p.c0, page := if p.page == p.p1 then p.p0 else p.page + 1)
  }

  function Written(p: Panel, data: seq<bv8>): Panel {
    if data == [] then p else Byte(Written(p, data[..|data| - 1]), data[|data| - 1])
  }

  // The bit of a row within its page; bit 0 is the top row.
  function Mask(k: nat): bv8
    requires k < 8
  {
    match k
    case 0 => 1 case 1 => 2 case 2 => 4 case 3 => 8
    case 4 => 16 case 5 => 32 case 6 => 64 case _ => 128
  }

  predicate Shows(p: Panel, x: int, y: int) {
    (x, y / 8) in p.ram && p.ram[(x, y / 8)] & Mask(y % 8) != 0
  }

  predicate WholeWindow(p: Panel) {
    p.c0 == 0 && p.c1 == 127 && p.p0 == 0 && p.p1 == 7
  }

  // n bytes into the whole window, all of them are in their places and the next place is due.
  ghost predicate Holds(p: Panel, data: seq<bv8>) {
    && WholeWindow(p) && 0 <= p.column < 128 && 0 <= p.page < 8
    && (|data| < 1024 ==> |data| == p.page * 128 + p.column)
    && forall x, g :: 0 <= x < 128 && 0 <= g && g * 128 + x < |data| ==> (x, g) in p.ram && p.ram[(x, g)] == data[g * 128 + x]
  }

  lemma {:induction false} WrittenHolds(p: Panel, data: seq<bv8>)
    requires WholeWindow(p) && p.column == 0 && p.page == 0 && |data| <= 1024
    ensures Holds(Written(p, data), data)
  {
    if data != [] {
      WrittenHolds(p, data[..|data| - 1]);
      ByteHolds(Written(p, data[..|data| - 1]), data[..|data| - 1], data[|data| - 1]);
      assert data == data[..|data| - 1] + [data[|data| - 1]];
    }
  }

  lemma ByteHolds(p: Panel, data: seq<bv8>, b: bv8)
    requires Holds(p, data) && |data| < 1024
    ensures Holds(Byte(p, b), data + [b])
  {
    var more := data + [b];
    forall x, g | 0 <= x < 128 && 0 <= g && g * 128 + x < |more|
      ensures (x, g) in Byte(p, b).ram && Byte(p, b).ram[(x, g)] == more[g * 128 + x]
    {
      if g * 128 + x < |data| {
        assert (x, g) != (p.column, p.page);
      }
    }
  }
}
