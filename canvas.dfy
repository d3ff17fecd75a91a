/** The image the tile plugin draws into, at the level of the two drawing
    primitives it uses: filling an axis-aligned rectangle (`draw.rectangle`,
    and `draw.line` one pixel wide along a row or a column) and pasting a
    picture at an offset (`paste`). Each primitive paints the pixels it
    covers and leaves every other pixel alone; `Replay` gives the colour of
    one pixel after a whole sequence of them. */
module Canvases {

  /** A pixel: a mode "1" value or an RGB triple. */
  datatype Colour = Bit(level: int) | Rgb(red: int, green: int, blue: int)

  /** An image's mode: "1", "RGB", or any other the imaging library knows. */
  datatype Mode = Bilevel | RgbMode | OtherMode(name: string)

  /** A picture handed over by a hosted plugin: its mode, its size, and its
      pixel at each (column, row). */
  datatype Picture = Picture(mode: Mode, width: int, height: int, at: (int, int) -> Colour)

  /** One drawing operation. `Fill` takes its corners inclusively, as the
      imaging library's rectangles and lines do; `Paste` puts the picture's
      top left corner at (`x`, `y`). */
  datatype Op =
    | Fill(left: int, top: int, right: int, bottom: int, colour: Colour)
    | Paste(picture: Picture, x: int, y: int)

  /** The half-open box (x0, y0, x1, y1) of the positions `op` paints. */
  function Box(op: Op): (box: (int, int, int, int)) {
    match op
    case Fill(left, top, right, bottom, _) => (left, top, right + 1, bottom + 1)
    case Paste(p, x, y) => (x, y, x + p.width, y + p.height)
  }

  predicate Covers(op: Op, i: int, j: int) {
    var box := Box(op);
    box.0 <= i < box.2 && box.1 <= j < box.3
  }

  /** The colour `op` paints at (`i`, `j`) when it covers that position. */
  function Paint(op: Op, i: int, j: int): Colour {
    match op
    case Fill(_, _, _, _, c) => c
    case Paste(p, x, y) => p.at(i - x, j - y)
  }

  /** The pixel at (`i`, `j`) after `op`, given the pixel before. */
  function Shade(op: Op, i: int, j: int, below: Colour): (c: Colour)
    ensures !Covers(op, i, j) ==> c == below
  {
    if Covers(op, i, j) then Paint(op, i, j) else below
  }

  /** The pixel at (`i`, `j`) after the operations `ops`, in order, on a
      pixel that was `below`. */
  function Replay(ops: seq<Op>, below: Colour, i: int, j: int): Colour {
    if ops == [] then below
    else Shade(ops[|ops| - 1], i, j, Replay(ops[..|ops| - 1], below, i, j))
  }

  /** Replaying one more operation shades the result of the others. */
  lemma ReplaySnoc(ops: seq<Op>, op: Op)
    ensures forall below, i, j :: Replay(ops + [op], below, i, j) == Shade(op, i, j, Replay(ops, below, i, j))
  {
    assert (ops + [op])[..|ops|] == ops;
  }

  /** Replaying two runs of operations is replaying the second on the result
      of the first. */
  lemma {:induction false} ReplayAppend(a: seq<Op>, b: seq<Op>, below: Colour, i: int, j: int)
    ensures Replay(a + b, below, i, j) == Replay(b, Replay(a, below, i, j), i, j)
    decreases |b|
  {
    if b == [] {
      assert a + b == a;
    } else {
      var init := b[..|b| - 1];
      assert a + b == (a + init) + [b[|b| - 1]];
      ReplaySnoc(a + init, b[|b| - 1]);
      ReplaySnoc(init, b[|b| - 1]);
      ReplayAppend(a, init, below, i, j);
    }
  }

  /** `ReplayAppend` for every pixel. */
  lemma ReplayAppendAll(a: seq<Op>, b: seq<Op>)
    ensures forall below, i, j :: Replay(a + b, below, i, j) == Replay(b, Replay(a, below, i, j), i, j)
  {
    forall below, i, j {
      ReplayAppend(a, b, below, i, j);
    }
  }

  /** A pixel no operation covers keeps its colour. */
  lemma {:induction false} ReplayUntouched(ops: seq<Op>, below: Colour, i: int, j: int)
    requires forall k :: 0 <= k < |ops| ==> !Covers(ops[k], i, j)
    ensures Replay(ops, below, i, j) == below
  {
    if ops != [] {
      ReplayUntouched(ops[..|ops| - 1], below, i, j);
    }
  }

  /** A pixel takes the colour of the last operation that covers it: later
      operations overwrite earlier ones. */
  lemma {:induction false} ReplayLastCover(ops: seq<Op>, below: Colour, i: int, j: int, k: nat)
    requires k < |ops| && Covers(ops[k], i, j)
    requires forall m :: k < m < |ops| ==> !Covers(ops[m], i, j)
    ensures Replay(ops, below, i, j) == Paint(ops[k], i, j)
  {
    if k < |ops| - 1 {
      ReplayLastCover(ops[..|ops| - 1], below, i, j, k);
    }
  }

  /** When every operation fills with the same colour, a pixel any of them
      covers ends up that colour. */
  lemma {:induction false} ReplayOneColour(ops: seq<Op>, below: Colour, c: Colour, i: int, j: int, k: nat)
    requires forall m :: 0 <= m < |ops| ==> ops[m].Fill? && ops[m].colour == c
    requires k < |ops| && Covers(ops[k], i, j)
    ensures Replay(ops, below, i, j) == c
  {
    if !Covers(ops[|ops| - 1], i, j) {
      ReplayOneColour(ops[..|ops| - 1], below, c, i, j, k);
    }
  }

  /** The image being drawn: its mode, its size and its pixels, indexed by
      (column, row). */
  class Canvas {
    const mode: Mode
    const width: nat
    const height: nat
    const pixels: array2<Colour>

    predicate Valid() {
      pixels.Length0 == width && pixels.Length1 == height
    }

    /** `Image.new(mode, (width, height), background)`. */
    constructor (mode: Mode, width: nat, height: nat, background: Colour)
      ensures Valid() && fresh(pixels)
      ensures this.mode == mode && this.width == width && this.height == height
      ensures forall i, j :: 0 <= i < width && 0 <= j < height ==> pixels[i, j] == background
    {
      this.mode := mode;
      this.width := width;
      this.height := height;
      pixels := new Colour[width, height]((i, j) => background);
    }

    /** Performs `op`: every pixel it covers takes its colour, clipped to the
        canvas, and every other pixel is left alone. */
    method Draw(op: Op)
      requires Valid()
      modifies pixels
      ensures forall i, j :: 0 <= i < width && 0 <= j < height ==>
        pixels[i, j] == Shade(op, i, j, old(pixels[i, j]))
    {
      var box := Box(op);
      var left := if box.0 < 0 then 0 else box.0;
      var right := if box.2 > width then width else box.2;
      var top := if box.1 < 0 then 0 else box.1;
      var bottom := if box.3 > height then height else box.3;
      var i := left;
      while i < right
        invariant forall p, q :: 0 <= p < width && 0 <= q < height ==>
          pixels[p, q] == if left <= p < i && Covers(op, p, q) then Paint(op, p, q) else old(pixels[p, q])
      {
        var j := top;
        while j < bottom
          invariant left <= i < right
          invariant forall p, q :: 0 <= p < width && 0 <= q < height ==>
            pixels[p, q] ==
              if (left <= p < i || (p == i && top <= q < j)) && Covers(op, p, q)
              then Paint(op, p, q) else old(pixels[p, q])
        {
          pixels[i, j] := Paint(op, i, j);
          j := j + 1;
        }
        i := i + 1;
      }
    }
  }
}
