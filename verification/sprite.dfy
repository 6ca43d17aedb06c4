/** The sprite drawing of `Dxyn`: an n-row, 8-column sprite read from memory at `I` is
    XORed onto the 64x32 screen at (Vx, Vy), wrapping around both edges, and a collision is
    reported when a lit pixel is switched off.

    `DrawLine` and `DrawRows` follow the source's two nested loops one pixel at a time;
    `DrawRowsPixels` and `DrawRowsCollision` prove that they compute the closed form stated by `Toggles` and
    `Collides`, and `Draw` exposes that closed form. */
module Sprite {
  import opened Types
  import opened Machine

  /** `pixel & (0x80 >> col) != 0`: bit `col` of a sprite row, most significant bit first. */
  predicate SpriteBit(bits: Byte, col: nat)
    requires col < 8
  {
    (bits as bv8) & (0x80 >> col) != 0
  }

  /** The sprite column that lands on screen column `x` when the sprite starts at `vx`. */
  function SpriteColumn(vx: nat, x: nat): nat { (x - vx) % WIDTH }

  /** The sprite row that lands on screen row `y` when the sprite starts at `vy`. */
  function SpriteRow(vy: nat, y: nat): nat { (y - vy) % HEIGHT }

  /** The screen column that sprite column `c` lands on when the sprite starts at `vx`. */
  function ScreenColumn(vx: nat, c: nat): nat { (vx + c) % WIDTH }

  /** The screen row that sprite row `r` lands on when the sprite starts at `vy`. */
  function ScreenRow(vy: nat, r: nat): nat { (vy + r) % HEIGHT }

  /** Screen column `ScreenColumn(vx, c)` and sprite column `SpriteColumn(vx, x)` are inverse
      positions; likewise for rows. */
  lemma ColumnOf(vx: nat, c: nat)
    requires c < WIDTH
    ensures SpriteColumn(vx, ScreenColumn(vx, c)) == c
  {
  }

  lemma PositionOfColumn(vx: nat, x: nat)
    requires x < WIDTH
    ensures ScreenColumn(vx, SpriteColumn(vx, x)) == x
  {
  }

  lemma RowPositionOf(vy: nat, y: nat)
    requires y < HEIGHT
    ensures ScreenRow(vy, SpriteRow(vy, y)) == y
  {
  }

  lemma RowOf(vy: nat, r: nat)
    requires r < HEIGHT
    ensures SpriteRow(vy, ScreenRow(vy, r)) == r
  {
  }

  /** Sprite row `bits`, placed at column `vx`, toggles screen column `x` through one of
      its columns `col..7`. */
  predicate LineHit(bits: Byte, vx: nat, col: nat, x: nat) {
    var c := SpriteColumn(vx, x);
    col <= c < 8 && SpriteBit(bits, c)
  }

  /** The inner loop of `Dxyn` over columns `col..7` of one sprite row, on the screen row
      it lands on; `hit` records whether a lit pixel was switched off. */
  function DrawLine(line: seq<bool>, bits: Byte, vx: nat, col: nat, hit: bool): (r: (seq<bool>, bool))
    requires |line| == WIDTH && col <= 8
    decreases 8 - col
    ensures |r.0| == WIDTH
  {
    if col == 8 then (line, hit)
    else if SpriteBit(bits, col) then
      var x := ScreenColumn(vx, col);
      DrawLine(line[x := !line[x]], bits, vx, col + 1, hit || line[x])
    else
      DrawLine(line, bits, vx, col + 1, hit)
  }

  /** The column loop flips exactly the pixels its set bits land on, and records a hit
      exactly when one of them was lit. */
  lemma {:induction false} DrawLineSpec(line: seq<bool>, bits: Byte, vx: nat, col: nat, hit: bool)
    requires |line| == WIDTH && col <= 8
    decreases 8 - col
    ensures var r := DrawLine(line, bits, vx, col, hit);
      && (forall x :: 0 <= x < WIDTH ==> r.0[x] == (line[x] != LineHit(bits, vx, col, x)))
      && (r.1 <==> hit || exists c :: col <= c < 8 && SpriteBit(bits, c) && line[ScreenColumn(vx, c)])
  {
    if col < 8 {
      var x0 := ScreenColumn(vx, col);
      ColumnOf(vx, col);
      var line1 := if SpriteBit(bits, col) then line[x0 := !line[x0]] else line;
      var hit1 := if SpriteBit(bits, col) then hit || line[x0] else hit;
      DrawLineSpec(line1, bits, vx, col + 1, hit1);
      var r := DrawLine(line, bits, vx, col, hit);
      assert r == DrawLine(line1, bits, vx, col + 1, hit1);
      forall x | 0 <= x < WIDTH
        ensures r.0[x] == (line[x] != LineHit(bits, vx, col, x))
      {
        PositionOfColumn(vx, x);
        if x != x0 {
          assert SpriteColumn(vx, x) != col;
        }
      }
      forall c | col + 1 <= c < 8
        ensures line1[ScreenColumn(vx, c)] == line[ScreenColumn(vx, c)]
      {
        ColumnOf(vx, c);
      }
      if r.1 && !hit && !hit1 {
        var c :| col + 1 <= c < 8 && SpriteBit(bits, c) && line1[ScreenColumn(vx, c)];
        assert line[ScreenColumn(vx, c)];
      }
      if exists c :: col <= c < 8 && SpriteBit(bits, c) && line[ScreenColumn(vx, c)] {
        var c :| col <= c < 8 && SpriteBit(bits, c) && line[ScreenColumn(vx, c)];
        if c != col {
          assert line1[ScreenColumn(vx, c)];
        }
      }
    }
  }

  /** The outer loop of `Dxyn` over sprite rows `row..n-1`. */
  function DrawRows(fb: seq<seq<bool>>, memory: seq<Byte>, i: nat, vx: nat, vy: nat, n: nat, row: nat, hit: bool)
    : (r: (seq<seq<bool>>, bool))
    requires ScreenShaped(fb) && row <= n <= 15 && (n == 0 || i + n <= |memory|)
    decreases n - row
    ensures ScreenShaped(r.0)
  {
    if row == n then (fb, hit)
    else
      var y := ScreenRow(vy, row);
      var (line, hit') := DrawLine(fb[y], memory[i + row], vx, 0, hit);
      DrawRows(fb[y := line], memory, i, vx, vy, n, row + 1, hit')
  }

  /** Screen pixel (y, x) is covered by a set bit of one of the sprite rows `from..n-1`. */
  predicate Toggles(memory: seq<Byte>, i: nat, vx: nat, vy: nat, from: nat, n: nat, y: nat, x: nat)
    requires n == 0 || i + n <= |memory|
  {
    var r := SpriteRow(vy, y);
    from <= r < n && LineHit(memory[i + r], vx, 0, x)
  }

  lemma TogglesOnRow(memory: seq<Byte>, i: nat, vx: nat, vy: nat, from: nat, n: nat, y: nat, x: nat)
    requires n == 0 || i + n <= |memory|
    requires from <= SpriteRow(vy, y) < n
    ensures Toggles(memory, i, vx, vy, from, n, y, x) == LineHit(memory[i + SpriteRow(vy, y)], vx, 0, x)
  {
  }

  /** Sprite bit (r, c) is set and lands on a lit pixel of `fb`. */
  predicate Collides(fb: seq<seq<bool>>, memory: seq<Byte>, i: nat, vx: nat, vy: nat, r: nat, c: nat)
    requires ScreenShaped(fb) && i + r < |memory| && c < 8
  {
    SpriteBit(memory[i + r], c) && fb[ScreenRow(vy, r)][ScreenColumn(vx, c)]
  }

  /** Sprite bit (r, c) is set and lands on an unlit pixel of `fb`. */
  predicate Lights(fb: seq<seq<bool>>, memory: seq<Byte>, i: nat, vx: nat, vy: nat, r: nat, c: nat)
    requires ScreenShaped(fb) && i + r < |memory| && c < 8
  {
    SpriteBit(memory[i + r], c) && !fb[ScreenRow(vy, r)][ScreenColumn(vx, c)]
  }

  /** Bit c of sprite row r, the row read from `memory[I + r]`. */
  predicate RowBit(memory: seq<Byte>, i: nat, r: nat, c: nat)
    requires i + r < |memory| && c < 8
  {
    SpriteBit(memory[i + r], c)
  }

  /** The sprite has at least one set bit. */
  predicate HasPixel(memory: seq<Byte>, i: nat, n: nat)
    requires n == 0 || i + n <= |memory|
  {
    exists r, c :: 0 <= r < n && 0 <= c < 8 && RowBit(memory, i, r, c)
  }

  /** The pixel-by-pixel loops flip exactly the pixels a set sprite bit lands on. Every
      screen pixel receives at most one sprite bit, because at most 15 rows and 8 columns
      are drawn on a 32x64 torus. */
  lemma {:induction false} DrawRowsPixels(fb: seq<seq<bool>>, memory: seq<Byte>, i: nat, vx: nat, vy: nat, n: nat, row: nat, hit: bool)
    requires ScreenShaped(fb) && row <= n <= 15 && (n == 0 || i + n <= |memory|)
    decreases n - row
    ensures var r := DrawRows(fb, memory, i, vx, vy, n, row, hit);
      forall y, x :: 0 <= y < HEIGHT && 0 <= x < WIDTH ==>
        r.0[y][x] == (fb[y][x] != Toggles(memory, i, vx, vy, row, n, y, x))
  {
    if row < n {
      var y0 := ScreenRow(vy, row);
      var (line, hit1) := DrawLine(fb[y0], memory[i + row], vx, 0, hit);
      var fb1 := fb[y0 := line];
      DrawLineSpec(fb[y0], memory[i + row], vx, 0, hit);
      DrawRowsPixels(fb1, memory, i, vx, vy, n, row + 1, hit1);
      var r := DrawRows(fb, memory, i, vx, vy, n, row, hit);
      assert r == DrawRows(fb1, memory, i, vx, vy, n, row + 1, hit1);
      RowOf(vy, row);
      forall y, x | 0 <= y < HEIGHT && 0 <= x < WIDTH
        ensures r.0[y][x] == (fb[y][x] != Toggles(memory, i, vx, vy, row, n, y, x))
      {
        assert r.0[y][x] == (fb1[y][x] != Toggles(memory, i, vx, vy, row + 1, n, y, x));
        if y == y0 {
          assert fb1[y][x] == line[x];
          assert line[x] == (fb[y0][x] != LineHit(memory[i + row], vx, 0, x));
          assert SpriteRow(vy, y) == row;
          assert !Toggles(memory, i, vx, vy, row + 1, n, y, x);
          TogglesOnRow(memory, i, vx, vy, row, n, y, x);
        } else {
          assert fb1[y][x] == fb[y][x];
          RowPositionOf(vy, y);
          assert SpriteRow(vy, y) != row;
        }
      }
    }
  }

  /** Some set bit of sprite rows `from..n-1` lands on a lit pixel of `fb`. */
  predicate CollisionFrom(fb: seq<seq<bool>>, memory: seq<Byte>, i: nat, vx: nat, vy: nat, from: nat, n: nat)
    requires ScreenShaped(fb) && (n == 0 || i + n <= |memory|)
  {
    exists rr, c :: from <= rr < n && 0 <= c < 8 && Collides(fb, memory, i, vx, vy, rr, c)
  }

  lemma CollisionFromSplit(fb: seq<seq<bool>>, memory: seq<Byte>, i: nat, vx: nat, vy: nat, from: nat, n: nat)
    requires ScreenShaped(fb) && from < n && i + n <= |memory|
    ensures CollisionFrom(fb, memory, i, vx, vy, from, n) <==>
      (exists c :: 0 <= c < 8 && Collides(fb, memory, i, vx, vy, from, c))
      || CollisionFrom(fb, memory, i, vx, vy, from + 1, n)
  {
    if CollisionFrom(fb, memory, i, vx, vy, from, n) {
      var rr, c :| from <= rr < n && 0 <= c < 8 && Collides(fb, memory, i, vx, vy, rr, c);
      if rr != from {
        assert CollisionFrom(fb, memory, i, vx, vy, from + 1, n);
      }
    }
  }

  /** Redrawing screen row `ScreenRow(vy, row)` does not change what later sprite rows
      collide with. */
  lemma CollisionFromOtherRows(fb: seq<seq<bool>>, line: seq<bool>, memory: seq<Byte>, i: nat, vx: nat, vy: nat, row: nat, n: nat)
    requires ScreenShaped(fb) && |line| == WIDTH && row < n <= 15 && i + n <= |memory|
    ensures ScreenShaped(fb[ScreenRow(vy, row) := line])
    ensures CollisionFrom(fb[ScreenRow(vy, row) := line], memory, i, vx, vy, row + 1, n)
        == CollisionFrom(fb, memory, i, vx, vy, row + 1, n)
  {
    var fb1 := fb[ScreenRow(vy, row) := line];
    forall rr, c | row + 1 <= rr < n && 0 <= c < 8
      ensures Collides(fb1, memory, i, vx, vy, rr, c) == Collides(fb, memory, i, vx, vy, rr, c)
    {
      RowOf(vy, rr);
      RowOf(vy, row);
      assert ScreenRow(vy, rr) != ScreenRow(vy, row);
    }
  }

  /** The column loop of sprite row `row` reports exactly the collisions of that row. */
  lemma LineCollision(fb: seq<seq<bool>>, memory: seq<Byte>, i: nat, vx: nat, vy: nat, row: nat, hit: bool)
    requires ScreenShaped(fb) && i + row < |memory|
    ensures DrawLine(fb[ScreenRow(vy, row)], memory[i + row], vx, 0, hit).1 <==>
      hit || exists c :: 0 <= c < 8 && Collides(fb, memory, i, vx, vy, row, c)
  {
    var y0 := ScreenRow(vy, row);
    DrawLineSpec(fb[y0], memory[i + row], vx, 0, hit);
    if exists c :: 0 <= c < 8 && SpriteBit(memory[i + row], c) && fb[y0][ScreenColumn(vx, c)] {
      var c :| 0 <= c < 8 && SpriteBit(memory[i + row], c) && fb[y0][ScreenColumn(vx, c)];
      assert Collides(fb, memory, i, vx, vy, row, c);
    }
    if exists c :: 0 <= c < 8 && Collides(fb, memory, i, vx, vy, row, c) {
      var c :| 0 <= c < 8 && Collides(fb, memory, i, vx, vy, row, c);
      assert SpriteBit(memory[i + row], c) && fb[y0][ScreenColumn(vx, c)];
    }
  }

  /** The loops report a collision exactly when a set sprite bit lands on a pixel that was
      lit before the draw. */
  lemma {:induction false} DrawRowsCollision(fb: seq<seq<bool>>, memory: seq<Byte>, i: nat, vx: nat, vy: nat, n: nat, row: nat, hit: bool)
    requires ScreenShaped(fb) && row <= n <= 15 && (n == 0 || i + n <= |memory|)
    decreases n - row
    ensures DrawRows(fb, memory, i, vx, vy, n, row, hit).1 <==>
      hit || CollisionFrom(fb, memory, i, vx, vy, row, n)
  {
    if row < n {
      var y0 := ScreenRow(vy, row);
      var (line, hit1) := DrawLine(fb[y0], memory[i + row], vx, 0, hit);
      var fb1 := fb[y0 := line];
      DrawRowsCollision(fb1, memory, i, vx, vy, n, row + 1, hit1);
      assert DrawRows(fb, memory, i, vx, vy, n, row, hit) == DrawRows(fb1, memory, i, vx, vy, n, row + 1, hit1);
      CollisionFromOtherRows(fb, line, memory, i, vx, vy, row, n);
      LineCollision(fb, memory, i, vx, vy, row, hit);
      CollisionFromSplit(fb, memory, i, vx, vy, row, n);
    }
  }

  /** `Dxyn` on the screen: the new screen and whether a collision occurred. */
  function Draw(fb: seq<seq<bool>>, memory: seq<Byte>, i: nat, vx: Byte, vy: Byte, n: nat)
    : (r: (seq<seq<bool>>, bool))
    requires ScreenShaped(fb) && n <= 15 && (n == 0 || i + n <= |memory|)
    ensures ScreenShaped(r.0)
    ensures forall y, x :: 0 <= y < HEIGHT && 0 <= x < WIDTH ==>
      r.0[y][x] == (fb[y][x] != Toggles(memory, i, vx, vy, 0, n, y, x))
    ensures r.1 <==> CollisionFrom(fb, memory, i, vx, vy, 0, n)
  {
    DrawRowsPixels(fb, memory, i, vx, vy, n, 0, false);
    DrawRowsCollision(fb, memory, i, vx, vy, n, 0, false);
    DrawRows(fb, memory, i, vx, vy, n, 0, false)
  }

  /** Drawing the same sprite twice at the same place restores the screen; the second draw
      collides exactly when the sprite landed on some pixel that was unlit to begin with. */
  lemma DrawTwiceRestores(fb: seq<seq<bool>>, memory: seq<Byte>, i: nat, vx: Byte, vy: Byte, n: nat)
    requires ScreenShaped(fb) && n <= 15 && (n == 0 || i + n <= |memory|)
    ensures var first := Draw(fb, memory, i, vx, vy, n);
      var second := Draw(first.0, memory, i, vx, vy, n);
      && second.0 == fb
      && (second.1 <==> exists rr, c :: 0 <= rr < n && 0 <= c < 8 && Lights(fb, memory, i, vx, vy, rr, c))
  {
    var first := Draw(fb, memory, i, vx, vy, n);
    var second := Draw(first.0, memory, i, vx, vy, n);
    forall y | 0 <= y < HEIGHT
      ensures second.0[y] == fb[y]
    {
      assert forall x :: 0 <= x < WIDTH ==> second.0[y][x] == fb[y][x];
    }
    forall rr, c | 0 <= rr < n && 0 <= c < 8
      ensures Collides(first.0, memory, i, vx, vy, rr, c) == Lights(fb, memory, i, vx, vy, rr, c)
    {
      var y, x := ScreenRow(vy, rr), ScreenColumn(vx, c);
      RowOf(vy, rr);
      ColumnOf(vx, c);
      assert SpriteRow(vy, y) == rr && SpriteColumn(vx, x) == c;
      if SpriteBit(memory[i + rr], c) {
        assert Toggles(memory, i, vx, vy, 0, n, y, x);
      }
    }
  }

  /** On a blank screen a sprite never collides, lights exactly the pixels its set bits
      land on, and drawing it again collides exactly when it has a set bit. */
  lemma DrawOnBlankScreen(fb: seq<seq<bool>>, memory: seq<Byte>, i: nat, vx: Byte, vy: Byte, n: nat)
    requires ScreenShaped(fb) && IsBlank(fb) && n <= 15 && (n == 0 || i + n <= |memory|)
    ensures var first := Draw(fb, memory, i, vx, vy, n);
      && !first.1
      && (forall y, x :: 0 <= y < HEIGHT && 0 <= x < WIDTH ==>
            first.0[y][x] == Toggles(memory, i, vx, vy, 0, n, y, x))
      && (Draw(first.0, memory, i, vx, vy, n).1 <==> HasPixel(memory, i, n))
  {
    DrawTwiceRestores(fb, memory, i, vx, vy, n);
    var first := Draw(fb, memory, i, vx, vy, n);
    forall rr, c | 0 <= rr < n && 0 <= c < 8
      ensures !Collides(fb, memory, i, vx, vy, rr, c)
    {
      assert !fb[ScreenRow(vy, rr)][ScreenColumn(vx, c)];
    }
    if HasPixel(memory, i, n) {
      var rr, c :| 0 <= rr < n && 0 <= c < 8 && RowBit(memory, i, rr, c);
      assert Lights(fb, memory, i, vx, vy, rr, c);
    }
    if Draw(first.0, memory, i, vx, vy, n).1 {
      var rr, c :| 0 <= rr < n && 0 <= c < 8 && Lights(fb, memory, i, vx, vy, rr, c);
      assert RowBit(memory, i, rr, c);
    }
  }
}
