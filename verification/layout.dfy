/**
 * Master/stack tiling. Instead of issuing ConfigureWindow requests, Tile
 * returns the geometry each request would carry, in the order they are sent.
 */
module Layout {
  import opened XTypes

  /** The fixed gap, in pixels, at the screen edges and between tiles. */
  const GAP: int := 8

  /** Position, size and border width for one window. */
  datatype Geometry = Geometry(window: Window, x: int, y: int, width: nat, height: nat, border: u32)

  function Max0(v: int): nat {
    if v < 0 then 0 else v
  }

  /** `i32::clamp(0, sw)` of the scaled master width. */
  function MasterWidth(screenWidth: u16, scaledMasterWidth: int): (r: int)
    ensures 0 <= r <= screenWidth as int
    ensures 0 <= scaledMasterWidth <= screenWidth as int ==> r == scaledMasterWidth
  {
    if scaledMasterWidth < 0 then 0
    else if scaledMasterWidth > screenWidth as int then screenWidth as int
    else scaledMasterWidth
  }

  /** The windows after the master, one per slot, top to bottom. */
  function StackColumn(stack: seq<Window>, x: int, width: nat, height: nat, border: u32): seq<Geometry> {
    seq(|stack|, i requires 0 <= i < |stack| =>
      Geometry(stack[i], x, GAP + i * (height + GAP), width, height, border))
  }

  /**
   * The layout for `windows` on a screen of the given size. `scaledMasterWidth`
   * is the screen width times the master ratio, already truncated to an integer.
   */
  function Tile(screenWidth: u16, screenHeight: u16, windows: seq<Window>,
                scaledMasterWidth: int, borderWidth: u32): (r: seq<Geometry>)
    ensures r == [] || |r| == |windows|
    ensures forall i :: 0 <= i < |r| ==> r[i].window == windows[i] && r[i].border == borderWidth
  {
    if windows == [] then []
    else
      var sw := screenWidth as int;
      var sh := screenHeight as int;
      var usableWidth := sw - 2 * GAP;
      var usableHeight := sh - 2 * GAP;
      if usableWidth <= 0 || usableHeight <= 0 then []
      else if |windows| == 1 then
        [Geometry(windows[0], GAP, GAP, Max0(usableWidth), Max0(usableHeight), borderWidth)]
      else
        var masterWidth := MasterWidth(screenWidth, scaledMasterWidth);
        var stackWidth := Max0(sw - masterWidth);
        var stackCount := |windows| - 1;
        var stackAvailableHeight := sh - (stackCount + 1) * GAP;
        if stackAvailableHeight <= 0 then []
        else
          // both operands are positive, so Euclidean division truncates like Rust's
          var stackHeight := stackAvailableHeight / stackCount;
          var master := Geometry(windows[0], GAP, GAP, Max0(masterWidth - 2 * GAP), Max0(usableHeight), borderWidth);
          [master] + StackColumn(windows[1..], masterWidth + GAP, Max0(stackWidth - 2 * GAP), Max0(stackHeight), borderWidth)
  }

  /**
   * No geometry at all exactly when there is no window, the usable area
   * collapses, or the stack gaps alone use up the screen height.
   */
  lemma TileEmptyExactly(sw: u16, sh: u16, windows: seq<Window>, scaled: int, border: u32)
    ensures Tile(sw, sh, windows, scaled, border) == [] <==>
      || windows == []
      || sw as int - 2 * GAP <= 0
      || sh as int - 2 * GAP <= 0
      || (|windows| >= 2 && sh as int - |windows| * GAP <= 0)
  {
  }

  /** A single window fills the usable area, inset by one gap on every side. */
  lemma TileSingleWindow(sw: u16, sh: u16, w: Window, scaled: int, border: u32)
    requires sw as int > 2 * GAP && sh as int > 2 * GAP
    ensures Tile(sw, sh, [w], scaled, border)
      == [Geometry(w, GAP, GAP, sw as int - 2 * GAP, sh as int - 2 * GAP, border)]
  {
  }

  /** The master sits at the top-left gap, full usable height, master width less two gaps. */
  lemma TileMaster(sw: u16, sh: u16, windows: seq<Window>, scaled: int, border: u32)
    requires |windows| >= 2
    requires Tile(sw, sh, windows, scaled, border) != []
    ensures Tile(sw, sh, windows, scaled, border)[0]
      == Geometry(windows[0], GAP, GAP, Max0(MasterWidth(sw, scaled) - 2 * GAP), sh as int - 2 * GAP, border)
  {
  }

  /**
   * Stack window i (counting from 0 after the master) is at the stack column's x,
   * `i * (stackHeight + GAP)` below the top gap, with the common stack height.
   */
  lemma TileStackSlot(sw: u16, sh: u16, windows: seq<Window>, scaled: int, border: u32, i: nat)
    requires |windows| >= 2
    requires Tile(sw, sh, windows, scaled, border) != []
    requires i < |windows| - 1
    ensures var r := Tile(sw, sh, windows, scaled, border);
      var k := |windows| - 1;
      var h := (sh as int - (k + 1) * GAP) / k;
      var mw := MasterWidth(sw, scaled);
      r[i + 1] == Geometry(windows[i + 1], mw + GAP, GAP + i * (h + GAP), Max0(sw as int - mw - 2 * GAP), h, border)
  {
    var r := Tile(sw, sh, windows, scaled, border);
    var k := |windows| - 1;
    var avail := sh as int - (k + 1) * GAP;
    assert avail > 0;
    var h := avail / k;
    assert h >= 0;
    var mw := MasterWidth(sw, scaled);
    var width := Max0(sw as int - mw - 2 * GAP);
    assert Max0(Max0(sw as int - mw) - 2 * GAP) == width;
    var master := Geometry(windows[0], GAP, GAP, Max0(mw - 2 * GAP), Max0(sh as int - 2 * GAP), border);
    var column := StackColumn(windows[1..], mw + GAP, width, h, border);
    assert r == [master] + column;
    assert r[i + 1] == column[i];
  }

  /** Consecutive stack windows are separated by exactly one gap, so they never overlap. */
  lemma TileStackAdjacent(sw: u16, sh: u16, windows: seq<Window>, scaled: int, border: u32, i: nat)
    requires var r := Tile(sw, sh, windows, scaled, border); 1 <= i && i + 1 < |r|
    ensures var r := Tile(sw, sh, windows, scaled, border);
      r[i + 1].y == r[i].y + r[i].height + GAP && r[i + 1].x == r[i].x
  {
    var r := Tile(sw, sh, windows, scaled, border);
    TileStackSlot(sw, sh, windows, scaled, border, i - 1);
    TileStackSlot(sw, sh, windows, scaled, border, i);
    var k := |windows| - 1;
    var h := (sh as int - (k + 1) * GAP) / k;
    assert GAP + i * (h + GAP) == GAP + (i - 1) * (h + GAP) + h + GAP;
  }

  /** Every window lies between the top gap and the bottom gap of the screen. */
  lemma TileWithinHeight(sw: u16, sh: u16, windows: seq<Window>, scaled: int, border: u32)
    ensures var r := Tile(sw, sh, windows, scaled, border);
      forall i :: 0 <= i < |r| ==> GAP <= r[i].y && r[i].y + r[i].height <= sh as int - GAP
  {
    var r := Tile(sw, sh, windows, scaled, border);
    if |windows| >= 2 && r != [] {
      var k := |windows| - 1;
      var avail := sh as int - (k + 1) * GAP;
      var h := avail / k;
      DivBelow(avail, k);
      assert k * h + k * GAP <= sh as int - GAP;
      forall i | 1 <= i < |r|
        ensures GAP <= r[i].y && r[i].y + r[i].height <= sh as int - GAP
      {
        TileStackSlot(sw, sh, windows, scaled, border, i - 1);
        assert r[i].y == GAP + (i - 1) * (h + GAP) && r[i].height == h;
        StackBottom(i - 1, k, h);
      }
    }
  }

  /** Slot j of k slots of height h, separated by gaps, ends at most `k * (h + GAP)` from the top. */
  lemma StackBottom(j: nat, k: nat, h: nat)
    requires j < k
    ensures GAP + j * (h + GAP) + h <= k * h + k * GAP
  {
    assert j * (h + GAP) <= (k - 1) * (h + GAP) by {
      MulLe(j, k - 1, h + GAP);
    }
  }

  lemma DivBelow(a: int, k: nat)
    requires a > 0 && k > 0
    ensures a / k >= 0 && k * (a / k) <= a
  {
  }

  lemma MulLe(a: nat, b: nat, c: nat)
    requires a <= b
    ensures a * c <= b * c
  {
  }

  /** The master's right edge never passes the left edge of the stack column. */
  lemma TileMasterLeftOfStack(sw: u16, sh: u16, windows: seq<Window>, scaled: int, border: u32, i: nat)
    requires var r := Tile(sw, sh, windows, scaled, border); 1 <= i < |r|
    ensures var r := Tile(sw, sh, windows, scaled, border);
      r[0].x + r[0].width <= r[i].x
  {
    TileMaster(sw, sh, windows, scaled, border);
    TileStackSlot(sw, sh, windows, scaled, border, i - 1);
  }

  /**
   * When the stack column is at least two gaps wide, every window lies between
   * the left and the right gap of the screen.
   */
  lemma TileWithinWidth(sw: u16, sh: u16, windows: seq<Window>, scaled: int, border: u32)
    requires MasterWidth(sw, scaled) + 2 * GAP <= sw as int
    ensures var r := Tile(sw, sh, windows, scaled, border);
      forall i :: 0 <= i < |r| ==> GAP <= r[i].x && r[i].x + r[i].width <= sw as int - GAP
  {
    var r := Tile(sw, sh, windows, scaled, border);
    if |windows| >= 2 && r != [] {
      forall i | 1 <= i < |r|
        ensures GAP <= r[i].x && r[i].x + r[i].width <= sw as int - GAP
      {
        TileStackSlot(sw, sh, windows, scaled, border, i - 1);
      }
    }
  }

  /**
   * Sizes are clamped to 0, not 1: on a 41-pixel-high screen five windows
   * leave one pixel for four stack slots, and each gets height 0.
   */
  lemma TileStackHeightCanBeZero(w: seq<Window>)
    requires |w| == 5
    ensures var r := Tile(100, 41, w, 60, 2);
      |r| == 5 && r[1].height == 0
  {
    TileStackSlot(100, 41, w, 60, 2, 0);
  }
}
