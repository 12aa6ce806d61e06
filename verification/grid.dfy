/** Pixel buffers as row-major 2-D grids, rectangles on them, and cropping. */
module Grid {

  /** A region of interest: top-left corner (x, y) and size, in pixels. */
  datatype Rect = Rect(x: nat, y: nat, width: nat, height: nat)

  /** Pixel (px, py) lies inside r. */
  predicate Contains(r: Rect, px: int, py: int) {
    r.x <= px < r.x + r.width && r.y <= py < r.y + r.height
  }

  /** r lies inside a w x h frame. */
  predicate Within(r: Rect, w: nat, h: nat) {
    r.x + r.width <= w && r.y + r.height <= h
  }

  /** No pixel lies in both rectangles. */
  ghost predicate Disjoint(a: Rect, b: Rect) {
    forall px, py :: !(Contains(a, px, py) && Contains(b, px, py))
  }

  /** g has h rows of w pixels each; row index is y, column index is x. */
  ghost predicate IsRect<T>(g: seq<seq<T>>, w: nat, h: nat) {
    |g| == h && forall y :: 0 <= y < h ==> |g[y]| == w
  }

  /** The sub-grid of g covered by r, as an ImageJ crop of a region of interest returns it. */
  function Crop<T>(g: seq<seq<T>>, w: nat, h: nat, r: Rect): (c: seq<seq<T>>)
    requires IsRect(g, w, h) && Within(r, w, h)
    ensures IsRect(c, r.width, r.height)
    ensures forall i, j :: 0 <= i < r.height && 0 <= j < r.width ==> c[i][j] == g[r.y + i][r.x + j]
  {
    seq(r.height, i requires 0 <= i < r.height => g[r.y + i][r.x .. r.x + r.width])
  }

  /** Row-wise concatenation: the grid with a on the left and b on the right. */
  function Beside<T>(a: seq<seq<T>>, b: seq<seq<T>>): (c: seq<seq<T>>)
    requires |a| == |b|
  {
    seq(|a|, i requires 0 <= i < |a| => a[i] + b[i])
  }

  /** Cropping the whole frame gives the frame back. */
  lemma CropWhole<T>(g: seq<seq<T>>, w: nat, h: nat)
    requires IsRect(g, w, h)
    ensures Crop(g, w, h, Rect(0, 0, w, h)) == g
  {
    var c := Crop(g, w, h, Rect(0, 0, w, h));
    forall i | 0 <= i < h ensures c[i] == g[i] {
      assert g[i][0 .. w] == g[i];
    }
  }
}
