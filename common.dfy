/**
 * Shared vocabulary of the tissue-mask workflow: optional values and error
 * results, 2-D intensity planes and boolean masks stored row by row, and a
 * multi-channel image whose channels carry a metal-tag label.
 */
module Common {

  datatype Option<T> = None | Some(value: T)

  datatype Result<T, E> = Ok(value: T) | Err(error: E)

  /** `d.get(key, default)` once the lookup has produced an Option. */
  function OrElse<T>(o: Option<T>, default: T): T
  {
    match o
    case Some(v) => v
    case None => default
  }

  /** One intensity plane, indexed [y][x]. */
  type Grid = seq<seq<real>>

  /** One boolean plane, indexed [y][x]; true is tissue. */
  type Mask = seq<seq<bool>>

  /** One channel of an image: its metal-tag label and its intensity plane. */
  datatype Channel = Channel(tag: string, plane: Grid)

  /**
   * A (C, H, W) image as a list of labelled channels. The spatial extent is
   * kept separately so that an image with no channel still has a height and a
   * width, as a numpy array of shape (0, H, W) does.
   */
  datatype Image = Image(height: nat, width: nat, channels: seq<Channel>)

  /** The channel labels in channel order (the `metal_tag` coordinate). */
  function Tags(chs: seq<Channel>): (r: seq<string>)
    ensures |r| == |chs| && forall c :: 0 <= c < |chs| ==> r[c] == chs[c].tag
  {
    seq(|chs|, c requires 0 <= c < |chs| => chs[c].tag)
  }

  predicate HasShape<T>(g: seq<seq<T>>, h: nat, w: nat)
  {
    |g| == h && forall y :: 0 <= y < h ==> |g[y]| == w
  }

  /** An image whose every plane is height x width. */
  predicate Valid(img: Image)
  {
    forall c :: 0 <= c < |img.channels| ==> HasShape(img.channels[c].plane, img.height, img.width)
  }

  predicate InGrid<T>(g: seq<seq<T>>, y: int, x: int)
  {
    0 <= y < |g| && 0 <= x < |g[y]|
  }

  /** Reading a plane that the library returned; outside it reads 0. */
  function Get(g: Grid, y: int, x: int): real
  {
    if InGrid(g, y, x) then g[y][x] else 0.0
  }

  /** Reading a mask; outside it reads false (the border value of an erosion). */
  predicate MaskAt(m: Mask, y: int, x: int)
  {
    InGrid(m, y, x) && m[y][x]
  }

  /** `max(v, 0)`, the clip at zero. */
  function Max0(v: real): real
  {
    if v > 0.0 then v else 0.0
  }

  function Abs(v: real): real
  {
    if v < 0.0 then -v else v
  }

  /** The values of a plane in row-major order (numpy's `flatten`). */
  function Flatten(g: Grid): seq<real>
  {
    if |g| == 0 then [] else Flatten(g[..|g| - 1]) + g[|g| - 1]
  }

  lemma {:induction false} FlattenContains(g: Grid, y: int, x: int)
    requires InGrid(g, y, x)
    ensures g[y][x] in Flatten(g)
  {
    var n := |g| - 1;
    if y < n {
      assert InGrid(g[..n], y, x);
      FlattenContains(g[..n], y, x);
    } else {
      assert Flatten(g)[|Flatten(g[..n])| + x] == g[y][x];
    }
  }

  lemma {:induction false} FlattenElement(g: Grid, i: int)
    requires 0 <= i < |Flatten(g)|
    ensures exists y, x :: InGrid(g, y, x) && g[y][x] == Flatten(g)[i]
  {
    var n := |g| - 1;
    var front := Flatten(g[..n]);
    if i < |front| {
      FlattenElement(g[..n], i);
      var y, x :| InGrid(g[..n], y, x) && g[..n][y][x] == front[i];
      assert InGrid(g, y, x) && g[y][x] == Flatten(g)[i];
    } else {
      var x := i - |front|;
      assert InGrid(g, n, x) && g[n][x] == Flatten(g)[i];
    }
  }

  /** Number of true cells of a row (`np.sum` of a boolean row). */
  function CountRow(row: seq<bool>): nat
  {
    if |row| == 0 then 0 else CountRow(row[..|row| - 1]) + (if row[|row| - 1] then 1 else 0)
  }

  /** Number of true cells of a mask (`np.sum` of a boolean array). */
  function Count(m: Mask): nat
  {
    if |m| == 0 then 0 else Count(m[..|m| - 1]) + CountRow(m[|m| - 1])
  }

  /** Number of cells of a mask. */
  function Cells(m: Mask): nat
  {
    if |m| == 0 then 0 else Cells(m[..|m| - 1]) + |m[|m| - 1]|
  }

  lemma {:induction false} CountRowBound(row: seq<bool>)
    ensures CountRow(row) <= |row|
    ensures CountRow(row) == |row| <==> forall x :: 0 <= x < |row| ==> row[x]
  {
    if |row| > 0 {
      var n := |row| - 1;
      CountRowBound(row[..n]);
      if CountRow(row) == |row| {
        assert forall x :: 0 <= x < n ==> row[..n][x];
      }
      if forall x :: 0 <= x < |row| ==> row[x] {
        assert forall x :: 0 <= x < n ==> row[..n][x] by {
          forall x | 0 <= x < n ensures row[..n][x] { assert row[x]; }
        }
      }
    }
  }

  /** A mask has no more true cells than cells. */
  lemma {:induction false} CountAtMostCells(m: Mask)
    ensures Count(m) <= Cells(m)
  {
    if |m| > 0 {
      CountAtMostCells(m[..|m| - 1]);
      CountRowBound(m[|m| - 1]);
    }
  }

  lemma {:induction false} CellsOfShape(m: Mask, h: nat, w: nat)
    requires HasShape(m, h, w)
    ensures Cells(m) == h * w
  {
    if h > 0 {
      assert HasShape(m[..h - 1], h - 1, w);
      CellsOfShape(m[..h - 1], h - 1, w);
      assert (h - 1) * w + w == h * w;
    }
  }

  /** An h x w mask counts at most h * w true cells. */
  lemma CountBound(m: Mask, h: nat, w: nat)
    requires HasShape(m, h, w)
    ensures Count(m) <= h * w
  {
    CountAtMostCells(m);
    CellsOfShape(m, h, w);
  }

  /** The true cells of `m` that are not true in `n` (numpy's `m & ~n`). */
  function AndNot(m: Mask, n: Mask): (r: Mask)
    ensures |r| == |m| && forall y :: 0 <= y < |m| ==> |r[y]| == |m[y]|
  {
    seq(|m|, y requires 0 <= y < |m| =>
      seq(|m[y]|, x requires 0 <= x < |m[y]| => m[y][x] && !MaskAt(n, y, x)))
  }

  /** The true cells of `m` that are also true in `n` (numpy's `m & n`). */
  function And(m: Mask, n: Mask): (r: Mask)
    ensures |r| == |m| && forall y :: 0 <= y < |m| ==> |r[y]| == |m[y]|
  {
    seq(|m|, y requires 0 <= y < |m| =>
      seq(|m[y]|, x requires 0 <= x < |m[y]| => m[y][x] && MaskAt(n, y, x)))
  }

  /** Two masks of one shape where every cell true in `a` is true in `b`. */
  predicate Within(a: Mask, b: Mask)
  {
    |a| == |b| && forall y :: 0 <= y < |a| ==> |a[y]| == |b[y]| && forall x :: 0 <= x < |a[y]| ==> a[y][x] ==> b[y][x]
  }

  lemma {:induction false} CountRowWithin(a: seq<bool>, b: seq<bool>)
    requires |a| == |b| && forall x :: 0 <= x < |a| ==> a[x] ==> b[x]
    ensures CountRow(a) <= CountRow(b)
  {
    if |a| > 0 {
      CountRowWithin(a[..|a| - 1], b[..|b| - 1]);
    }
  }

  /** A mask contained in another counts no more true cells. */
  lemma {:induction false} CountWithin(a: Mask, b: Mask)
    requires Within(a, b)
    ensures Count(a) <= Count(b)
  {
    if |a| > 0 {
      var n := |a| - 1;
      assert Within(a[..n], b[..n]);
      CountWithin(a[..n], b[..n]);
      CountRowWithin(a[n], b[n]);
    }
  }

  lemma {:induction false} CountRowSplit(a: seq<bool>, b: seq<bool>)
    requires |a| == |b|
    ensures CountRow(a) == CountRow(seq(|a|, x requires 0 <= x < |a| => a[x] && b[x]))
                           + CountRow(seq(|a|, x requires 0 <= x < |a| => a[x] && !b[x]))
  {
    var both := seq(|a|, x requires 0 <= x < |a| => a[x] && b[x]);
    var only := seq(|a|, x requires 0 <= x < |a| => a[x] && !b[x]);
    if |a| > 0 {
      var n := |a| - 1;
      CountRowSplit(a[..n], b[..n]);
      assert both[..n] == seq(n, x requires 0 <= x < n => a[..n][x] && b[..n][x]);
      assert only[..n] == seq(n, x requires 0 <= x < n => a[..n][x] && !b[..n][x]);
    }
  }

  /** Combining the first k rows is combining the first k rows of each mask. */
  lemma CombinePrefix(m: Mask, n: Mask, k: nat)
    requires k <= |m| && k <= |n|
    ensures And(m, n)[..k] == And(m[..k], n[..k])
    ensures AndNot(m, n)[..k] == AndNot(m[..k], n[..k])
  {
    forall y | 0 <= y < k
      ensures And(m, n)[y] == And(m[..k], n[..k])[y]
      ensures AndNot(m, n)[y] == AndNot(m[..k], n[..k])[y]
    {
      assert forall x :: 0 <= x < |m[y]| ==> MaskAt(n, y, x) == MaskAt(n[..k], y, x);
    }
  }

  /** Row y of a combination of two masks whose rows have one length. */
  lemma CombineRow(m: Mask, n: Mask, y: nat)
    requires y < |m| && y < |n| && |m[y]| == |n[y]|
    ensures And(m, n)[y] == seq(|m[y]|, x requires 0 <= x < |m[y]| => m[y][x] && n[y][x])
    ensures AndNot(m, n)[y] == seq(|m[y]|, x requires 0 <= x < |m[y]| => m[y][x] && !n[y][x])
  {
  }

  /** Every true cell of `m` is either also true in `n` or not: the two parts add up. */
  lemma {:induction false} CountSplit(m: Mask, n: Mask)
    requires |m| == |n| && forall y :: 0 <= y < |m| ==> |m[y]| == |n[y]|
    ensures Count(m) == Count(And(m, n)) + Count(AndNot(m, n))
  {
    if |m| > 0 {
      var k := |m| - 1;
      assert |m[..k]| == |n[..k]| && forall y :: 0 <= y < k ==> |m[..k][y]| == |n[..k][y]|;
      CountSplit(m[..k], n[..k]);
      CombinePrefix(m, n, k);
      CountRowSplit(m[k], n[k]);
      CombineRow(m, n, k);
    }
  }

  /** An h x w mask counts h * w true cells exactly when every cell is true. */
  lemma {:induction false} CountFull(m: Mask, h: nat, w: nat)
    requires HasShape(m, h, w)
    ensures Count(m) <= h * w
    ensures Count(m) == h * w <==> forall y, x :: 0 <= y < h && 0 <= x < w ==> m[y][x]
  {
    if h > 0 {
      var n := h - 1;
      assert HasShape(m[..n], n, w);
      CountFull(m[..n], n, w);
      CountRowBound(m[n]);
      assert n * w + w == h * w;
      if Count(m) == h * w {
        forall y, x | 0 <= y < h && 0 <= x < w ensures m[y][x] {
          if y < n {
            assert m[..n][y][x];
          }
        }
      }
      if forall y, x :: 0 <= y < h && 0 <= x < w ==> m[y][x] {
        assert forall y, x :: 0 <= y < n && 0 <= x < w ==> m[..n][y][x] by {
          forall y, x | 0 <= y < n && 0 <= x < w ensures m[..n][y][x] {
            assert m[y][x];
          }
        }
        assert forall x :: 0 <= x < |m[n]| ==> m[n][x];
      }
    }
  }
}
