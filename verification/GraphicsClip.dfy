/**
 Clipping, worker counts and bands of kernel/drivers/graphics.c.
 */
module GraphicsClip {

  const M: int := 0x1_0000_0000
  const MAX_JOBS: nat := 8            // GRAPHICS_SMP_MAX_JOBS

  /** graphics_viewport_t. */
  datatype Viewport = Viewport(x: nat, y: nat, width: nat, height: nat)

  /** The screen: its size, and the innermost viewport if there is one. */
  datatype Screen = Screen(width: nat, height: nat, pitch: nat, viewports: seq<Viewport>)

  predicate ViewportOk(v: Viewport, s: Screen)
  {
    (v.width == 0 && v.height == 0) || (v.x + v.width <= s.width && v.y + v.height <= s.height)
  }

  /** Sizes are 32-bit numbers, and every viewport lies on the screen or is empty. */
  predicate ScreenOk(s: Screen)
  {
    && 0 <= s.width <= s.pitch < M && s.height < M
    && forall i :: 0 <= i < |s.viewports| ==>
       ViewportOk(s.viewports[i], s) && s.viewports[i].x < M && s.viewports[i].y < M
  }

  /** graphics_viewport_push; the stack holds at most max viewports. */
  method PushViewport(s: Screen, max: nat, x: nat, y: nat, width: nat, height: nat) returns (r: Screen)
    requires ScreenOk(s) && x < M && y < M && width < M && height < M
    ensures ScreenOk(r) && r.width == s.width && r.height == s.height && r.pitch == s.pitch
    ensures |s.viewports| >= max ==> r == s
    ensures |s.viewports| < max ==> |r.viewports| == |s.viewports| + 1 && r.viewports[..|s.viewports|] == s.viewports
    ensures |s.viewports| < max ==>
              forall px: nat, py: nat :: InViewport(r.viewports[|s.viewports|], px, py) <==>
                x <= px < x + width && y <= py < y + height && px < s.width && py < s.height && x < s.width
                && y < s.height
  {
    if |s.viewports| >= max { return s; }
    var w, h := width, height;
    if x >= s.width || y >= s.height {
      w, h := 0, 0;
    } else {
      if (x + width) % M < x || (x + width) % M > s.width { w := s.width - x; }
      if (y + height) % M < y || (y + height) % M > s.height { h := s.height - y; }
    }
    r := s.(viewports := s.viewports + [Viewport(x, y, w, h)]);
  }

  predicate InViewport(v: Viewport, px: nat, py: nat)
  {
    v.x <= px < v.x + v.width && v.y <= py < v.y + v.height
  }

  /** A rectangle of pixels in absolute coordinates. */
  datatype Rect = Rect(x: nat, y: nat, width: nat, height: nat)
  {
    predicate Has(row: nat, col: nat)
    {
      y <= row < y + height && x <= col < x + width
    }
  }

  function OriginX(s: Screen): nat { if s.viewports == [] then 0 else s.viewports[|s.viewports| - 1].x }

  function OriginY(s: Screen): nat { if s.viewports == [] then 0 else s.viewports[|s.viewports| - 1].y }

  /** graphics_width and graphics_height. */
  function LimitX(s: Screen): nat { if s.viewports == [] then s.width else s.viewports[|s.viewports| - 1].width }

  function LimitY(s: Screen): nat { if s.viewports == [] then s.height else s.viewports[|s.viewports| - 1].height }

  /** The pixel is in the requested rectangle, which counts from the corner of the innermost viewport, and in that
      viewport; without one, the screen takes its place. */
  predicate Wanted(s: Screen, x: nat, y: nat, width: nat, height: nat, row: nat, col: nat)
  {
    if s.viewports == [] then x <= col < x + width && y <= row < y + height && col < s.width && row < s.height
    else
      var v := s.viewports[|s.viewports| - 1];
      && InViewport(v, col, row)
      && v.x + x <= col < v.x + x + width && v.y + y <= row < v.y + y + height
  }

  lemma WantedFrom(s: Screen, x: nat, y: nat, width: nat, height: nat, row: nat, col: nat)
    ensures Wanted(s, x, y, width, height, row, col) <==>
            && OriginX(s) <= col && OriginY(s) <= row
            && x <= col - OriginX(s) < x + width && col - OriginX(s) < LimitX(s)
            && y <= row - OriginY(s) < y + height && row - OriginY(s) < LimitY(s)
  {
  }

  /** graphics_clip_rect: exactly the wanted pixels, and all of them on the screen, although the sums are 32-bit. */
  method ClipRect(s: Screen, x: nat, y: nat, width: nat, height: nat) returns (ok: bool, r: Rect)
    requires ScreenOk(s) && x < M && y < M && width < M && height < M
    ensures forall row: nat, col: nat :: ok && r.Has(row, col) <==> Wanted(s, x, y, width, height, row, col)
    ensures ok ==> r.x + r.width <= s.width && r.y + r.height <= s.height && r.width > 0 && r.height > 0
  {
    r := Rect(0, 0, 0, 0);
    OnScreen(s);
    if width == 0 || height == 0 || x >= LimitX(s) || y >= LimitY(s) {
      forall row: nat, col: nat ensures !Wanted(s, x, y, width, height, row, col) {
        WantedFrom(s, x, y, width, height, row, col);
      }
      return false, r;
    }
    var right := ClipEnd(x, width, LimitX(s));
    var bottom := ClipEnd(y, height, LimitY(s));
    forall row: nat, col: nat
      ensures Wanted(s, x, y, width, height, row, col) <==>
              && OriginX(s) <= col && OriginY(s) <= row
              && x <= col - OriginX(s) < x + width && col - OriginX(s) < LimitX(s)
              && y <= row - OriginY(s) < y + height && row - OriginY(s) < LimitY(s) {
      WantedFrom(s, x, y, width, height, row, col);
    }
    hide LimitX, LimitY, OriginX, OriginY, ScreenOk, Wanted;
    r := Rect((x + OriginX(s)) % M, (y + OriginY(s)) % M, right - x, bottom - y);
    ok := r.x < s.width && r.y < s.height;
  }

  /** The end of a clipped side: a sum that wraps round or passes the limit is cut to the limit. */
  method ClipEnd(x: nat, width: nat, limit: nat) returns (end: nat)
    requires x < limit < M && width < M
    ensures end == if x + width <= limit then x + width else limit
  {
    end := (x + width) % M;
    if end < x || end > limit { end := limit; }
  }

  /** The current viewport, if anything can be drawn in it, lies on the screen. */
  lemma OnScreen(s: Screen)
    requires ScreenOk(s)
    ensures LimitX(s) < M && LimitY(s) < M
    ensures LimitX(s) > 0 && LimitY(s) > 0 ==>
      OriginX(s) + LimitX(s) <= s.width < M && OriginY(s) + LimitY(s) <= s.height < M
  {
    if s.viewports != [] { assert ViewportOk(s.viewports[|s.viewports| - 1], s); }
  }

  predicate OnScreenPart(s: Screen, x: nat, y: nat, width: nat, height: nat, row: nat, col: nat)
  {
    x <= col < x + width && y <= row < y + height && col < s.width && row < s.height
  }

  /** The clipping of graphics_backbuffer_flush_rect, which knows no viewport. */
  method ClipFlush(s: Screen, x: nat, y: nat, width: nat, height: nat) returns (ok: bool, r: Rect)
    requires ScreenOk(s) && x < M && y < M && width < M && height < M
    ensures forall row: nat, col: nat :: ok && r.Has(row, col) <==> OnScreenPart(s, x, y, width, height, row, col)
    ensures ok ==> r.x + r.width <= s.width && r.y + r.height <= s.height && r.width > 0 && r.height > 0
  {
    r := Rect(x, y, 0, 0);
    if width == 0 || height == 0 || x >= s.width || y >= s.height { return false, r; }
    var w, h := width, height;
    if (x + width) % M < x || (x + width) % M > s.width { w := s.width - x; }
    if (y + height) % M < y || (y + height) % M > s.height { h := s.height - y; }
    return true, Rect(x, y, w, h);
  }

  /** graphics_smp_worker_count: never more than the cores, the job table or the rows. */
  method WorkerCount(cores: nat, rows: nat) returns (workers: nat)
    ensures 1 <= workers <= MAX_JOBS && (workers == 1 || (workers <= cores && workers <= rows))
    ensures cores >= 1 && rows >= 1 ==> workers == cores || workers == rows || workers == MAX_JOBS
  {
    if cores <= 1 || rows <= 1 { return 1; }
    workers := cores;
    if workers > MAX_JOBS { workers := MAX_JOBS; }
    if workers > rows { workers := rows; }
  }

  /** The bands follow each other without gap from top to bottom, none of them empty. */
  ghost predicate Stacked(bands: seq<Rect>, whole: Rect)
  {
    && (forall i :: 0 <= i < |bands| ==> bands[i].x == whole.x && bands[i].width == whole.width && bands[i].height > 0)
    && (forall i :: 0 <= i < |bands| ==> bands[i].y == Top(bands, whole, i))
    && Top(bands, whole, |bands|) == whole.y + whole.height
  }

  /** Where band i starts if the bands before it follow each other. */
  ghost function Top(bands: seq<Rect>, whole: Rect, i: nat): nat
    requires i <= |bands|
  {
    if i == 0 then whole.y else Top(bands, whole, i - 1) + bands[i - 1].height
  }

  lemma {:induction false} TopSame(bands: seq<Rect>, more: seq<Rect>, whole: Rect, i: nat)
    requires i <= |bands|
    ensures Top(bands + more, whole, i) == Top(bands, whole, i)
    decreases i
  {
    if i > 0 { TopSame(bands, more, whole, i - 1); }
  }

  /** The loop that cuts a rectangle into bands, as in graphics_fill_rect. */
  method CutBands(whole: Rect, workers: nat) returns (bands: seq<Rect>)
    requires 1 <= workers <= whole.height
    ensures |bands| == workers && Stacked(bands, whole)
    ensures forall i, j :: 0 <= i < workers && 0 <= j < workers ==> bands[i].height <= bands[j].height + 1
  {
    hide Top;
    var base, extra := whole.height / workers, whole.height % workers;
    assert base >= 1 && workers * base + extra == whole.height by { Shares(whole.height, workers); }
    var row, i := 0, 0;
    bands := [];
    TopOf(bands, whole);
    while i < workers
      invariant 0 <= i <= workers && |bands| == i && row == i * base + (if i < extra then i else extra)
      invariant forall k :: 0 <= k < i ==> bands[k].x == whole.x && bands[k].width == whole.width
      invariant forall k :: 0 <= k < i ==> bands[k].height == base + if k < extra then 1 else 0
      invariant forall k :: 0 <= k < i ==> bands[k].y == Top(bands, whole, k)
      invariant Top(bands, whole, i) == whole.y + row
    {
      var rows := base + if i < extra then 1 else 0;
      var band := Rect(whole.x, whole.y + row, whole.width, rows);
      OneMore(i, base);
      TopAppend(bands, band, whole);
      bands := bands + [band];
      row := row + rows;
      i := i + 1;
    }
  }

  lemma Shares(height: nat, workers: nat)
    requires 1 <= workers <= height
    ensures height / workers >= 1 && workers * (height / workers) + height % workers == height
  {
  }

  lemma OneMore(i: int, base: int)
    ensures (i + 1) * base == i * base + base
  {
  }

  lemma TopOf(bands: seq<Rect>, whole: Rect)
    requires bands == []
    ensures Top(bands, whole, 0) == whole.y
  {
  }

  lemma TopAppend(bands: seq<Rect>, band: Rect, whole: Rect)
    ensures forall k: nat :: k <= |bands| ==> Top(bands + [band], whole, k) == Top(bands, whole, k)
    ensures Top(bands + [band], whole, |bands| + 1) == Top(bands, whole, |bands|) + band.height
  {
    forall k: nat | k <= |bands| ensures Top(bands + [band], whole, k) == Top(bands, whole, k) {
      TopSame(bands, [band], whole, k);
    }
  }

  lemma {:induction false} TopGrows(bands: seq<Rect>, whole: Rect, i: nat, j: nat)
    requires i <= j <= |bands|
    ensures Top(bands, whole, i) <= Top(bands, whole, j)
    ensures i < j ==> Top(bands, whole, i) + bands[i].height <= Top(bands, whole, j)
    decreases j - i
  {
    if i + 1 < j { TopGrows(bands, whole, i, j - 1); } else if i < j {
      assert Top(bands, whole, i + 1) == Top(bands, whole, i) + bands[i].height;
    }
  }

  /** Every pixel of the rectangle is in some band, every pixel of a band is in the rectangle, and bands share no
      pixel. */
  lemma BandsPartition(bands: seq<Rect>, whole: Rect, row: nat, col: nat)
    requires Stacked(bands, whole)
    ensures whole.Has(row, col) <==> exists i :: 0 <= i < |bands| && bands[i].Has(row, col)
    ensures forall i, j ::
      0 <= i < |bands| && 0 <= j < |bands| && bands[i].Has(row, col) && bands[j].Has(row, col) ==> i == j
  {
    if whole.Has(row, col) {
      var i := FindBand(bands, whole, row, |bands|);
      assert bands[i].Has(row, col);
    }
    forall i | 0 <= i < |bands| && bands[i].Has(row, col) ensures whole.Has(row, col) {
      TopGrows(bands, whole, 0, i);
      TopGrows(bands, whole, i, |bands|);
    }
    forall i, j | 0 <= i < |bands| && 0 <= j < |bands| && bands[i].Has(row, col) && bands[j].Has(row, col)
      ensures i == j {
      if i < j { TopGrows(bands, whole, i, j); }
      if j < i { TopGrows(bands, whole, j, i); }
    }
  }

  lemma {:induction false} FindBand(bands: seq<Rect>, whole: Rect, row: nat, n: nat) returns (i: nat)
    requires n <= |bands| && whole.y <= row < Top(bands, whole, n)
    ensures i < n && Top(bands, whole, i) <= row < Top(bands, whole, i) + bands[i].height
    decreases n
  {
    if row < Top(bands, whole, n - 1) { i := FindBand(bands, whole, row, n - 1); } else { i := n - 1; }
  }
}
