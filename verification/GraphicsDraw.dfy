/**
 The drawing jobs of kernel/drivers/graphics.c. A job is a series of pixel writes; jobs that run
 on several cores interleave theirs in any order.
 */
module GraphicsDraw {
  import opened GraphicsClip

  // ---- Colours ---------------------------------------------------------------------------------------------------

  function Red(c: nat): nat { c / 65536 % 256 }

  function Green(c: nat): nat { c / 256 % 256 }

  function Blue(c: nat): nat { c % 256 }

  /** One channel of graphics_mix_rgb_color, in 32-bit arithmetic. */
  function MixChannel(a: nat, b: nat, step: int, steps: int): nat
    requires steps > 0
  {
    MixSum(a, b, step, steps) % M / steps
  }

  function MixSum(a: int, b: int, step: int, steps: int): int
  {
    a * (steps - step) + b * step
  }

  /** graphics_mix_rgb_color. */
  function Mix(top: nat, bottom: nat, step: int, steps: int): nat
    requires steps > 0
  {
    MixChannel(Red(top), Red(bottom), step, steps) * 65536 + MixChannel(Green(top), Green(bottom), step, steps) * 256
    + MixChannel(Blue(top), Blue(bottom), step, steps)
  }

  predicate Within(a: nat, b: nat, m: nat)
  {
    (if a < b then a else b) <= m <= (if a < b then b else a)
  }

  /** As long as no product leaves 32 bits, a mixed channel lies between its ends and equals them at the first and
      last step. */
  lemma MixChannelRange(a: nat, b: nat, step: int, steps: int)
    requires a < 256 && b < 256 && 0 <= step <= steps && 0 < steps && 255 * steps < M
    ensures Within(a, b, MixChannel(a, b, step, steps))
    ensures MixChannel(a, b, 0, steps) == a && MixChannel(a, b, steps, steps) == b
  {
    if a < b { MixBetween(a, b, step, steps, a, b); } else { MixBetween(a, b, step, steps, b, a); }
    MixEnds(a, b, steps);
  }

  lemma MixBetween(a: nat, b: nat, step: int, steps: int, lo: nat, hi: nat)
    requires lo <= a <= hi && lo <= b <= hi < 256 && 0 <= step <= steps && 0 < steps && 255 * steps < M
    ensures lo <= MixChannel(a, b, step, steps) <= hi
  {
    hide MixSum;
    SumBetween(a, b, step, steps, lo, hi);
    MixIsQuotient(a, b, step, steps, hi);
    QuotientBetween(MixSum(a, b, step, steps), steps, lo, hi);
  }

  lemma MixIsQuotient(a: nat, b: nat, step: int, steps: int, hi: nat)
    requires 0 <= MixSum(a, b, step, steps) <= hi * steps && hi < 256 && 0 < steps && 255 * steps < M
    ensures MixChannel(a, b, step, steps) == MixSum(a, b, step, steps) / steps
  {
    hide MixSum;
    SumFits(MixSum(a, b, step, steps), steps, hi);
  }

  lemma SumBetween(a: int, b: int, step: int, steps: int, lo: int, hi: int)
    requires 0 <= lo <= a <= hi && lo <= b <= hi && 0 <= step <= steps
    ensures 0 <= lo * steps <= MixSum(a, b, step, steps) <= hi * steps
  {
    Weighted(lo, steps, 0, lo);
    Weighted(a, steps - step, lo, hi);
    Weighted(b, step, lo, hi);
    Parts(lo, steps, step);
    Parts(hi, steps, step);
  }

  lemma SumFits(sum: int, steps: int, hi: int)
    requires 0 <= hi < 256 && 0 < steps && 255 * steps < M && sum <= hi * steps
    ensures sum < M
  {
    Weighted(hi, steps, 0, 255);
  }

  lemma MixEnds(a: nat, b: nat, steps: int)
    requires a < 256 && b < 256 && 0 < steps && 255 * steps < M
    ensures MixChannel(a, b, 0, steps) == a && MixChannel(a, b, steps, steps) == b
  {
    SumAtEnds(a, b, steps);
    hide MixSum;
    MixIsQuotient(a, b, 0, steps, a);
    MixIsQuotient(a, b, steps, steps, b);
    QuotientBetween(a * steps, steps, a, a);
    QuotientBetween(b * steps, steps, b, b);
  }

  lemma SumAtEnds(a: nat, b: nat, steps: int)
    requires 0 < steps
    ensures MixSum(a, b, 0, steps) == a * steps >= 0 && MixSum(a, b, steps, steps) == b * steps >= 0
  {
    Weighted(a, steps, 0, a);
    Weighted(b, steps, 0, b);
  }

  /** Every mix of two colours over this many steps lies between them. */
  ghost predicate MixesWell(steps: int)
    requires steps > 0
  {
    forall a: nat, b: nat, step: int :: a < 256 && b < 256 && 0 <= step <= steps ==>
      Within(a, b, MixChannel(a, b, step, steps))
  }

  /** That is so exactly for step counts whose products stay below 2^32; above, plain white comes out darker. */
  lemma MixesWellIff(steps: int)
    requires steps > 0
    ensures MixesWell(steps) <==> 255 * steps < M
  {
    if 255 * steps < M {
      forall a: nat, b: nat, step: int | a < 256 && b < 256 && 0 <= step <= steps
        ensures Within(a, b, MixChannel(a, b, step, steps)) {
        MixChannelRange(a, b, step, steps);
      }
    } else {
      WhiteDarkens(steps);
      assert !Within(255, 255, MixChannel(255, 255, 0, steps));
    }
  }

  /** Every channel of a gradient of this height lies between the two colours. */
  ghost predicate GradientBetween(height: nat)
    requires height > 0
  {
    forall a: nat, b: nat, row: nat :: a < 256 && b < 256 && row < height ==>
      Within(a, b, MixChannel(a, b, row, Steps(height)))
  }

  /** A gradient has one step less than rows. */
  lemma GradientBetweenIff(height: nat)
    requires height > 0
    ensures GradientBetween(height) <==> 255 * (height - 1) < M
  {
    var steps := Steps(height);
    if 255 * (height - 1) < M {
      forall a: nat, b: nat, row: nat | a < 256 && b < 256 && row < height
        ensures Within(a, b, MixChannel(a, b, row, steps)) {
        MixChannelRange(a, b, row, steps);
      }
    } else {
      WhiteDarkens(steps);
      assert !Within(255, 255, MixChannel(255, 255, 0, steps));
    }
  }

  lemma WhiteDarkens(steps: int)
    requires 255 * steps >= M
    ensures steps > 0 && MixChannel(255, 255, 0, steps) < 255
  {
    var wrapped := (255 * steps) % M;
    assert wrapped < 255 * steps;
    QuotientBelow(wrapped, steps, 255);
  }

  lemma QuotientBelow(sum: int, n: int, hi: int)
    requires n > 0 && sum < hi * n
    ensures sum / n < hi
  {
    var q, r := sum / n, sum % n;
    assert sum == q * n + r;
    if q >= hi { Weighted(hi, n, hi, q); }
  }

  lemma Parts(x: int, steps: int, step: int)
    ensures x * (steps - step) + x * step == x * steps
  {
  }

  lemma Weighted(a: int, w: int, lo: int, hi: int)
    requires lo <= a <= hi && w >= 0
    ensures lo * w <= a * w <= hi * w
  {
    assert (a - lo) * w >= 0 && (hi - a) * w >= 0;
  }

  lemma QuotientBetween(sum: int, n: int, lo: int, hi: int)
    requires n > 0 && lo * n <= sum <= hi * n
    ensures lo <= sum / n <= hi
  {
    var q, r := sum / n, sum % n;
    assert sum == q * n + r;
    if q < lo { Weighted(q + 1, n, q + 1, lo); }
    if q > hi { Weighted(hi + 1, n, hi + 1, q); }
  }

  /** graphics_pack_color for a format that is or is not RGB. */
  function Pack(isRgb: bool, color: nat): nat
  {
    if isRgb then Blue(color) * 65536 + Green(color) * 256 + Red(color)
    else Red(color) * 65536 + Green(color) * 256 + Blue(color)
  }

  // ---- Jobs ---------------------------------------------------------------------------------------------------------

  datatype Paint =
    | Solid(color: int)
    | Gradient(top: nat, bottom: nat, start: nat, total: nat, isRgb: bool)
    | Copy(src: seq<int>)

  datatype Job = Job(rect: Rect, paint: Paint)

  function Steps(total: nat): int
  {
    if total > 1 then total - 1 else 1
  }

  function Index(pitch: nat, row: nat, col: nat): nat
  {
    row * pitch + col
  }

  /** The value a job stores at a pixel. */
  function ColorAt(job: Job, pitch: nat, row: nat, col: nat): int
  {
    match job.paint
    case Solid(color) => color
    case Gradient(top, bottom, start, total, isRgb) =>
      Pack(isRgb, Mix(top, bottom, start + row - job.rect.y, Steps(total)))
    case Copy(src) => if Index(pitch, row, col) < |src| then src[Index(pitch, row, col)] else 0
  }

  /** Byte k of a 32-bit pixel as it lies in memory. */
  function PixelByte(v: nat, k: nat): nat
    requires k < 4
  {
    if k == 0 then v % 256 else if k == 1 then v / 256 % 256 else if k == 2 then v / 65536 % 256 else v / 16777216 % 256
  }

  /** A colour 0xRRGGBB lies in memory as red, green, blue in the RGB format, and the other way round in the other. */
  lemma PackBytes(isRgb: bool, r: nat, g: nat, b: nat)
    requires r < 256 && g < 256 && b < 256
    ensures var v := Pack(isRgb, r * 65536 + g * 256 + b);
            && PixelByte(v, 0) == (if isRgb then r else b) && PixelByte(v, 1) == g
            && PixelByte(v, 2) == (if isRgb then b else r) && PixelByte(v, 3) == 0
  {
    Channels(r, g, b);
    if isRgb { BytesOf(b, g, r); } else { BytesOf(r, g, b); }
    hide Red, Green, Blue, PixelByte;
  }

  lemma BytesOf(hi: nat, mid: nat, lo: nat)
    requires hi < 256 && mid < 256 && lo < 256
    ensures var v := hi * 65536 + mid * 256 + lo;
            PixelByte(v, 0) == lo && PixelByte(v, 1) == mid && PixelByte(v, 2) == hi && PixelByte(v, 3) == 0
  {
  }

  lemma Channels(r: nat, g: nat, b: nat)
    requires r < 256 && g < 256 && b < 256
    ensures var c := r * 65536 + g * 256 + b; Red(c) == r && Green(c) == g && Blue(c) == b
  {
  }

  lemma ThreeChannels(c: nat)
    requires c < 0x100_0000
    ensures Red(c) < 256 && Green(c) < 256 && Blue(c) < 256 && c == Red(c) * 65536 + Green(c) * 256 + Blue(c)
  {
  }

  /** Each channel of a mix is the weighted mean of the two, rounded down. */
  lemma MixOfChannels(top: nat, bottom: nat, step: nat, steps: nat)
    requires step <= steps && 0 < steps && 255 * steps < M
    ensures var m := Mix(top, bottom, step, steps);
            && m < 0x100_0000
            && Red(m) == (Red(top) * (steps - step) + Red(bottom) * step) / steps
            && Green(m) == (Green(top) * (steps - step) + Green(bottom) * step) / steps
            && Blue(m) == (Blue(top) * (steps - step) + Blue(bottom) * step) / steps
  {
    OneChannel(Red(top), Red(bottom), step, steps);
    OneChannel(Green(top), Green(bottom), step, steps);
    OneChannel(Blue(top), Blue(bottom), step, steps);
    hide MixChannel;
    Channels(MixChannel(Red(top), Red(bottom), step, steps), MixChannel(Green(top), Green(bottom), step, steps),
             MixChannel(Blue(top), Blue(bottom), step, steps));
  }

  lemma OneChannel(a: nat, b: nat, step: nat, steps: nat)
    requires a < 256 && b < 256 && step <= steps && 0 < steps && 255 * steps < M
    ensures MixChannel(a, b, step, steps) == (a * (steps - step) + b * step) / steps
    ensures MixChannel(a, b, step, steps) < 256
  {
    SumBetween(a, b, step, steps, 0, 255);
    hide MixChannel, MixSum;
    MixChannelRange(a, b, step, steps);
    MixIsQuotient(a, b, step, steps, 255);
    SumIs(a, b, step, steps);
  }

  lemma SumIs(a: nat, b: nat, step: nat, steps: nat)
    ensures MixSum(a, b, step, steps) == a * (steps - step) + b * step
  {
  }

  /** A gradient starts with its top colour and, over more than one row, ends with its bottom colour. */
  lemma GradientEnds(r: Rect, top: nat, bottom: nat, isRgb: bool, pitch: nat, col: nat)
    requires r.height > 0 && 255 * (r.height - 1) < M && top < 0x100_0000 && bottom < 0x100_0000
    ensures var job := Job(r, Gradient(top, bottom, 0, r.height, isRgb));
            && ColorAt(job, pitch, r.y, col) == Pack(isRgb, top)
            && (r.height > 1 ==> ColorAt(job, pitch, r.y + r.height - 1, col) == Pack(isRgb, bottom))
  {
    var steps := Steps(r.height);
    MixAtEnds(top, bottom, steps);
  }

  lemma MixAtEnds(top: nat, bottom: nat, steps: int)
    requires 0 < steps && 255 * steps < M && top < 0x100_0000 && bottom < 0x100_0000
    ensures Mix(top, bottom, 0, steps) == top && Mix(top, bottom, steps, steps) == bottom
  {
    ThreeChannels(top);
    ThreeChannels(bottom);
    hide Red, Green, Blue, MixChannel;
    MixChannelRange(Red(top), Red(bottom), 0, steps);
    MixChannelRange(Green(top), Green(bottom), 0, steps);
    MixChannelRange(Blue(top), Blue(bottom), 0, steps);
  }

  datatype Write = Write(index: nat, value: int)

  function PixelWrite(job: Job, pitch: nat, row: nat, col: nat): Write
  {
    Write(Index(pitch, row, col), ColorAt(job, pitch, row, col))
  }

  ghost predicate IsPixelOf(w: Write, job: Job, pitch: nat)
  {
    exists row: nat, col: nat :: job.rect.Has(row, col) && w == PixelWrite(job, pitch, row, col)
  }

  /** The writes are those of the job: only its pixels, and all of them. */
  ghost predicate Performs(job: Job, pitch: nat, ws: seq<Write>)
  {
    && (forall w :: w in ws ==> IsPixelOf(w, job, pitch))
    && (forall row: nat, col: nat :: job.rect.Has(row, col) ==> PixelWrite(job, pitch, row, col) in ws)
  }

  /** The job's rows lie in a frame buffer of that many pixels, each row within one scan line. */
  predicate Fits(job: Job, pitch: nat, pixels: nat)
  {
    && job.rect.x + job.rect.width <= pitch && (job.rect.y + job.rect.height) * pitch <= pixels
    && (job.paint.Copy? ==> |job.paint.src| >= pixels)
  }

  predicate InBounds(ws: seq<Write>, n: nat)
  {
    forall w :: w in ws ==> w.index < n
  }

  /** The frame buffer after the writes. */
  function Apply(fb: seq<int>, ws: seq<Write>): (r: seq<int>)
    ensures |r| == |fb|
  {
    if ws == [] then fb
    else
      var before, w := Apply(fb, ws[..|ws| - 1]), ws[|ws| - 1];
      if w.index < |fb| then before[w.index := w.value] else before
  }

  lemma {:induction false} ApplyTwice(fb: seq<int>, ws: seq<Write>, vs: seq<Write>)
    ensures Apply(fb, ws + vs) == Apply(Apply(fb, ws), vs)
    decreases |vs|
  {
    if vs == [] {
      assert ws + vs == ws;
    } else {
      ApplyTwice(fb, ws, vs[..|vs| - 1]);
      assert (ws + vs)[..|ws + vs| - 1] == ws + vs[..|vs| - 1];
    }
  }

  ghost predicate Touches(ws: seq<Write>, i: nat)
  {
    exists w :: w in ws && w.index == i
  }

  /** If all writes to i agree, their order does not matter. */
  lemma {:induction false} ApplyAt(fb: seq<int>, ws: seq<Write>, i: nat, v: int)
    requires i < |fb| && forall w :: w in ws && w.index == i ==> w.value == v
    ensures Apply(fb, ws)[i] == if Touches(ws, i) then v else fb[i]
    decreases |ws|
  {
    if ws != [] {
      var rest, last := ws[..|ws| - 1], ws[|ws| - 1];
      assert ws == rest + [last];
      assert forall w :: w in ws <==> w in rest || w == last;
      ApplyAt(fb, rest, i, v);
      if last.index == i { assert last in ws && Touches(ws, i); }
      else if Touches(ws, i) { var w :| w in ws && w.index == i; assert w in rest && Touches(rest, i); }
    }
  }

  /** Pixels of one scan line do not spill into another. */
  lemma IndexUnique(pitch: nat, row: nat, col: nat, row': nat, col': nat)
    requires col < pitch && col' < pitch && Index(pitch, row, col) == Index(pitch, row', col')
    ensures row == row' && col == col'
  {
    if row < row' { RowsApart(pitch, row, row'); } else if row' < row { RowsApart(pitch, row', row); }
  }

  lemma RowsApart(pitch: nat, row: nat, row': nat)
    requires row < row'
    ensures row * pitch + pitch <= row' * pitch
  {
    assert (row' - row - 1) * pitch >= 0;
    assert row' * pitch == row * pitch + pitch + (row' - row - 1) * pitch;
  }

  /** The pixel (row, col) after a job: its colour inside the rectangle, what it was outside. */
  ghost function Expected(fb: seq<int>, job: Job, pitch: nat, row: nat, col: nat): int
    requires Index(pitch, row, col) < |fb|
  {
    if job.rect.Has(row, col) then ColorAt(job, pitch, row, col) else fb[Index(pitch, row, col)]
  }

  /** Whatever the order of a job's writes, every pixel ends as expected. */
  lemma AnyOrder(fb: seq<int>, job: Job, pitch: nat, ws: seq<Write>, row: nat, col: nat)
    requires Performs(job, pitch, ws) && Fits(job, pitch, |fb|) && col < pitch && Index(pitch, row, col) < |fb|
    ensures Apply(fb, ws)[Index(pitch, row, col)] == Expected(fb, job, pitch, row, col)
  {
    var i, v := Index(pitch, row, col), ColorAt(job, pitch, row, col);
    forall w | w in ws && w.index == i ensures w.value == v && job.rect.Has(row, col) {
      var r: nat, c: nat :| job.rect.Has(r, c) && w == PixelWrite(job, pitch, r, c);
      IndexUnique(pitch, r, c, row, col);
    }
    ApplyAt(fb, ws, i, v);
    if job.rect.Has(row, col) { assert PixelWrite(job, pitch, row, col) in ws && Touches(ws, i); }
  }

  lemma RowAndColumn(pitch: nat, i: nat)
    requires pitch > 0
    ensures 0 <= i / pitch && 0 <= i % pitch < pitch && Index(pitch, i / pitch, i % pitch) == i
  {
  }

  /** Two series of writes that both perform the job leave the same frame buffer. */
  lemma SameResult(fb: seq<int>, job: Job, pitch: nat, ws: seq<Write>, vs: seq<Write>)
    requires pitch > 0 && Performs(job, pitch, ws) && Performs(job, pitch, vs) && Fits(job, pitch, |fb|)
    ensures Apply(fb, ws) == Apply(fb, vs)
  {
    hide Performs, Fits, Apply, Index;
    forall i | 0 <= i < |fb| ensures Apply(fb, ws)[i] == Apply(fb, vs)[i] {
      var row, col := i / pitch, i % pitch;
      RowAndColumn(pitch, i);
      AnyOrder(fb, job, pitch, ws, row, col);
      AnyOrder(fb, job, pitch, vs, row, col);
    }
  }

  // ---- Fork and join ----------------------------------------------------------------------------------------------

  /** all is an interleaving of the logs: each log's writes in its own order. */
  ghost predicate Interleaves(all: seq<Write>, logs: seq<seq<Write>>)
    decreases |all|
  {
    if all == [] then forall j :: 0 <= j < |logs| ==> logs[j] == []
    else exists j :: 0 <= j < |logs| && TakenFrom(all, logs, j)
  }

  ghost predicate TakenFrom(all: seq<Write>, logs: seq<seq<Write>>, j: nat)
    requires j < |logs| && all != []
    decreases |all|, 0
  {
    logs[j] != [] && logs[j][0] == all[0] && Interleaves(all[1..], logs[j := logs[j][1..]])
  }

  ghost predicate InSome(w: Write, logs: seq<seq<Write>>)
  {
    exists j :: 0 <= j < |logs| && w in logs[j]
  }

  /** An interleaving has exactly the writes of its logs. */
  lemma {:induction false} InterleavesSame(all: seq<Write>, logs: seq<seq<Write>>, w: Write)
    requires Interleaves(all, logs)
    ensures w in all <==> InSome(w, logs)
    decreases |all|
  {
    if all != [] {
      var j :| 0 <= j < |logs| && TakenFrom(all, logs, j);
      var rest := logs[j := logs[j][1..]];
      InterleavesSame(all[1..], rest, w);
      assert all == [all[0]] + all[1..] && logs[j] == [logs[j][0]] + logs[j][1..];
      if InSome(w, rest) {
        var k :| 0 <= k < |rest| && w in rest[k];
        assert w in logs[k];
      }
      if InSome(w, logs) {
        var k :| 0 <= k < |logs| && w in logs[k];
        if k != j { assert w in rest[k]; } else if w != all[0] { assert w in rest[j]; }
      }
    }
  }

  /** The job for one band, as graphics_fill_rect and its siblings set it up. */
  function BandJob(whole: Job, band: Rect): Job
    requires band.y >= whole.rect.y
  {
    var paint := whole.paint;
    Job(band, if paint.Gradient? then paint.(start := paint.start + band.y - whole.rect.y) else paint)
  }

  lemma BandColor(whole: Job, band: Rect, pitch: nat, row: nat, col: nat)
    requires band.y >= whole.rect.y
    ensures PixelWrite(BandJob(whole, band), pitch, row, col) == PixelWrite(whole, pitch, row, col)
  {
  }

  lemma BandBelowTop(bands: seq<Rect>, whole: Rect, i: nat)
    requires Stacked(bands, whole) && i < |bands|
    ensures bands[i].y >= whole.y
  {
    TopGrows(bands, whole, 0, i);
  }

  /** Each log performs the job of its band. */
  ghost predicate LogsOk(whole: Job, bands: seq<Rect>, pitch: nat, logs: seq<seq<Write>>)
    requires Stacked(bands, whole.rect)
  {
    |logs| == |bands| &&
    forall i :: 0 <= i < |bands| ==> bands[i].y >= whole.rect.y && Performs(BandJob(whole, bands[i]), pitch, logs[i])
  }

  lemma BandsPerform(whole: Job, bands: seq<Rect>, pitch: nat, logs: seq<seq<Write>>, all: seq<Write>)
    requires Stacked(bands, whole.rect) && LogsOk(whole, bands, pitch, logs) && Interleaves(all, logs)
    ensures Performs(whole, pitch, all)
  {
    forall w | w in all ensures IsPixelOf(w, whole, pitch) {
      InterleavesSame(all, logs, w);
      var i :| 0 <= i < |logs| && w in logs[i];
      BandPixel(whole, bands, pitch, i, w);
    }
    forall row: nat, col: nat | whole.rect.Has(row, col) ensures PixelWrite(whole, pitch, row, col) in all {
      BandsPartition(bands, whole.rect, row, col);
      var i :| 0 <= i < |bands| && bands[i].Has(row, col);
      BandColor(whole, bands[i], pitch, row, col);
      assert PixelWrite(whole, pitch, row, col) in logs[i];
      InterleavesSame(all, logs, PixelWrite(whole, pitch, row, col));
    }
  }

  lemma BandPixel(whole: Job, bands: seq<Rect>, pitch: nat, i: nat, w: Write)
    requires Stacked(bands, whole.rect) && i < |bands| && bands[i].y >= whole.rect.y
    requires IsPixelOf(w, BandJob(whole, bands[i]), pitch)
    ensures IsPixelOf(w, whole, pitch)
  {
    var row: nat, col: nat :| bands[i].Has(row, col) && w == PixelWrite(BandJob(whole, bands[i]), pitch, row, col);
    BandColor(whole, bands[i], pitch, row, col);
    BandsPartition(bands, whole.rect, row, col);
  }

  /** Any interleaving of the band jobs leaves the frame buffer that a single job leaves. */
  lemma ForkJoin(fb: seq<int>, whole: Job, bands: seq<Rect>, pitch: nat, logs: seq<seq<Write>>, all: seq<Write>,
                 single: seq<Write>)
    requires pitch > 0 && Fits(whole, pitch, |fb|) && Stacked(bands, whole.rect)
    requires LogsOk(whole, bands, pitch, logs) && Interleaves(all, logs) && Performs(whole, pitch, single)
    ensures Apply(fb, all) == Apply(fb, single)
  {
    BandsPerform(whole, bands, pitch, logs, all);
    SameResult(fb, whole, pitch, all, single);
  }

  // ---- The loops --------------------------------------------------------------------------------------------------

  /** The writes of one row of a job, from left to right. */
  ghost predicate IsRow(ws: seq<Write>, job: Job, pitch: nat, row: nat)
  {
    |ws| == job.rect.width && forall k :: 0 <= k < |ws| ==> ws[k] == PixelWrite(job, pitch, row, job.rect.x + k)
  }

  /** The first rows of a job. */
  function FirstRows(job: Job, n: nat): Job
  {
    job.(rect := job.rect.(height := n))
  }

  /** One more row of a job. */
  lemma AddRow(job: Job, pitch: nat, n: nat, ws: seq<Write>, rowWrites: seq<Write>)
    requires Performs(FirstRows(job, n), pitch, ws) && IsRow(rowWrites, job, pitch, job.rect.y + n)
    ensures Performs(FirstRows(job, n + 1), pitch, ws + rowWrites)
  {
    var before, after := FirstRows(job, n), FirstRows(job, n + 1);
    forall row: nat, col: nat ensures PixelWrite(before, pitch, row, col) == PixelWrite(job, pitch, row, col) { }
    forall row: nat, col: nat ensures PixelWrite(after, pitch, row, col) == PixelWrite(job, pitch, row, col) { }
    hide PixelWrite;
    forall w | w in ws ensures IsPixelOf(w, after, pitch) {
      var row: nat, col: nat :| before.rect.Has(row, col) && w == PixelWrite(before, pitch, row, col);
      assert after.rect.Has(row, col) && w == PixelWrite(after, pitch, row, col);
    }
    forall w | w in rowWrites ensures IsPixelOf(w, after, pitch) {
      var k :| 0 <= k < |rowWrites| && rowWrites[k] == w;
      var row: nat, col: nat := job.rect.y + n, job.rect.x + k;
      assert after.rect.Has(row, col) && w == PixelWrite(after, pitch, row, col);
    }
    forall row: nat, col: nat | after.rect.Has(row, col) ensures PixelWrite(after, pitch, row, col) in ws + rowWrites {
      if row == job.rect.y + n {
        assert rowWrites[col - job.rect.x] == PixelWrite(after, pitch, row, col);
      } else {
        assert before.rect.Has(row, col) && PixelWrite(before, pitch, row, col) in ws;
      }
    }
  }

  /** A row of a job lies in the frame buffer. */
  lemma RowFits(job: Job, pitch: nat, pixels: nat, n: nat)
    requires Fits(job, pitch, pixels) && n < job.rect.height
    ensures Index(pitch, job.rect.y + n, job.rect.x) + job.rect.width <= pixels
  {
    RowsApart(pitch, job.rect.y + n, job.rect.y + job.rect.height);
  }

  lemma ApplyOne(fb: seq<int>, ws: seq<Write>, w: Write)
    ensures Apply(fb, ws + [w]) == if w.index < |fb| then Apply(fb, ws)[w.index := w.value] else Apply(fb, ws)
  {
    assert (ws + [w])[..|ws|] == ws;
  }

  /** The inner loop of graphics_fill_job and graphics_gradient_job. */
  method FillRow(fb: array<int>, job: Job, pitch: nat, row: nat, base: nat, color: int) returns (ghost ws: seq<Write>)
    requires base == Index(pitch, row, job.rect.x) && base + job.rect.width <= fb.Length && !job.paint.Copy?
    requires forall col: nat :: ColorAt(job, pitch, row, col) == color
    modifies fb
    ensures IsRow(ws, job, pitch, row) && fb[..] == Apply(old(fb[..]), ws)
  {
    hide ColorAt;
    ws := [];
    var xx := 0;
    while xx < job.rect.width
      invariant 0 <= xx <= job.rect.width && |ws| == xx && fb[..] == Apply(old(fb[..]), ws)
      invariant forall k :: 0 <= k < xx ==> ws[k] == PixelWrite(job, pitch, row, job.rect.x + k)
    {
      ghost var w := PixelWrite(job, pitch, row, job.rect.x + xx);
      ApplyOne(old(fb[..]), ws, w);
      assert w == Write(base + xx, color);
      fb[base + xx] := color;
      ws := ws + [w];
      xx := xx + 1;
    }
  }

  /** The inner loop of graphics_blit_job: pairs of pixels, then the odd one. */
  method BlitRow(fb: array<int>, src: array<int>, job: Job, pitch: nat, row: nat, base: nat)
    returns (ghost ws: seq<Write>)
    requires base == Index(pitch, row, job.rect.x) && base + job.rect.width <= fb.Length <= src.Length && fb != src
    requires job.paint == Copy(src[..])
    modifies fb
    ensures IsRow(ws, job, pitch, row) && fb[..] == Apply(old(fb[..]), ws)
  {
    ws := [];
    var xx := 0;
    while xx + 1 < job.rect.width
      invariant 0 <= xx == |ws| <= job.rect.width && fb[..] == Apply(old(fb[..]), ws)
      invariant forall k :: 0 <= k < xx ==> ws[k] == PixelWrite(job, pitch, row, job.rect.x + k)
    {
      ghost var w0 := CopyOne(fb, src, job, pitch, row, base, xx, old(fb[..]), ws);
      ghost var w1 := CopyOne(fb, src, job, pitch, row, base, xx + 1, old(fb[..]), ws + [w0]);
      ws := ws + [w0] + [w1];
      xx := xx + 2;
    }
    if xx < job.rect.width {
      ghost var w := CopyOne(fb, src, job, pitch, row, base, xx, old(fb[..]), ws);
      ws := ws + [w];
    }
  }

  method CopyOne(fb: array<int>, src: array<int>, job: Job, pitch: nat, row: nat, base: nat, xx: nat,
                 ghost before: seq<int>, ghost ws: seq<Write>) returns (ghost w: Write)
    requires base == Index(pitch, row, job.rect.x) && base + job.rect.width <= fb.Length <= src.Length && fb != src
    requires job.paint == Copy(src[..]) && xx < job.rect.width && fb[..] == Apply(before, ws)
    modifies fb
    ensures w == PixelWrite(job, pitch, row, job.rect.x + xx) && fb[..] == Apply(before, ws + [w])
  {
    w := PixelWrite(job, pitch, row, job.rect.x + xx);
    ApplyOne(before, ws, w);
    assert w == Write(base + xx, src[base + xx]);
    fb[base + xx] := src[base + xx];
  }

  /** graphics_fill_job and graphics_gradient_job. */
  method RunPaintJob(fb: array<int>, job: Job, pitch: nat) returns (ghost ws: seq<Write>)
    requires Fits(job, pitch, fb.Length) && !job.paint.Copy?
    modifies fb
    ensures Performs(job, pitch, ws) && fb[..] == Apply(old(fb[..]), ws)
  {
    hide ColorAt, Mix, Pack, Performs, IsRow, Apply, Index;
    ws := [];
    NoRows(job, pitch, fb[..]);
    var yy := 0;
    while yy < job.rect.height
      invariant 0 <= yy <= job.rect.height
      invariant Performs(FirstRows(job, yy), pitch, ws) && fb[..] == Apply(old(fb[..]), ws)
    {
      ghost var was := fb[..];
      var row: nat := job.rect.y + yy;
      var color := RowColor(job, pitch, row);
      RowFits(job, pitch, fb.Length, yy);
      ghost var more := FillRow(fb, job, pitch, row, Index(pitch, row, job.rect.x), color);
      AddRow(job, pitch, yy, ws, more);
      ApplyTwice(old(fb[..]), ws, more);
      ws := ws + more;
      yy := yy + 1;
    }
  }

  /** The colour of a row, computed once before its pixels are written. */
  method RowColor(job: Job, pitch: nat, row: nat) returns (color: int)
    requires !job.paint.Copy?
    ensures forall col: nat :: ColorAt(job, pitch, row, col) == color
  {
    match job.paint
    case Solid(c) => color := c;
    case Gradient(top, bottom, start, total, isRgb) =>
      color := Pack(isRgb, Mix(top, bottom, start + row - job.rect.y, Steps(total)));
  }

  lemma NoRows(job: Job, pitch: nat, fb: seq<int>)
    ensures Performs(FirstRows(job, 0), pitch, []) && Apply(fb, []) == fb
  {
  }

  /** graphics_blit_job. */
  method RunBlitJob(fb: array<int>, src: array<int>, job: Job, pitch: nat) returns (ghost ws: seq<Write>)
    requires Fits(job, pitch, fb.Length) && job.paint == Copy(src[..]) && fb != src
    modifies fb
    ensures Performs(job, pitch, ws) && fb[..] == Apply(old(fb[..]), ws)
  {
    hide ColorAt, Performs, IsRow, Apply, Index;
    ws := [];
    NoRows(job, pitch, fb[..]);
    var yy := 0;
    while yy < job.rect.height
      invariant 0 <= yy <= job.rect.height && src[..] == old(src[..])
      invariant Performs(FirstRows(job, yy), pitch, ws) && fb[..] == Apply(old(fb[..]), ws)
    {
      var row: nat := job.rect.y + yy;
      RowFits(job, pitch, fb.Length, yy);
      ghost var more := BlitRow(fb, src, job, pitch, row, Index(pitch, row, job.rect.x));
      AddRow(job, pitch, yy, ws, more);
      ApplyTwice(old(fb[..]), ws, more);
      ws := ws + more;
      yy := yy + 1;
    }
  }

  // ---- Drawing operations -----------------------------------------------------------------------------------------

  const MIN_PIXELS: nat := 65536      // GRAPHICS_SMP_MIN_PIXELS

  function Concat(logs: seq<seq<Write>>): seq<Write>
  {
    if logs == [] then [] else logs[0] + Concat(logs[1..])
  }

  lemma {:induction false} ConcatAppend(logs: seq<seq<Write>>, log: seq<Write>)
    ensures Concat(logs + [log]) == Concat(logs) + log
    decreases |logs|
  {
    if logs == [] {
      assert logs + [log] == [log] && [log][1..] == [];
    } else {
      assert (logs + [log])[1..] == logs[1..] + [log];
      ConcatAppend(logs[1..], log);
    }
  }

  lemma {:induction false} OnlyEmpty(logs: seq<seq<Write>>)
    requires Concat(logs) == []
    ensures forall j :: 0 <= j < |logs| ==> logs[j] == []
    decreases |logs|
  {
    if logs != [] { OnlyEmpty(logs[1..]); }
  }

  /** Running the jobs one after the other is one of the interleavings. */
  lemma {:induction false} ConcatInterleaves(logs: seq<seq<Write>>)
    ensures Interleaves(Concat(logs), logs)
    decreases |Concat(logs)|
  {
    if Concat(logs) == [] {
      OnlyEmpty(logs);
    } else {
      var j := FirstNonEmpty(logs);
      ConcatInterleaves(logs[j := logs[j][1..]]);
      assert TakenFrom(Concat(logs), logs, j);
    }
  }

  lemma {:induction false} FirstNonEmpty(logs: seq<seq<Write>>) returns (j: nat)
    requires Concat(logs) != []
    ensures j < |logs| && logs[j] != [] && logs[j][0] == Concat(logs)[0]
    ensures Concat(logs[j := logs[j][1..]]) == Concat(logs)[1..]
    decreases |logs|
  {
    if logs[0] != [] {
      j := 0;
      assert logs[0 := logs[0][1..]][1..] == logs[1..];
      assert (logs[0] + Concat(logs[1..]))[1..] == logs[0][1..] + Concat(logs[1..]);
    } else {
      var k := FirstNonEmpty(logs[1..]);
      j := k + 1;
      assert logs[j := logs[j][1..]][1..] == logs[1..][k := logs[1..][k][1..]];
      assert Concat(logs) == Concat(logs[1..]);
    }
  }

  lemma BandFits(whole: Job, bands: seq<Rect>, pitch: nat, pixels: nat, i: nat)
    requires Stacked(bands, whole.rect) && Fits(whole, pitch, pixels) && i < |bands|
    ensures bands[i].y >= whole.rect.y && Fits(BandJob(whole, bands[i]), pitch, pixels)
  {
    hide Top;
    BandBelowTop(bands, whole.rect, i);
    TopGrows(bands, whole.rect, i, |bands|);
    RowsUpTo(pitch, bands[i].y + bands[i].height, whole.rect.y + whole.rect.height);
  }

  lemma RowsUpTo(pitch: nat, a: nat, b: nat)
    requires a <= b
    ensures a * pitch <= b * pitch
  {
    if a < b { RowsApart(pitch, a, b); }
  }

  method RunJob(fb: array<int>, back: array?<int>, job: Job, pitch: nat) returns (ghost ws: seq<Write>)
    requires Fits(job, pitch, fb.Length)
    requires job.paint.Copy? ==> back != null && back != fb && job.paint.src == back[..]
    modifies fb
    ensures Performs(job, pitch, ws) && fb[..] == Apply(old(fb[..]), ws)
  {
    if job.paint.Copy? { ws := RunBlitJob(fb, back, job, pitch); } else { ws := RunPaintJob(fb, job, pitch); }
  }

  /** The end of graphics_fill_rect and graphics_fill_vertical_gradient: one job, or one for each worker. */
  method DrawClipped(fb: array<int>, back: array?<int>, job: Job, pitch: nat, cores: nat) returns (ghost ws: seq<Write>)
    requires Fits(job, pitch, fb.Length) && job.rect.height > 0
    requires job.paint.Copy? ==> back != null && back != fb && job.paint.src == back[..]
    modifies fb
    ensures Performs(job, pitch, ws) && fb[..] == Apply(old(fb[..]), ws)
  {
    hide Performs, Apply, Fits, BandJob, Stacked;
    var workers := WorkerCount(cores, job.rect.height);
    if workers > 1 && job.rect.width * job.rect.height >= MIN_PIXELS {
      var bands := CutBands(job.rect, workers);
      ghost var logs: seq<seq<Write>> := [];
      NoRows(job, pitch, fb[..]);
      var i := 0;
      while i < workers
        invariant 0 <= i <= workers == |bands| && |logs| == i && fb[..] == Apply(old(fb[..]), Concat(logs))
        invariant job.paint.Copy? ==> job.paint.src == back[..]
        invariant forall k :: 0 <= k < i ==>
          bands[k].y >= job.rect.y && Performs(BandJob(job, bands[k]), pitch, logs[k])
      {
        BandFits(job, bands, pitch, fb.Length, i);
        KeepsPaint(job, bands[i]);
        ghost var log := RunJob(fb, back, BandJob(job, bands[i]), pitch);
        ApplyTwice(old(fb[..]), Concat(logs), log);
        ConcatAppend(logs, log);
        logs := logs + [log];
        i := i + 1;
      }
      ConcatInterleaves(logs);
      ws := Concat(logs);
      BandsPerform(job, bands, pitch, logs, ws);
    } else {
      ws := RunJob(fb, back, job, pitch);
    }
  }

  lemma KeepsPaint(whole: Job, band: Rect)
    requires band.y >= whole.rect.y
    ensures BandJob(whole, band).paint.Copy? <==> whole.paint.Copy?
    ensures whole.paint.Copy? ==> BandJob(whole, band).paint == whole.paint
  {
  }

  /** The pixels of a screen after drawing: the wanted ones have the job's colour, the others are as they were. */
  ghost predicate Drawn(s: Screen, before: seq<int>, after: seq<int>, x: nat, y: nat, width: nat, height: nat, job: Job)
  {
    && |after| == |before|
    && forall row: nat, col: nat :: col < s.pitch && Index(s.pitch, row, col) < |before| ==>
         after[Index(s.pitch, row, col)] ==
         if Wanted(s, x, y, width, height, row, col) then ColorAt(job, s.pitch, row, col)
         else before[Index(s.pitch, row, col)]
  }

  lemma DrawnByJob(s: Screen, before: seq<int>, x: nat, y: nat, width: nat, height: nat, job: Job, ws: seq<Write>)
    requires Performs(job, s.pitch, ws) && Fits(job, s.pitch, |before|)
    requires forall row: nat, col: nat :: job.rect.Has(row, col) <==> Wanted(s, x, y, width, height, row, col)
    ensures Drawn(s, before, Apply(before, ws), x, y, width, height, job)
  {
    hide Performs, Fits, Apply, Wanted, ColorAt, Index;
    forall row: nat, col: nat | col < s.pitch && Index(s.pitch, row, col) < |before|
      ensures Apply(before, ws)[Index(s.pitch, row, col)] ==
              if Wanted(s, x, y, width, height, row, col) then ColorAt(job, s.pitch, row, col)
              else before[Index(s.pitch, row, col)] {
      AnyOrder(before, job, s.pitch, ws, row, col);
    }
  }

  lemma RectFits(s: Screen, job: Job, pixels: nat)
    requires ScreenOk(s) && s.height * s.pitch <= pixels && (job.paint.Copy? ==> |job.paint.src| >= pixels)
    requires job.rect.x + job.rect.width <= s.width && job.rect.y + job.rect.height <= s.height
    ensures Fits(job, s.pitch, pixels)
  {
    RowsUpTo(s.pitch, job.rect.y + job.rect.height, s.height);
  }

  /** graphics_fill_rect. */
  method FillRect(fb: array<int>, s: Screen, x: nat, y: nat, width: nat, height: nat, rgb: nat, isRgb: bool, cores: nat)
    requires ScreenOk(s) && s.height * s.pitch <= fb.Length && x < M && y < M && width < M && height < M
    modifies fb
    ensures Drawn(s, old(fb[..]), fb[..], x, y, width, height, Job(Rect(0, 0, 0, 0), Solid(Pack(isRgb, rgb))))
  {
    hide ScreenOk, Performs, Apply, Fits, Wanted, Index, Pack;
    var ok, r := ClipRect(s, x, y, width, height);
    if !ok { return; }
    ghost var before := fb[..];
    var job := Job(r, Solid(Pack(isRgb, rgb)));
    RectFits(s, job, fb.Length);
    ghost var ws := DrawClipped(fb, null, job, s.pitch, cores);
    DrawnByJob(s, before, x, y, width, height, job, ws);
  }

  /** graphics_fill_vertical_gradient: the steps run over the clipped rectangle. */
  method FillGradient(fb: array<int>, s: Screen, x: nat, y: nat, width: nat, height: nat,
                      top: nat, bottom: nat, isRgb: bool, cores: nat) returns (ghost r: Rect)
    requires ScreenOk(s) && s.height * s.pitch <= fb.Length && x < M && y < M && width < M && height < M
    modifies fb
    ensures forall row: nat, col: nat :: r.Has(row, col) <==> Wanted(s, x, y, width, height, row, col)
    ensures Drawn(s, old(fb[..]), fb[..], x, y, width, height, Job(r, Gradient(top, bottom, 0, r.height, isRgb)))
  {
    hide ScreenOk, Performs, Apply, Fits, Wanted, Index;
    var ok, clip := ClipRect(s, x, y, width, height);
    if !ok { return Rect(0, 0, 0, 0); }
    r := clip;
    ghost var before := fb[..];
    var job := Job(clip, Gradient(top, bottom, 0, clip.height, isRgb));
    RectFits(s, job, fb.Length);
    ghost var ws := DrawClipped(fb, null, job, s.pitch, cores);
    DrawnByJob(s, before, x, y, width, height, job, ws);
  }

  /** graphics_backbuffer_flush_rect: the rectangle, clipped to the screen, is copied from the back buffer. */
  method FlushRect(fb: array<int>, back: array<int>, s: Screen, x: nat, y: nat, width: nat, height: nat, cores: nat)
    requires ScreenOk(s) && s.height * s.pitch <= fb.Length <= back.Length && fb != back
    requires x < M && y < M && width < M && height < M
    modifies fb
    ensures forall row: nat, col: nat :: col < s.pitch && Index(s.pitch, row, col) < fb.Length ==>
              fb[Index(s.pitch, row, col)] ==
              if OnScreenPart(s, x, y, width, height, row, col)
              then back[Index(s.pitch, row, col)] else old(fb[Index(s.pitch, row, col)])
  {
    hide ScreenOk, Performs, Apply, Fits, Index;
    var ok, r := ClipFlush(s, x, y, width, height);
    if !ok { return; }
    ghost var before, job := fb[..], Job(r, Copy(back[..]));
    RectFits(s, job, fb.Length);
    ghost var ws := DrawClipped(fb, back, Job(r, Copy(back[..])), s.pitch, cores);
    forall row: nat, col: nat | col < s.pitch && Index(s.pitch, row, col) < fb.Length
      ensures fb[Index(s.pitch, row, col)] == Expected(before, job, s.pitch, row, col) {
      AnyOrder(before, job, s.pitch, ws, row, col);
      assert fb[Index(s.pitch, row, col)] == fb[..][Index(s.pitch, row, col)];
    }
  }
}
