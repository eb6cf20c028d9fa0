/** The chunk planner of the file chunker: given the lines of a document, a
    chunk size and an overlap percentage, it lists the overlapping chunks the
    document is split into.

    The planner is a loop (PlanChunks) that appends one entry per chunk, as
    the program does; it is proved equal to a reference (Plan) that states
    each chunk directly: chunk k starts at zero-based line k * step, and the
    number of chunks is given in closed form by ChunkCount. The properties
    the chunker promises are lemmas about Plan. */
module ChunkPlan {

  /** One planned chunk, as the planner records it. */
  datatype ChunkEntry = ChunkEntry(
    number: nat,          // sequence number, from 1
    startLine: nat,       // first line, 1-based, inclusive
    endLine: nat,         // last line, 1-based, inclusive
    lines: seq<string>,   // the payload: the lines of the chunk
    overlapLines: nat,    // overlap with the previous chunk, as reported
    lineCount: nat)       // number of lines in the chunk

  /** The planner's answer once the configuration is checked first. */
  datatype Checked = Planned(chunks: seq<ChunkEntry>) | ConfigError(step: int)

  function Min(a: int, b: int): int { if a <= b then a else b }

  /** The number of lines a chunk shares with its predecessor: the configured
      percentage of the chunk size, rounded down, but never less than one. */
  function OverlapLines(chunkSize: nat, overlapPercent: nat): (r: nat)
    ensures r >= 1
    ensures r == 1 || r * 100 <= chunkSize * overlapPercent
    ensures chunkSize * overlapPercent < (r + 1) * 100
  {
    var share := chunkSize * overlapPercent / 100;
    if share < 1 then 1 else share
  }

  /** How far the window moves from one chunk's start to the next. */
  function Step(chunkSize: nat, overlapPercent: nat): (r: int)
    ensures r < chunkSize
  {
    chunkSize - OverlapLines(chunkSize, overlapPercent)
  }

  /** The planning loop stops: either the window advances, or the first
      chunk already reaches the end of the document. */
  predicate LoopEnds(totalLines: nat, chunkSize: nat, overlapPercent: nat)
  {
    Step(chunkSize, overlapPercent) > 0 || totalLines <= chunkSize
  }

  function CeilDiv(a: nat, b: int): nat
    requires b > 0
  {
    (a + b - 1) / b
  }

  lemma CeilDivBounds(a: nat, b: int)
    requires a > 0 && b > 0
    ensures CeilDiv(a, b) >= 1
    ensures CeilDiv(a, b) * b >= a
    ensures (CeilDiv(a, b) - 1) * b < a
  {
    var q, r := (a + b - 1) / b, (a + b - 1) % b;
    assert a + b - 1 == q * b + r && 0 <= r < b;
    assert (q - 1) * b == q * b - b;
    if q <= 0 {
      MulMono(q, 0, b);
    }
  }

  lemma MulMono(x: int, y: int, c: int)
    requires x <= y && c >= 0
    ensures x * c <= y * c
  {
    assert y * c - x * c == (y - x) * c;
  }

  /** start_idx after k passes of the program's loop that did not break:
      the start of chunk k. */
  function StartAfter(step: int, k: nat): int
  {
    if k == 0 then 0 else StartAfter(step, k - 1) + step
  }

  /** The program's running sum of steps is the closed form's k * step. */
  lemma {:induction false} StartAfterIsMultiple(step: int, k: nat)
    ensures StartAfter(step, k) == k * step
  {
    if k > 0 {
      StartAfterIsMultiple(step, k - 1);
      assert k * step == (k - 1) * step + step;
    }
  }

  /** The number of chunks the planner emits. */
  function ChunkCount(totalLines: nat, chunkSize: nat, overlapPercent: nat): nat
    requires LoopEnds(totalLines, chunkSize, overlapPercent)
  {
    if totalLines == 0 then 0
    else if totalLines <= chunkSize then 1
    else 1 + CeilDiv(totalLines - chunkSize, Step(chunkSize, overlapPercent))
  }

  /** Where chunk k starts (zero-based), and whether it is the last one. */
  lemma StartOf(totalLines: nat, chunkSize: nat, overlapPercent: nat, k: nat)
    requires LoopEnds(totalLines, chunkSize, overlapPercent)
    requires k < ChunkCount(totalLines, chunkSize, overlapPercent)
    ensures k > 0 ==> Step(chunkSize, overlapPercent) > 0
    ensures 0 <= StartAfter(Step(chunkSize, overlapPercent), k) < totalLines
    ensures k + 1 < ChunkCount(totalLines, chunkSize, overlapPercent)
            <==> StartAfter(Step(chunkSize, overlapPercent), k) + chunkSize < totalLines
  {
    var step := Step(chunkSize, overlapPercent);
    StartAfterIsMultiple(step, k);
    if totalLines <= chunkSize {
      assert k == 0;
    } else {
      var a := totalLines - chunkSize;
      var m := CeilDiv(a, step);
      CeilDivBounds(a, step);
      assert k <= m;
      MulMono(k, m, step);
      assert (m - 1) * step == m * step - step;
      assert k * step < totalLines;
      MulMono(0, k, step);
      if k < m {
        MulMono(k, m - 1, step);
      } else {
        assert k * step >= a;
      }
    }
  }

  /** Chunk k of the plan, stated directly: it starts k steps into the
      document (zero-based line k * step) and ends a chunk later, or at the
      end of the document. */
  function EntryAt(lines: seq<string>, chunkSize: nat, overlapPercent: nat, k: nat): ChunkEntry
    requires LoopEnds(|lines|, chunkSize, overlapPercent)
    requires k < ChunkCount(|lines|, chunkSize, overlapPercent)
  {
    StartOf(|lines|, chunkSize, overlapPercent, k);
    var s := StartAfter(Step(chunkSize, overlapPercent), k);
    var e := Min(s + chunkSize, |lines|);
    ChunkEntry(k + 1, s + 1, e, lines[s..e],
               if k == 0 then 0 else OverlapLines(chunkSize, overlapPercent), e - s)
  }

  /** The reference plan: every chunk, in order. */
  function Plan(lines: seq<string>, chunkSize: nat, overlapPercent: nat): seq<ChunkEntry>
    requires LoopEnds(|lines|, chunkSize, overlapPercent)
  {
    var n := ChunkCount(|lines|, chunkSize, overlapPercent);
    seq(n, k requires 0 <= k < n => EntryAt(lines, chunkSize, overlapPercent, k))
  }

  /** The planning loop of the chunker: a window of chunkSize lines that
      moves by Step lines until a chunk reaches the last line. */
  method PlanChunks(lines: seq<string>, chunkSize: nat, overlapPercent: nat)
    returns (chunks: seq<ChunkEntry>)
    requires LoopEnds(|lines|, chunkSize, overlapPercent)
    ensures chunks == Plan(lines, chunkSize, overlapPercent)
  {
    var totalLines := |lines|;
    var overlapLines := OverlapLines(chunkSize, overlapPercent);
    var step := chunkSize - overlapLines;
    ghost var plan := Plan(lines, chunkSize, overlapPercent);
    chunks := [];
    var startIdx := 0;
    var chunkNum := 1;
    while startIdx < totalLines
      invariant chunkNum == |chunks| + 1
      invariant |chunks| <= |plan|
      invariant |plan| == 0 || |chunks| < |plan|
      invariant |chunks| < |plan| ==> startIdx < totalLines
      invariant startIdx == StartAfter(step, |chunks|)
      invariant chunks == plan[..|chunks|]
    {
      StartOf(totalLines, chunkSize, overlapPercent, |chunks|);
      var endIdx := Min(startIdx + chunkSize, totalLines);
      var actualStart, actualOverlap;
      if chunkNum > 1 {
        actualStart, actualOverlap := startIdx, overlapLines;
      } else {
        actualStart, actualOverlap := 0, 0;
      }
      var entry := ChunkEntry(chunkNum, actualStart + 1, endIdx,
                              lines[startIdx..endIdx], actualOverlap,
                              endIdx - startIdx);
      assert entry == plan[|chunks|];
      assert plan[..|chunks| + 1] == plan[..|chunks|] + [entry];
      chunks := chunks + [entry];
      if endIdx >= totalLines {
        assert |chunks| == |plan|;
        break;
      }
      StartOf(totalLines, chunkSize, overlapPercent, |chunks|);
      startIdx := startIdx + step;
      chunkNum := chunkNum + 1;
    }
    assert chunks == plan[..|chunks|];
  }

  /** The planner with the configuration checked first: a window that does
      not advance is refused instead of looped on. */
  method PlanChunksChecked(lines: seq<string>, chunkSize: nat, overlapPercent: nat)
    returns (r: Checked)
    ensures r.ConfigError? <==> Step(chunkSize, overlapPercent) <= 0
    ensures r.ConfigError? ==> r.step == Step(chunkSize, overlapPercent)
    ensures r.Planned? ==> r.chunks == Plan(lines, chunkSize, overlapPercent)
  {
    var step := Step(chunkSize, overlapPercent);
    if step <= 0 {
      return ConfigError(step);
    }
    var chunks := PlanChunks(lines, chunkSize, overlapPercent);
    return Planned(chunks);
  }
}
