/** What the chunker promises about the chunks it plans, proved of the
    reference plan (and so, through PlanChunks' postcondition, of the loop). */
module ChunkProperties {
  import opened ChunkPlan

  /** Chunks are numbered 1, 2, 3, ... in list order. */
  lemma PlanNumbering(lines: seq<string>, chunkSize: nat, overlapPercent: nat)
    requires LoopEnds(|lines|, chunkSize, overlapPercent)
    ensures var plan := Plan(lines, chunkSize, overlapPercent);
            forall i | 0 <= i < |plan| :: plan[i].number == i + 1
  {
  }

  /** The first chunk starts at line 1 and reports no overlap; every later
      chunk reports the configured overlap, which is at least one line. */
  lemma PlanOverlapReports(lines: seq<string>, chunkSize: nat, overlapPercent: nat)
    requires LoopEnds(|lines|, chunkSize, overlapPercent)
    ensures var plan := Plan(lines, chunkSize, overlapPercent);
            && (|lines| > 0 ==> |plan| > 0 && plan[0].startLine == 1 && plan[0].overlapLines == 0)
            && (forall i | 0 < i < |plan| ::
                  plan[i].overlapLines == OverlapLines(chunkSize, overlapPercent) >= 1)
  {
  }

  /** Chunk i is a non-empty range of at most chunkSize lines inside the
      document, and its payload is exactly those lines. */
  ghost predicate WellPlaced(entry: ChunkEntry, lines: seq<string>, chunkSize: nat)
  {
    && 1 <= entry.startLine <= entry.endLine <= |lines|
    && entry.lineCount == entry.endLine - entry.startLine + 1
    && 1 <= entry.lineCount <= chunkSize
    && entry.lines == lines[entry.startLine - 1 .. entry.endLine]
  }

  lemma EntryPlaced(lines: seq<string>, chunkSize: nat, overlapPercent: nat, i: nat)
    requires LoopEnds(|lines|, chunkSize, overlapPercent)
    requires i < |Plan(lines, chunkSize, overlapPercent)|
    ensures WellPlaced(Plan(lines, chunkSize, overlapPercent)[i], lines, chunkSize)
  {
    StartOf(|lines|, chunkSize, overlapPercent, i);
  }

  /** Every chunk is a non-empty range inside the document, no longer than
      the chunk size; its line count is the size of that range and its
      payload is exactly the document's lines in that range. */
  lemma PlanEntriesPlaced(lines: seq<string>, chunkSize: nat, overlapPercent: nat)
    requires LoopEnds(|lines|, chunkSize, overlapPercent)
    ensures var plan := Plan(lines, chunkSize, overlapPercent);
            forall i | 0 <= i < |plan| :: WellPlaced(plan[i], lines, chunkSize)
  {
    var plan := Plan(lines, chunkSize, overlapPercent);
    forall i | 0 <= i < |plan| ensures WellPlaced(plan[i], lines, chunkSize) {
      EntryPlaced(lines, chunkSize, overlapPercent, i);
    }
  }

  /** An empty document gives no chunks; otherwise the last chunk ends at the
      last line and no earlier chunk reaches it. */
  lemma PlanEnd(lines: seq<string>, chunkSize: nat, overlapPercent: nat)
    requires LoopEnds(|lines|, chunkSize, overlapPercent)
    ensures var plan := Plan(lines, chunkSize, overlapPercent);
            && (|plan| == 0 <==> |lines| == 0)
            && (|plan| > 0 ==> plan[|plan| - 1].endLine == |lines|)
            && (forall i | 0 <= i < |plan| - 1 :: plan[i].endLine < |lines|)
  {
    var plan := Plan(lines, chunkSize, overlapPercent);
    forall i | 0 <= i < |plan|
      ensures i < |plan| - 1 ==> plan[i].endLine < |lines|
      ensures i == |plan| - 1 ==> plan[i].endLine == |lines|
    {
      StartOf(|lines|, chunkSize, overlapPercent, i);
    }
  }

  /** next starts Step lines after prev, prev is full, and next re-reads
      exactly the last OverlapLines lines of prev. */
  ghost predicate Follows(prev: ChunkEntry, next: ChunkEntry, chunkSize: nat, overlapPercent: nat)
  {
    var overlap := OverlapLines(chunkSize, overlapPercent);
    && next.startLine == prev.startLine + Step(chunkSize, overlapPercent)
    && prev.lineCount == chunkSize
    && prev.endLine - next.startLine + 1 == overlap
    && overlap <= |next.lines|
    && overlap <= chunkSize == |prev.lines|
    && next.lines[..overlap] == prev.lines[chunkSize - overlap..]
  }

  lemma AdvanceAt(lines: seq<string>, chunkSize: nat, overlapPercent: nat, i: nat)
    requires LoopEnds(|lines|, chunkSize, overlapPercent)
    requires i + 1 < |Plan(lines, chunkSize, overlapPercent)|
    ensures var plan := Plan(lines, chunkSize, overlapPercent);
            Follows(plan[i], plan[i + 1], chunkSize, overlapPercent)
  {
    var plan := Plan(lines, chunkSize, overlapPercent);
    var overlap := OverlapLines(chunkSize, overlapPercent);
    var step := Step(chunkSize, overlapPercent);
    StartOf(|lines|, chunkSize, overlapPercent, i);
    StartOf(|lines|, chunkSize, overlapPercent, i + 1);
    var s := StartAfter(step, i);
    assert StartAfter(step, i + 1) == s + step;
    var e := Min(s + step + chunkSize, |lines|);
    assert plan[i] == EntryAt(lines, chunkSize, overlapPercent, i);
    assert plan[i + 1] == EntryAt(lines, chunkSize, overlapPercent, i + 1);
    assert plan[i].lines == lines[s..s + chunkSize];
    assert plan[i + 1].lines == lines[s + step..e];
    SharedLines(lines, s, step, chunkSize, e);
  }

  /** The lines two windows share, read from either window. */
  lemma SharedLines(lines: seq<string>, s: nat, step: nat, size: nat, e: nat)
    requires step <= size && s + size <= e <= |lines|
    ensures lines[s + step..e][..size - step] == lines[s..s + size][step..]
  {
  }

  /** Consecutive chunks start Step lines apart; every chunk but the last is
      full, and the next one re-reads exactly its last OverlapLines lines. */
  lemma PlanAdvance(lines: seq<string>, chunkSize: nat, overlapPercent: nat)
    requires LoopEnds(|lines|, chunkSize, overlapPercent)
    ensures var plan := Plan(lines, chunkSize, overlapPercent);
            forall i, j | 0 <= i && j == i + 1 < |plan| ::
              Follows(plan[i], plan[j], chunkSize, overlapPercent)
  {
    var plan := Plan(lines, chunkSize, overlapPercent);
    forall i, j | 0 <= i && j == i + 1 < |plan|
      ensures Follows(plan[i], plan[j], chunkSize, overlapPercent)
    {
      AdvanceAt(lines, chunkSize, overlapPercent, i);
    }
  }

  /** Each chunk starts no later than the line after the previous one ends. */
  ghost predicate Contiguous(chunks: seq<ChunkEntry>)
  {
    forall i | 0 <= i < |chunks| - 1 :: chunks[i + 1].startLine <= chunks[i].endLine + 1
  }

  /** Line l lies in the range of some chunk. */
  ghost predicate Covered(chunks: seq<ChunkEntry>, l: int)
  {
    exists i | 0 <= i < |chunks| :: chunks[i].startLine <= l <= chunks[i].endLine
  }

  lemma {:induction false} CoveredFrom(chunks: seq<ChunkEntry>, j: nat, l: int)
    requires Contiguous(chunks)
    requires j < |chunks| && chunks[j].startLine <= l <= chunks[|chunks| - 1].endLine
    ensures Covered(chunks, l)
    decreases |chunks| - j
  {
    if l <= chunks[j].endLine {
      assert chunks[j].startLine <= l <= chunks[j].endLine;
    } else {
      CoveredFrom(chunks, j + 1, l);
    }
  }

  /** A contiguous list of ranges from line 1 to line total covers every line
      in between. */
  lemma ContiguousCovers(chunks: seq<ChunkEntry>, total: nat)
    requires Contiguous(chunks)
    requires |chunks| > 0 && chunks[0].startLine == 1 && chunks[|chunks| - 1].endLine == total
    ensures forall l | 1 <= l <= total :: Covered(chunks, l)
  {
    forall l | 1 <= l <= total ensures Covered(chunks, l) {
      CoveredFrom(chunks, 0, l);
    }
  }

  /** The chunks cover the whole document, line 1 to the last line, without a
      gap, and never reach past it. */
  lemma PlanCoversDocument(lines: seq<string>, chunkSize: nat, overlapPercent: nat)
    requires LoopEnds(|lines|, chunkSize, overlapPercent)
    ensures var plan := Plan(lines, chunkSize, overlapPercent);
            && Contiguous(plan)
            && (forall l | 1 <= l <= |lines| :: Covered(plan, l))
            && (forall i | 0 <= i < |plan| :: 1 <= plan[i].startLine && plan[i].endLine <= |lines|)
  {
    var plan := Plan(lines, chunkSize, overlapPercent);
    PlanAdvance(lines, chunkSize, overlapPercent);
    PlanEnd(lines, chunkSize, overlapPercent);
    PlanOverlapReports(lines, chunkSize, overlapPercent);
    PlanEntriesPlaced(lines, chunkSize, overlapPercent);
    if |lines| > 0 {
      ContiguousCovers(plan, |lines|);
    }
  }

  /** s without its first n elements. */
  function Drop(s: seq<string>, n: nat): seq<string>
  {
    if n <= |s| then s[n..] else []
  }

  /** The first chunk followed by every later chunk without the lines it
      shares with its predecessor. */
  function Join(chunks: seq<ChunkEntry>, overlap: nat): seq<string>
  {
    if |chunks| == 0 then []
    else if |chunks| == 1 then chunks[0].lines
    else Join(chunks[..|chunks| - 1], overlap) + Drop(chunks[|chunks| - 1].lines, overlap)
  }

  lemma JoinStep(chunks: seq<ChunkEntry>, k: nat, overlap: nat)
    requires 2 <= k <= |chunks|
    ensures Join(chunks[..k], overlap) == Join(chunks[..k - 1], overlap) + Drop(chunks[k - 1].lines, overlap)
  {
    assert chunks[..k][..k - 1] == chunks[..k - 1];
  }

  /** The part of next that prev has not already delivered continues the
      document right after prev. */
  lemma DropOverlap(lines: seq<string>, prev: ChunkEntry, next: ChunkEntry, chunkSize: nat, overlapPercent: nat)
    requires WellPlaced(prev, lines, chunkSize) && WellPlaced(next, lines, chunkSize)
    requires Follows(prev, next, chunkSize, overlapPercent)
    ensures lines[..prev.endLine] + Drop(next.lines, OverlapLines(chunkSize, overlapPercent))
            == lines[..next.endLine]
  {
    var overlap := OverlapLines(chunkSize, overlapPercent);
    assert Drop(next.lines, overlap) == lines[prev.endLine..next.endLine];
    assert lines[..prev.endLine] + lines[prev.endLine..next.endLine] == lines[..next.endLine];
  }

  lemma {:induction false} JoinPrefix(lines: seq<string>, chunks: seq<ChunkEntry>,
                                      chunkSize: nat, overlapPercent: nat, k: nat)
    requires forall i | 0 <= i < |chunks| :: WellPlaced(chunks[i], lines, chunkSize)
    requires forall i, j | 0 <= i && j == i + 1 < |chunks| ::
               Follows(chunks[i], chunks[j], chunkSize, overlapPercent)
    requires 1 <= k <= |chunks| && chunks[0].startLine == 1
    ensures chunks[k - 1].endLine <= |lines|
    ensures Join(chunks[..k], OverlapLines(chunkSize, overlapPercent)) == lines[..chunks[k - 1].endLine]
  {
    var overlap := OverlapLines(chunkSize, overlapPercent);
    assert WellPlaced(chunks[k - 1], lines, chunkSize);
    if k == 1 {
      assert chunks[..1] == [chunks[0]];
    } else {
      JoinPrefix(lines, chunks, chunkSize, overlapPercent, k - 1);
      assert WellPlaced(chunks[k - 2], lines, chunkSize);
      assert Follows(chunks[k - 2], chunks[k - 1], chunkSize, overlapPercent);
      JoinStep(chunks, k, overlap);
      DropOverlap(lines, chunks[k - 2], chunks[k - 1], chunkSize, overlapPercent);
    }
  }

  /** Putting the chunks back together, dropping each later chunk's overlap,
      gives back the document. */
  lemma PlanReassembles(lines: seq<string>, chunkSize: nat, overlapPercent: nat)
    requires LoopEnds(|lines|, chunkSize, overlapPercent)
    ensures Join(Plan(lines, chunkSize, overlapPercent), OverlapLines(chunkSize, overlapPercent)) == lines
  {
    var plan := Plan(lines, chunkSize, overlapPercent);
    PlanEnd(lines, chunkSize, overlapPercent);
    if |plan| > 0 {
      PlanEntriesPlaced(lines, chunkSize, overlapPercent);
      PlanAdvance(lines, chunkSize, overlapPercent);
      PlanOverlapReports(lines, chunkSize, overlapPercent);
      JoinPrefix(lines, plan, chunkSize, overlapPercent, |plan|);
      assert plan[..|plan|] == plan;
    }
  }

  /** The chunk boundaries depend on the number of lines only, not on what
      the lines say. */
  lemma PlanShapeIgnoresContent(a: seq<string>, b: seq<string>, chunkSize: nat, overlapPercent: nat)
    requires |a| == |b| && LoopEnds(|a|, chunkSize, overlapPercent)
    ensures var pa, pb := Plan(a, chunkSize, overlapPercent), Plan(b, chunkSize, overlapPercent);
            && |pa| == |pb|
            && forall i | 0 <= i < |pa| ::
                 && pa[i].number == pb[i].number
                 && pa[i].startLine == pb[i].startLine
                 && pa[i].endLine == pb[i].endLine
                 && pa[i].overlapLines == pb[i].overlapLines
                 && pa[i].lineCount == pb[i].lineCount
  {
  }

  /** An overlap of 100 percent or more never lets the window advance. */
  lemma LargePercentStalls(chunkSize: nat, overlapPercent: nat)
    requires overlapPercent >= 100
    ensures Step(chunkSize, overlapPercent) <= 0
  {
    var r := OverlapLines(chunkSize, overlapPercent);
    if r < chunkSize {
      MulMono(100, overlapPercent, chunkSize);
      MulMono(r + 1, chunkSize, 100);
    }
  }

  /** Without LoopEnds the program's loop never stops: after any number of
      passes the loop guard still holds and the break is still not taken. */
  lemma {:induction false} StalledLoopNeverBreaks(totalLines: nat, chunkSize: nat, overlapPercent: nat, k: nat)
    requires !LoopEnds(totalLines, chunkSize, overlapPercent)
    ensures var start := StartAfter(Step(chunkSize, overlapPercent), k);
            && start <= 0
            && start < totalLines
            && Min(start + chunkSize, totalLines) < totalLines
  {
    if k > 0 {
      StalledLoopNeverBreaks(totalLines, chunkSize, overlapPercent, k - 1);
    }
  }

  /** 1000 lines, chunks of 500, 5 percent overlap: 25 shared lines, chunks
      [1-500], [476-975] and [951-1000]. */
  lemma ScenarioThreeChunks(lines: seq<string>)
    requires |lines| == 1000
    ensures LoopEnds(|lines|, 500, 5)
    ensures var plan := Plan(lines, 500, 5);
            && OverlapLines(500, 5) == 25 && Step(500, 5) == 475
            && |plan| == 3
            && plan[0].startLine == 1 && plan[0].endLine == 500 && plan[0].overlapLines == 0
            && plan[1].startLine == 476 && plan[1].endLine == 975 && plan[1].overlapLines == 25
            && plan[2].startLine == 951 && plan[2].endLine == 1000 && plan[2].lineCount == 50
  {
    assert OverlapLines(500, 5) == 25;
    assert ChunkCount(1000, 500, 5) == 3;
  }

  /** A document exactly one chunk long gives one chunk with no overlap. */
  lemma ScenarioOneChunk(lines: seq<string>)
    requires |lines| == 500
    ensures LoopEnds(|lines|, 500, 5)
    ensures var plan := Plan(lines, 500, 5);
            && |plan| == 1
            && plan[0].startLine == 1 && plan[0].endLine == 500
            && plan[0].overlapLines == 0 && plan[0].lines == lines
  {
    assert OverlapLines(500, 5) == 25;
  }

  /** chunk_size 1 or overlap_percent 100 leave the window where it is. */
  lemma ScenarioStalled()
    ensures Step(100, 100) == 0 && Step(1, 0) == 0 && Step(0, 5) == -1
  {
    assert OverlapLines(100, 100) == 100;
    assert OverlapLines(1, 0) == 1;
  }
}
