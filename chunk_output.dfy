/** The two deterministic formatting rules of the chunker's output: the name
    of each chunk file, and the line that describes a chunk in the index. */
module ChunkOutput {
  import opened Decimal
  import opened ChunkPlan

  const NamePrefix: string := "chunk-"
  const NameSuffix: string := ".txt"

  /** The file a chunk is written to: "chunk-", the chunk number in decimal
      zero-padded to at least three digits, then ".txt". */
  function ChunkFileName(number: nat): (name: string)
    ensures |name| >= |NamePrefix| + 3 + |NameSuffix|
    ensures name[..|NamePrefix|] == NamePrefix
    ensures name[|name| - |NameSuffix|..] == NameSuffix
    ensures var middle := name[|NamePrefix|..|name| - |NameSuffix|];
            && |middle| == (if |Digits(number)| < 3 then 3 else |Digits(number)|)
            && AllDigits(middle) && Parse(middle) == number
  {
    var padded := PadLeft(Digits(number), 3, '0');
    ZeroPaddedDigits(number, 3);
    ThreeParts(NamePrefix, padded, NameSuffix);
    NamePrefix + padded + NameSuffix
  }

  lemma ThreeParts(a: string, b: string, c: string)
    ensures var s := a + b + c;
            && s[..|a|] == a
            && s[|a|..|s| - |c|] == b
            && s[|s| - |c|..] == c
  {
  }

  /** The chunk number a chunk file name carries. */
  function NumberOfFileName(name: string): (number: nat)
    requires |name| >= |NamePrefix| + |NameSuffix|
    requires AllDigits(name[|NamePrefix|..|name| - |NameSuffix|])
  {
    Parse(name[|NamePrefix|..|name| - |NameSuffix|])
  }

  /** The number can be read back from the file name. */
  lemma FileNameRoundTrip(number: nat)
    ensures NumberOfFileName(ChunkFileName(number)) == number
  {
  }

  /** Different chunks are written to different files. */
  lemma FileNamesDistinct(a: nat, b: nat)
    requires a != b
    ensures ChunkFileName(a) != ChunkFileName(b)
  {
    FileNameRoundTrip(a);
    FileNameRoundTrip(b);
  }

  /** The note that a chunk repeats lines of its predecessor. */
  function OverlapNote(entry: ChunkEntry): string
  {
    if entry.overlapLines > 0 then
      " [Overlap: " + Digits(entry.overlapLines) + " lines from previous]"
    else ""
  }

  predicate EndsWith(s: string, tail: string)
  {
    |tail| <= |s| && s[|s| - |tail|..] == tail
  }

  /** The index line of a chunk carries an overlap note. */
  predicate HasOverlapNote(line: string)
  {
    EndsWith(line, " lines from previous]\n")
  }

  /** The chunk's number and line count fit a field of 3 characters and its
      line numbers a field of 5, the widths the index gives them. */
  predicate FieldsFit(entry: ChunkEntry)
  {
    entry.number < 1000 && entry.lineCount < 1000
    && entry.startLine < 100000 && entry.endLine < 100000
  }

  /** The part of an index line before the overlap note: number, line range
      and line count right-aligned with spaces in fields of 3, 5, 5 and 3
      characters. */
  function IndexHead(entry: ChunkEntry): (head: string)
    ensures |head| > 6 && head[..6] == "Chunk " && head[|head| - 1] == ')'
    ensures FieldsFit(entry) ==>
              && |head| == 40
              && TrimSpaces(head[6..9]) == Digits(entry.number)
              && head[9..17] == ": Lines "
              && TrimSpaces(head[17..22]) == Digits(entry.startLine)
              && head[22] == '-'
              && TrimSpaces(head[23..28]) == Digits(entry.endLine)
              && head[28..30] == " ("
              && TrimSpaces(head[30..33]) == Digits(entry.lineCount)
              && head[33..] == " lines)"
  {
    var number := PadLeft(Digits(entry.number), 3, ' ');
    var first := PadLeft(Digits(entry.startLine), 5, ' ');
    var last := PadLeft(Digits(entry.endLine), 5, ' ');
    var count := PadLeft(Digits(entry.lineCount), 3, ' ');
    var head := "Chunk " + number + ": Lines " + first + "-" + last + " (" + count + " lines)";
    assert head[|head| - 1] == ')';
    assert head[..6] == "Chunk ";
    SpacePaddedDigits(entry.number, 3);
    SpacePaddedDigits(entry.startLine, 5);
    SpacePaddedDigits(entry.endLine, 5);
    SpacePaddedDigits(entry.lineCount, 3);
    if FieldsFit(entry) then
      DigitsFit(entry.number, 3);
      DigitsFit(entry.startLine, 5);
      DigitsFit(entry.endLine, 5);
      DigitsFit(entry.lineCount, 3);
      HeadLayout(number, first, last, count);
      head
    else
      head
  }

  /** Where the four fields of an index line's head fall when each has its
      width. */
  lemma HeadLayout(number: string, first: string, last: string, count: string)
    requires |number| == 3 && |first| == 5 && |last| == 5 && |count| == 3
    ensures var head := "Chunk " + number + ": Lines " + first + "-" + last + " (" + count + " lines)";
            && |head| == 40
            && head[6..9] == number && head[9..17] == ": Lines "
            && head[17..22] == first && head[22] == '-'
            && head[23..28] == last && head[28..30] == " ("
            && head[30..33] == count && head[33..] == " lines)"
  {
  }

  /** The line that describes a chunk in the index: its head, then the
      overlap note exactly when the chunk reports an overlap, then a newline.
      The prefix, the suffix and the length together leave room for nothing
      else: without an overlap the line is the head and the newline, with one
      it is the head, the note and the newline (IndexLineExact). */
  function IndexLine(entry: ChunkEntry): (line: string)
    ensures |line| > 7
    ensures line[..6] == "Chunk "
    ensures line[|line| - 1] == '\n'
    ensures HasOverlapNote(line) <==> entry.overlapLines > 0
    ensures entry.overlapLines > 0 ==>
              EndsWith(line, " [Overlap: " + Digits(entry.overlapLines) + " lines from previous]\n")
    ensures |IndexHead(entry)| < |line| && line[..|IndexHead(entry)|] == IndexHead(entry)
    ensures |line| == |IndexHead(entry)| + 1
                      + (if entry.overlapLines > 0 then 32 + |Digits(entry.overlapLines)| else 0)
  {
    var head := IndexHead(entry);
    NoteShape(head, entry);
    assert (head + OverlapNote(entry) + "\n")[..|head|] == head;
    head + OverlapNote(entry) + "\n"
  }

  /** A string that begins with the head, ends with the note (when there is
      an overlap) and the newline, and has the index line's length is the
      index line: nothing else fits between the head and the note. */
  lemma IndexLineExact(entry: ChunkEntry, other: string)
    requires |IndexHead(entry)| < |other| && other[..|IndexHead(entry)|] == IndexHead(entry)
    requires other[|other| - 1] == '\n'
    requires entry.overlapLines > 0 ==>
               EndsWith(other, " [Overlap: " + Digits(entry.overlapLines) + " lines from previous]\n")
    requires |other| == |IndexHead(entry)| + 1
                        + (if entry.overlapLines > 0 then 32 + |Digits(entry.overlapLines)| else 0)
    ensures other == IndexLine(entry)
  {
    NoteLineExact(IndexHead(entry), entry, other);
  }

  lemma NoteLineExact(head: string, entry: ChunkEntry, other: string)
    requires |head| < |other| && other[..|head|] == head
    requires other[|other| - 1] == '\n'
    requires entry.overlapLines > 0 ==>
               EndsWith(other, " [Overlap: " + Digits(entry.overlapLines) + " lines from previous]\n")
    requires |other| == |head| + 1
                        + (if entry.overlapLines > 0 then 32 + |Digits(entry.overlapLines)| else 0)
    ensures other == head + OverlapNote(entry) + "\n"
  {
    var tail := OverlapNote(entry) + "\n";
    assert head + OverlapNote(entry) + "\n" == head + tail;
    if entry.overlapLines == 0 {
      assert tail == "\n";
      assert other[|other| - 1..] == [other[|other| - 1]];
    }
    PrefixSuffix(other, head, tail);
  }

  /** A string as long as a prefix and a suffix it has is their concatenation. */
  lemma PrefixSuffix(s: string, prefix: string, suffix: string)
    requires |s| == |prefix| + |suffix|
    requires s[..|prefix|] == prefix && EndsWith(s, suffix)
    ensures s == prefix + suffix
  {
    assert s == s[..|prefix|] + s[|prefix|..];
  }

  lemma NoteShape(head: string, entry: ChunkEntry)
    requires |head| > 6 && head[..6] == "Chunk " && head[|head| - 1] == ')'
    ensures var line := head + OverlapNote(entry) + "\n";
            && |line| > 7 && line[..6] == "Chunk " && line[|line| - 1] == '\n'
            && (HasOverlapNote(line) <==> entry.overlapLines > 0)
            && (entry.overlapLines > 0 ==>
                  EndsWith(line, " [Overlap: " + Digits(entry.overlapLines) + " lines from previous]\n"))
  {
    var line := head + OverlapNote(entry) + "\n";
    assert line[..6] == head[..6];
    if entry.overlapLines == 0 {
      assert line == head + "\n";
      assert line[|line| - 2] == ')';
    } else {
      var digits := Digits(entry.overlapLines);
      var tail := " [Overlap: " + digits + " lines from previous]\n";
      assert line == head + tail;
      assert line[|line| - |tail|..] == tail;
      assert tail[|tail| - 22..] == " lines from previous]\n";
    }
  }

  /** In the index of a planned document, exactly the chunks after the first
      carry the overlap note. */
  lemma IndexNotesAllButFirst(lines: seq<string>, chunkSize: nat, overlapPercent: nat)
    requires LoopEnds(|lines|, chunkSize, overlapPercent)
    ensures var plan := Plan(lines, chunkSize, overlapPercent);
            forall i | 0 <= i < |plan| :: HasOverlapNote(IndexLine(plan[i])) <==> i > 0
  {
    var plan := Plan(lines, chunkSize, overlapPercent);
    forall i | 0 <= i < |plan| ensures HasOverlapNote(IndexLine(plan[i])) <==> i > 0 {
      assert plan[i].overlapLines == if i == 0 then 0 else OverlapLines(chunkSize, overlapPercent);
    }
  }

  /** The chunks of a plan are written to pairwise different files. */
  lemma PlanFileNamesDistinct(lines: seq<string>, chunkSize: nat, overlapPercent: nat)
    requires LoopEnds(|lines|, chunkSize, overlapPercent)
    ensures var plan := Plan(lines, chunkSize, overlapPercent);
            forall i, j | 0 <= i < j < |plan| ::
              ChunkFileName(plan[i].number) != ChunkFileName(plan[j].number)
  {
    var plan := Plan(lines, chunkSize, overlapPercent);
    forall i, j | 0 <= i < j < |plan|
      ensures ChunkFileName(plan[i].number) != ChunkFileName(plan[j].number)
    {
      FileNamesDistinct(plan[i].number, plan[j].number);
    }
  }
}
