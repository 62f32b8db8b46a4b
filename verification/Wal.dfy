/**
 * The segmented write-ahead log: writing with rotation, the reader over all segments, the search for
 * the end of a height with its index, and checkpoints that drop old segments. The ghost field `log`
 * holds the messages of every segment; the files hold their frames.
 */
module Wal {
  import opened Types
  import opened WalFrames
  import opened Sorting

  const MAX_HEIGHT_INDEX_SIZE := 100000

  predicate Ends(m: Message, height: int) { m.mtype == EndHeight && m.height == height }

  /** Position of the first end of a height. */
  function FirstEnd(ms: seq<Message>, height: int): (r: Option<nat>)
    ensures r.Some? ==> r.value < |ms| && Ends(ms[r.value], height)
    ensures r.None? ==> forall i :: 0 <= i < |ms| ==> !Ends(ms[i], height)
  {
    if ms == [] then None
    else if Ends(ms[0], height) then Some(0)
    else
      var rest := FirstEnd(ms[1..], height);
      if rest.None? then None else Some(rest.value + 1)
  }

  /** All messages of a range of segments in order; a missing segment has none. */
  function Messages(log: map<int, seq<Message>>, lo: int, hi: int): seq<Message>
    decreases hi - lo
  {
    if hi < lo then [] else Messages(log, lo, hi - 1) + if hi in log then log[hi] else []
  }

  datatype SegmentSearch = Found(rest: Bytes) | NotFound | SearchFailed

  datatype HeightSearch = FoundIn(segment: int, rest: Bytes) | NowhereFound | Failed | Closed

  class FileWAL {
    const codec: Codec
    const maxSegSize: int
    var started: bool
    var files: map<int, Bytes>
    var segmentIndex: int
    var segmentSize: int
    var minIndex: int
    var maxIndex: int
    var heightIndex: map<int, int>
    ghost var log: map<int, seq<Message>>

    /** The current segment is the last, whatever bytes the segments hold. */
    ghost predicate Opened()
      reads this
    {
      && Faithful(codec)
      && minIndex <= maxIndex == segmentIndex && segmentIndex in files && segmentSize == |files[segmentIndex]|
      && (forall i :: i in files <==> i in log) && (forall i :: i in files ==> minIndex <= i <= maxIndex)
    }

    /** Every segment is a file of whole frames. */
    ghost predicate Valid()
      reads this
    {
      Opened() && HoldFrames(codec, files, log)
    }

    /** Every message is under the size limit, so that every segment can be read. */
    ghost predicate Readable()
      reads this`log
    {
      forall i :: i in log ==> AllSmall(codec, log[i])
    }

    /** No segment is missing. */
    ghost predicate Contiguous()
      reads this
    {
      forall i :: minIndex <= i <= maxIndex ==> i in files
    }

    ghost function Contents(): seq<Message>
      reads this
    {
      Messages(log, minIndex, maxIndex)
    }

    /**
     * Opens a directory: the greatest segment becomes the current one, an empty one is made when there is
     * none, and the index is built. A torn tail stays where it is. `log` is what the segments hold.
     */
    constructor (codec: Codec, maxSegSize: int, segments: map<int, Bytes>, ghost log: map<int, seq<Message>>)
      requires Faithful(codec) && forall i :: i in segments <==> i in log
      requires forall i :: i in segments ==> i >= 0
      ensures Opened() && started && this.codec == codec
      ensures HoldFrames(codec, segments, log) ==> Valid() && (Readable() ==> IndexUpTo(maxIndex))
      ensures segments == map[] ==> Readable() && Contiguous() && Contents() == []
      ensures segments != map[] ==> files == segments && this.log == log
      ensures segments != map[] ==> minIndex in segments && maxIndex in segments
    {
      this.codec, this.maxSegSize, started := codec, maxSegSize, true;
      files, this.log, heightIndex := segments, log, map[];
      new;
      hide Frames, Messages, FirstEnd, AllSmall, Faithful;
      OpenSegments();
      BuildIndex();
    }

    /** Finds the least and the greatest segment; an empty one is made when there is none. */
    method OpenSegments()
      requires Faithful(codec) && (forall i :: i in files <==> i in log) && forall i :: i in files ==> i >= 0
      modifies this`files, this`log, this`segmentIndex, this`segmentSize, this`minIndex, this`maxIndex
      ensures Opened() && (HoldFrames(codec, old(files), old(log)) ==> Valid())
      ensures old(files) == map[] ==> Readable() && Contiguous() && Contents() == []
      ensures old(files) != map[] ==> files == old(files) && log == old(log) && minIndex in files && maxIndex in files
    {
      hide Frames, Messages, Faithful;
      segmentIndex := Highest(files.Keys);
      minIndex := Lowest(files.Keys);
      maxIndex := segmentIndex;
      if files == map[] {
        NoFrames(codec);
        files, log := map[0 := []], map[0 := []];
        NoMessages(log, 0, 0);
      }
      segmentSize := |files[segmentIndex]|;
    }

    /** Appends a message, to a new segment when the current one is full. */
    method Write(msg: Message) returns (ok: bool)
      requires Opened()
      modifies this
      ensures Opened() && (old(Valid()) ==> Valid()) && ok == old(started) && started == old(started)
      ensures ok ==> segmentIndex == old(segmentIndex) + if old(segmentSize) >= maxSegSize then 1 else 0
      ensures ok && msg.mtype == EndHeight ==> KeepsGreatest(old(heightIndex)[msg.height := segmentIndex], heightIndex)
      ensures ok && msg.mtype != EndHeight ==> heightIndex == old(heightIndex)
      ensures ok ==> forall i :: i in old(files) && i != segmentIndex ==> i in files && files[i] == old(files)[i]
      ensures ok ==> files[segmentIndex] == Segment(old(files), segmentIndex) + Frame(codec, msg)
      ensures ok ==> Contents() == old(Contents()) + [msg] && (old(Contiguous()) ==> Contiguous())
      ensures ok && old(Readable()) && Small(codec, msg) ==> Readable()
      ensures !ok ==> unchanged(this)
    {
      hide Frame, Messages, AllSmall, Faithful, HoldFrames, KeepsGreatest;
      if !started { return false; }
      if segmentSize >= maxSegSize { Rotate(); }
      Append(msg);
      if msg.mtype == EndHeight { IndexHeight(msg.height); }
      ok := true;
    }

    /** Notes that a height ends in the current segment. */
    method IndexHeight(height: int)
      modifies this`heightIndex
      ensures KeepsGreatest(old(heightIndex)[height := segmentIndex], heightIndex)
    {
      heightIndex := heightIndex[height := segmentIndex];
      PruneHeightIndex();
    }

    method Append(msg: Message)
      requires Opened()
      modifies this`files, this`segmentSize, this`log
      ensures Opened() && (old(Valid()) ==> Valid()) && Contents() == old(Contents()) + [msg]
      ensures files == old(files)[segmentIndex := old(files)[segmentIndex] + Frame(codec, msg)]
      ensures old(Contiguous()) ==> Contiguous()
      ensures old(Readable()) && Small(codec, msg) ==> Readable()
    {
      hide Frame, Frames;
      FramesAppend(codec, log[segmentIndex], msg);
      AppendLast(log, minIndex, maxIndex, msg);
      files := files[segmentIndex := files[segmentIndex] + Frame(codec, msg)];
      segmentSize := segmentSize + |Frame(codec, msg)|;
      log := log[segmentIndex := log[segmentIndex] + [msg]];
    }

    method Rotate()
      requires Opened()
      modifies this`files, this`segmentIndex, this`segmentSize, this`maxIndex, this`log
      ensures Opened() && (old(Valid()) ==> Valid()) && Contents() == old(Contents()) && segmentSize == 0
      ensures segmentIndex == old(segmentIndex) + 1 && files == old(files)[segmentIndex := []]
      ensures old(Contiguous()) ==> Contiguous()
      ensures old(Readable()) ==> Readable()
    {
      hide Frames, Messages;
      NoFrames(codec);
      RotatedMessages(log, minIndex, maxIndex);
      segmentIndex := segmentIndex + 1;
      files := files[segmentIndex := []];
      log := log[segmentIndex := []];
      segmentSize, maxIndex := 0, segmentIndex;
    }

    /** Keeps the entries of the greatest heights when there are too many. */
    method PruneHeightIndex()
      modifies this`heightIndex
      ensures KeepsGreatest(old(heightIndex), heightIndex)
    {
      if |heightIndex| <= MAX_HEIGHT_INDEX_SIZE { return; }
      var heights := SortedMembers(heightIndex.Keys);
      var toRemove := |heights| - MAX_HEIGHT_INDEX_SIZE;
      ghost var all := heightIndex;
      for i := 0 to toRemove
        invariant heightIndex == Without(all, heights[..i])
      {
        assert heights[..i + 1][..i] == heights[..i];
        heightIndex := heightIndex - {heights[i]};
      }
      OldestDropped(all, heights, toRemove);
    }

    // ----- Reading -----

    /** Reads one segment up to the end of a height; what is left is what a reader finds next. */
    method SearchSegment(index: int, height: int) returns (r: SegmentSearch)
      requires Valid()
      ensures index !in files ==> r == NotFound
      ensures index in files && AllSmall(codec, log[index]) ==>
        match FirstEnd(log[index], height)
        case None => r == NotFound
        case Some(p) => r == Found(Frames(codec, log[index][p + 1..]))
    {
      hide Decode, Frame;
      if index !in files { return NotFound; }
      ghost var ms := log[index];
      ghost var i := 0;
      var bytes := files[index];
      var next := Decode(codec, bytes);
      FrameAt(codec, ms, 0);
      while next.Read?
        invariant 0 <= i <= |ms| && next == Decode(codec, bytes)
        invariant AllSmall(codec, ms) ==>
          next == FrameOrEnd(codec, ms, i) && FirstEnd(ms, height) == Later(FirstEnd(ms[i..], height), i)
        decreases |bytes|
      {
        if Ends(next.message, height) { return Found(next.rest); }
        bytes := next.rest;
        next := Decode(codec, bytes);
        if AllSmall(codec, ms) {
          i := i + 1;
          FrameAt(codec, ms, i);
        }
      }
      r := if next == EndOfFile then NotFound else SearchFailed;
    }

    /** A segment that holds an end of the height. */
    ghost predicate EndsIn(index: int, height: int)
      reads this`log
    {
      index in log && FirstEnd(log[index], height).Some?
    }

    /** The reader stands right after the first end of the height in a segment. */
    ghost predicate IsAfterEnd(r: HeightSearch, height: int)
      reads this
    {
      && r.FoundIn? && EndsIn(r.segment, height)
      && r.rest == Frames(codec, log[r.segment][FirstEnd(log[r.segment], height).value + 1..])
    }

    /**
     * Finds the height exactly when some retained segment ends it, whatever the index holds. The answer
     * is in the segment the index names, when that one ends the height, and else in the first that does.
     */
    method SearchForEndHeight(height: int) returns (r: HeightSearch)
      requires Valid()
      modifies this`heightIndex
      ensures !started ==> r == Closed
      ensures started && Readable() ==>
        && (r == NowhereFound || IsAfterEnd(r, height))
        && (r == NowhereFound <==> forall i :: !EndsIn(i, height))
        && (r.FoundIn? ==>
              || (height in old(heightIndex) && r.segment == old(heightIndex)[height])
              || forall i :: EndsIn(i, height) ==> r.segment <= i)
      ensures r.FoundIn? ==> height in heightIndex && heightIndex[height] == r.segment
      ensures !r.FoundIn? ==> heightIndex == old(heightIndex)
      ensures forall h :: h != height ==> (h in heightIndex <==> h in old(heightIndex))
      ensures forall h :: h != height && h in heightIndex ==> heightIndex[h] == old(heightIndex)[h]
    {
      hide Frames, Faithful, AllSmall;
      if !started { return Closed; }
      if height in heightIndex {
        var segment := heightIndex[height];
        var found := SearchSegment(segment, height);
        if found == SearchFailed { return Failed; }
        if found.Found? { return FoundIn(segment, found.rest); }
      }
      r := SearchAllSegments(height);
      if r.FoundIn? { heightIndex := heightIndex[height := r.segment]; }
    }

    /** Searches the segments from the oldest on. */
    method SearchAllSegments(height: int) returns (r: HeightSearch)
      requires Valid()
      ensures r.FoundIn? || r == NowhereFound || r == Failed
      ensures Readable() ==>
        && (r == NowhereFound || IsAfterEnd(r, height))
        && (r == NowhereFound <==> forall i :: !EndsIn(i, height))
        && (r.FoundIn? ==> forall i :: EndsIn(i, height) ==> r.segment <= i)
    {
      hide Frames, Faithful, AllSmall;
      var index := minIndex;
      while index <= maxIndex
        invariant minIndex <= index <= maxIndex + 1
        invariant Readable() ==> forall i :: minIndex <= i < index ==> !EndsIn(i, height)
      {
        var found := SearchSegment(index, height);
        if found == SearchFailed { return Failed; }
        if found.Found? { return FoundIn(index, found.rest); }
        index := index + 1;
      }
      r := NowhereFound;
    }

    /** Reads all segments in order. */
    method ReadLog() returns (ms: seq<Message>, end: Decoded)
      requires Valid()
      ensures Readable() ==> ms == Contents() && end == EndOfFile
    {
      hide Frames, ReadAll;
      ms, end := [], EndOfFile;
      var index := minIndex;
      while index <= maxIndex && end == EndOfFile
        invariant minIndex <= index <= maxIndex + 1
        invariant Readable() ==> ms == Messages(log, minIndex, index - 1) && end == EndOfFile
      {
        if index in files {
          ReadFramesOf(codec, log[index]);
          var (read, last) := ReadAll(codec, files[index]);
          ms, end := ms + read, last;
        }
        index := index + 1;
      }
    }

    /** The index names, for every height that ends in segments up to `k`, the last of them. */
    ghost predicate IndexUpTo(k: int)
      reads this
    {
      && (forall i, h :: minIndex <= i <= k && EndsIn(i, h) ==> h in heightIndex && i <= heightIndex[h])
      && (forall h :: h in heightIndex ==> minIndex <= heightIndex[h] <= k && EndsIn(heightIndex[h], h))
    }

    /** Builds the index of all segments when the log is opened. */
    method BuildIndex()
      requires Opened()
      modifies this`heightIndex
      ensures Valid() && Readable() ==> IndexUpTo(maxIndex)
    {
      hide Frames, FirstEnd, AllSmall, Faithful;
      heightIndex := map[];
      var index := minIndex;
      while index <= maxIndex
        invariant minIndex <= index <= maxIndex + 1
        invariant Valid() && Readable() ==> IndexUpTo(index - 1)
      {
        IndexSegment(index);
        index := index + 1;
      }
    }

    /** Adds the heights that end in a segment. */
    method IndexSegment(index: int)
      requires Opened() && minIndex <= index <= maxIndex
      modifies this`heightIndex
      ensures Valid() && Readable() && old(IndexUpTo(index - 1)) ==> IndexUpTo(index)
    {
      hide Frames, ReadAll, FirstEnd, WithEnds, AllSmall, Faithful;
      if index in files {
        ReadFramesOf(codec, log[index]);
        var (read, _) := ReadAll(codec, files[index]);
        WithEndsExactly(heightIndex, read, index);
        heightIndex := WithEnds(heightIndex, read, index);
      }
    }

    // ----- Checkpoints -----

    /** Whether all messages of a segment are at or below a height; none when it cannot be read. */
    method CanDeleteSegment(index: int, checkpoint: int) returns (r: Option<bool>)
      requires Valid()
      ensures index !in files ==> r == None
      ensures index in files && AllSmall(codec, log[index]) ==>
        r == Some(checkpoint >= 0 && AllBelow(log[index], checkpoint))
    {
      hide Decode, Frame, Frames;
      if index !in files { return None; }
      ghost var ms := log[index];
      ghost var i := 0;
      var bytes, maxHeight := files[index], 0;
      var next := Decode(codec, bytes);
      assert ms[0..] == ms;
      FrameAt(codec, ms, 0);
      while next.Read?
        invariant 0 <= i <= |ms| && next == Decode(codec, bytes) && maxHeight >= 0
        invariant AllSmall(codec, ms) ==> next == FrameOrEnd(codec, ms, i)
        invariant AllSmall(codec, ms) ==>
          (maxHeight <= checkpoint <==> checkpoint >= 0 && AllBelow(ms[..i], checkpoint))
        decreases |bytes|
      {
        if next.message.height > maxHeight { maxHeight := next.message.height; }
        bytes := next.rest;
        next := Decode(codec, bytes);
        if AllSmall(codec, ms) {
          assert ms[..i + 1] == ms[..i] + [ms[i]];
          i := i + 1;
          FrameAt(codec, ms, i);
        }
      }
      if next != EndOfFile { return None; }
      assert i == |ms| ==> ms[..i] == ms;
      r := Some(maxHeight <= checkpoint);
    }

    /**
     * Drops the oldest segments that hold nothing above a height. What is dropped is a range of oldest
     * segments without the current one, and on readable segments none of their messages is above it.
     */
    method Checkpoint(checkpoint: int) returns (ok: bool)
      requires Valid()
      modifies this`files, this`log, this`minIndex, this`heightIndex
      ensures ok == started && (!ok ==> minIndex == old(minIndex) && log == old(log))
      ensures Valid() && old(minIndex) <= minIndex <= maxIndex
      ensures forall i :: i in files <==> i in old(files) && i >= minIndex
      ensures forall i :: i in files ==> files[i] == old(files)[i] && log[i] == old(log)[i]
      ensures old(Contiguous()) ==> Contiguous()
      ensures old(Contents()) == Messages(old(log), old(minIndex), minIndex - 1) + Contents()
      ensures ok && old(Readable()) && checkpoint >= 0 ==>
        minIndex == maxIndex || minIndex !in files || exists m :: m in log[minIndex] && m.height > checkpoint
      ensures checkpoint < 0 && old(Readable()) ==> minIndex == old(minIndex)
      ensures old(Readable()) ==>
        Readable() && forall i :: i in old(files) && i < minIndex ==> AllBelow(old(log)[i], checkpoint)
      ensures forall h :: h in heightIndex <==>
        h in old(heightIndex) && !(old(minIndex) <= old(heightIndex)[h] < minIndex)
    {
      hide Frames, AllBelow, AllSmall, Messages;
      SplitMessages(log, minIndex, minIndex, maxIndex);
      ok := started;
      if started {
        var index := FirstToKeep(checkpoint);
        if index in files { SomeAbove(log[index], checkpoint); }
        SplitMessages(log, minIndex, index, maxIndex);
        DropBefore(index);
        SameBelow(old(log), log, minIndex, maxIndex);
      }
    }

    /** The oldest segment that must stay: the first that cannot be deleted, at most the current one. */
    method FirstToKeep(checkpoint: int) returns (index: int)
      requires Valid()
      ensures minIndex <= index <= maxIndex
      ensures Readable() ==> forall i :: i in files && i < index ==> AllBelow(log[i], checkpoint)
      ensures Readable() && checkpoint >= 0 ==>
        index == maxIndex || index !in files || !AllBelow(log[index], checkpoint)
      ensures Readable() && checkpoint < 0 ==> index == minIndex
    {
      hide Frames, AllBelow;
      index := minIndex;
      var stop := false;
      while index < maxIndex && !stop
        decreases maxIndex - index, !stop
        invariant minIndex <= index <= maxIndex
        invariant Readable() ==> forall i :: i in files && i < index ==> AllBelow(log[i], checkpoint)
        invariant Readable() && checkpoint < 0 ==> index == minIndex
        invariant stop && Readable() && checkpoint >= 0 ==> index !in files || !AllBelow(log[index], checkpoint)
      {
        var deletable := CanDeleteSegment(index, checkpoint);
        if deletable == Some(true) { index := index + 1; } else { stop := true; }
      }
    }

    method DropBefore(index: int)
      requires Valid() && minIndex <= index <= maxIndex
      modifies this`files, this`log, this`minIndex, this`heightIndex
      ensures Valid() && minIndex == index
      ensures forall i :: i in files <==> i in old(files) && i >= index
      ensures forall i :: i in files ==> files[i] == old(files)[i] && log[i] == old(log)[i]
      ensures forall h :: h in heightIndex <==> h in old(heightIndex) && !(old(minIndex) <= old(heightIndex)[h] < index)
    {
      hide Frames;
      var k := minIndex;
      while k < index
        invariant minIndex == old(minIndex) <= k <= index
        invariant forall i :: i in files <==> i in old(files) && i >= k
        invariant forall i :: i in log <==> i in files
        invariant forall i :: i in files ==> files[i] == old(files)[i] && log[i] == old(log)[i]
        invariant forall h :: h in heightIndex <==> h in old(heightIndex) && !(minIndex <= old(heightIndex)[h] < k)
        invariant forall h :: h in heightIndex ==> heightIndex[h] == old(heightIndex)[h]
      {
        files := files - {k};
        log := log - {k};
        heightIndex := map h | h in heightIndex && heightIndex[h] != k :: heightIndex[h];
        k := k + 1;
      }
      minIndex := index;
    }
  }

  /** The index keeps as many entries as the limit allows, those of the greatest heights. */
  ghost predicate KeepsGreatest(before: map<int, int>, after: map<int, int>) {
    && |after| == (if |before| <= MAX_HEIGHT_INDEX_SIZE then |before| else MAX_HEIGHT_INDEX_SIZE)
    && (forall h :: h in after ==> h in before && after[h] == before[h])
    && (forall h, k :: h in before && h !in after && k in after ==> h < k)
  }

  function Segment(files: map<int, Bytes>, i: int): Bytes { if i in files then files[i] else [] }

  /** The segments are the frames of the messages. */
  ghost predicate HoldFrames(c: Codec, files: map<int, Bytes>, log: map<int, seq<Message>>) {
    forall i :: i in files ==> i in log && files[i] == Frames(c, log[i])
  }

  /** The greatest segment index, zero when there is none. */
  method Highest(indexes: set<int>) returns (r: int)
    requires forall i :: i in indexes ==> i >= 0
    ensures indexes == {} ==> r == 0
    ensures indexes != {} ==> r in indexes && forall i :: i in indexes ==> i <= r
  {
    var highest, left := -1, indexes;
    while left != {}
      invariant left <= indexes && (highest == -1 <==> left == indexes)
      invariant highest != -1 ==> highest in indexes
      invariant forall i :: i in indexes && i !in left ==> i <= highest
    {
      var i := Pick(left);
      left := left - {i};
      if i > highest { highest := i; }
    }
    r := if highest < 0 then 0 else highest;
  }

  /** The least segment index, zero when there is none. */
  method Lowest(indexes: set<int>) returns (r: int)
    requires forall i :: i in indexes ==> i >= 0
    ensures indexes == {} ==> r == 0
    ensures indexes != {} ==> r in indexes && forall i :: i in indexes ==> i >= r
  {
    var lowest, left := -1, indexes;
    while left != {}
      invariant left <= indexes && (lowest == -1 <==> left == indexes)
      invariant lowest != -1 ==> lowest in indexes
      invariant forall i :: i in indexes && i !in left ==> lowest <= i
    {
      var i := Pick(left);
      left := left - {i};
      if lowest < 0 || i < lowest { lowest := i; }
    }
    r := if lowest < 0 then 0 else lowest;
  }

  lemma {:induction false} NoMessages(log: map<int, seq<Message>>, lo: int, hi: int)
    requires forall i :: i in log ==> log[i] == []
    ensures Messages(log, lo, hi) == []
    decreases hi - lo
  {
    if lo <= hi { NoMessages(log, lo, hi - 1); }
  }

  /** An index with the heights that end in a segment. */
  function WithEnds(index: map<int, int>, ms: seq<Message>, segment: int): map<int, int> {
    if ms == [] then index else
      var m := ms[|ms| - 1];
      var rest := WithEnds(index, ms[..|ms| - 1], segment);
      if m.mtype == EndHeight then rest[m.height := segment] else rest
  }

  lemma {:induction false} WithEndsExactly(index: map<int, int>, ms: seq<Message>, segment: int)
    ensures forall h :: h in WithEnds(index, ms, segment) <==> h in index || FirstEnd(ms, h).Some?
    ensures forall h :: h in WithEnds(index, ms, segment) ==>
      WithEnds(index, ms, segment)[h] == if FirstEnd(ms, h).Some? then segment else index[h]
  {
    if ms != [] {
      var n := |ms| - 1;
      WithEndsExactly(index, ms[..n], segment);
      forall h ensures FirstEnd(ms, h).Some? <==> FirstEnd(ms[..n], h).Some? || Ends(ms[n], h) {
        if FirstEnd(ms[..n], h).Some? { assert Ends(ms[FirstEnd(ms[..n], h).value], h); }
      }
    }
  }

  predicate AllBelow(ms: seq<Message>, height: int) {
    forall i :: 0 <= i < |ms| ==> ms[i].height <= height
  }

  lemma SomeAbove(ms: seq<Message>, height: int)
    ensures AllBelow(ms, height) <==> !exists m :: m in ms && m.height > height
  {}

  lemma ReadFramesOf(c: Codec, ms: seq<Message>)
    requires Faithful(c)
    ensures AllSmall(c, ms) ==> ReadAll(c, Frames(c, ms)) == (ms, EndOfFile)
  {
    if AllSmall(c, ms) { ReadFrames(c, ms); }
  }

  function Later(p: Option<nat>, i: nat): Option<nat> { if p.None? then None else Some(p.value + i) }

  /** What decoding gives at message `i` of a file of frames. */
  ghost function FrameOrEnd(c: Codec, ms: seq<Message>, i: nat): Decoded
    requires i <= |ms|
  {
    if i == |ms| then EndOfFile else Read(ms[i], Frames(c, ms[i + 1..]))
  }

  lemma FrameAt(c: Codec, ms: seq<Message>, i: nat)
    requires Faithful(c) && i <= |ms|
    ensures AllSmall(c, ms) ==> Decode(c, Frames(c, ms[i..])) == FrameOrEnd(c, ms, i)
  {
    hide Decode, Frame;
    if i == |ms| {
      EmptyFile(c);
    } else if AllSmall(c, ms) {
      assert ms[i..][1..] == ms[i + 1..];
      DecodeFrame(c, ms[i], Frames(c, ms[i + 1..]));
    }
  }

  /** An index without the given heights. */
  function Without(index: map<int, int>, heights: seq<int>): map<int, int> {
    if heights == [] then index else Without(index, heights[..|heights| - 1]) - {heights[|heights| - 1]}
  }

  lemma {:induction false} WithoutExactly(index: map<int, int>, heights: seq<int>)
    requires DistinctKeys(heights, Identity) && forall h :: h in heights ==> h in index
    ensures |Without(index, heights)| == |index| - |heights|
    ensures forall h :: h in Without(index, heights) <==> h in index && h !in heights
    ensures forall h :: h in Without(index, heights) ==> Without(index, heights)[h] == index[h]
  {
    if heights != [] {
      var n := |heights| - 1;
      var rest, last := heights[..n], heights[n];
      assert heights == rest + [last];
      WithoutExactly(index, rest);
      assert last !in rest by {
        assert forall i :: 0 <= i < n ==> Identity(heights[i]) != Identity(last);
      }
      RemoveOne(Without(index, rest), last);
    }
  }

  lemma RemoveOne(index: map<int, int>, h: int)
    requires h in index
    ensures |index - {h}| == |index| - 1
  {
    assert (index - {h}).Keys == index.Keys - {h};
  }

  lemma OldestDropped(index: map<int, int>, heights: seq<int>, n: nat)
    requires Increasing(heights, Identity) && n <= |heights| == |index| && forall h :: h in heights <==> h in index
    ensures var r := Without(index, heights[..n]);
      && |r| == |heights| - n
      && (forall h :: h in r ==> h in index && r[h] == index[h])
      && (forall h, k :: h in index && h !in r && k in r ==> h < k)
  {
    hide Without, Increasing;
    var dropped := heights[..n];
    forall h | h in dropped ensures h in index { assert h in heights; }
    FirstDistinct(heights, n);
    WithoutExactly(index, dropped);
    FirstAreLeast(heights, n);
  }

  lemma FirstDistinct(heights: seq<int>, n: nat)
    requires Increasing(heights, Identity) && n <= |heights|
    ensures DistinctKeys(heights[..n], Identity)
  {}

  lemma FirstAreLeast(heights: seq<int>, n: nat)
    requires Increasing(heights, Identity) && n <= |heights|
    ensures forall h, k :: h in heights[..n] && k in heights && k !in heights[..n] ==> h < k
  {
    forall j | 0 <= j < n ensures heights[j] in heights[..n] { assert heights[..n][j] == heights[j]; }
    forall h, k | h in heights[..n] && k in heights && k !in heights[..n] ensures h < k {
      var i :| 0 <= i < n && heights[i] == h;
      var j :| 0 <= j < |heights| && heights[j] == k;
      assert Identity(heights[i]) < Identity(heights[j]);
    }
  }

  lemma {:induction false} AppendLast(log: map<int, seq<Message>>, lo: int, hi: int, m: Message)
    requires lo <= hi && hi in log
    ensures Messages(log[hi := log[hi] + [m]], lo, hi) == Messages(log, lo, hi) + [m]
  {
    SameBelow(log, log[hi := log[hi] + [m]], lo, hi - 1);
  }

  lemma RotatedMessages(log: map<int, seq<Message>>, lo: int, hi: int)
    requires lo <= hi
    ensures Messages(log[hi + 1 := []], lo, hi + 1) == Messages(log, lo, hi)
  {
    SameBelow(log, log[hi + 1 := []], lo, hi);
  }

  lemma NoFrames(c: Codec)
    ensures Frames(c, []) == []
  {}

  lemma {:induction false} SplitMessages(log: map<int, seq<Message>>, lo: int, mid: int, hi: int)
    requires lo <= mid <= hi + 1
    ensures Messages(log, lo, hi) == Messages(log, lo, mid - 1) + Messages(log, mid, hi)
    decreases hi - mid
  {
    if mid <= hi { SplitMessages(log, lo, mid, hi - 1); }
  }

  lemma {:induction false} SameBelow(a: map<int, seq<Message>>, b: map<int, seq<Message>>, lo: int, hi: int)
    requires forall i :: lo <= i <= hi ==> (i in a <==> i in b) && (i in a ==> a[i] == b[i])
    ensures Messages(a, lo, hi) == Messages(b, lo, hi)
    decreases hi - lo
  {
    if lo <= hi { SameBelow(a, b, lo, hi - 1); }
  }
}
