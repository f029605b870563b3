/** How a base64 text is sliced by the sender and joined by the receiver (src/core/meeting_coordinator.cpp). */
module MediaSlices {

  /** chunkSize: 10 * 1024 characters */
  const SLICE_SIZE := 10 * 1024
  /** kMediaMaximumChunks */
  const MAXIMUM_CHUNKS := 2048
  /** kMediaRecoveryBatch */
  const RECOVERY_BATCH := 64
  /** The largest file the receiver takes: 15 MiB. */
  const MAXIMUM_FILE := 15 * 1024 * 1024

  function SliceCount(length: nat): nat {
    (length + SLICE_SIZE - 1) / SLICE_SIZE
  }

  /** QString::mid(index * chunkSize, chunkSize) */
  function Slice(text: string, index: nat): string {
    var from := index * SLICE_SIZE;
    if from >= |text| then []
    else if from + SLICE_SIZE >= |text| then text[from..]
    else text[from..from + SLICE_SIZE]
  }

  /** The pieces from 0 up to n, joined. */
  function Join(pieces: map<nat, string>, n: nat): string
    requires forall i :: 0 <= i < n ==> i in pieces
  {
    if n == 0 then [] else Join(pieces, n - 1) + pieces[n - 1]
  }

  /** Every piece is the sender's slice of that index. */
  ghost predicate AreSlices(pieces: map<nat, string>, text: string) {
    forall i :: i in pieces ==> i < SliceCount(|text|) && pieces[i] == Slice(text, i)
  }

  lemma {:induction false} JoinPrefix(pieces: map<nat, string>, text: string, n: nat)
    requires forall i :: 0 <= i < n ==> i in pieces && pieces[i] == Slice(text, i)
    requires n == 0 || (n - 1) * SLICE_SIZE < |text|
    ensures Join(pieces, n) == text[..UpTo(text, n)]
  {
    if n > 0 {
      JoinPrefix(pieces, text, n - 1);
      var from := (n - 1) * SLICE_SIZE;
      assert UpTo(text, n - 1) == from;
      assert text[..UpTo(text, n)] == text[..from] + text[from..UpTo(text, n)];
      assert Slice(text, n - 1) == text[from..UpTo(text, n)];
    }
  }

  /** How much of a text its first n slices hold. */
  function UpTo(text: string, n: nat): nat {
    if n * SLICE_SIZE >= |text| then |text| else n * SLICE_SIZE
  }

  function Below(n: nat): (s: set<nat>)
    ensures |s| == n && forall i: nat :: i in s <==> i < n
  {
    if n == 0 then {}
    else
      var fewer := Below(n - 1);
      assert n - 1 !in fewer;
      fewer + {n - 1}
  }

  /** Pigeonhole: as many pieces as there are indices, all in range, are all of them. */
  lemma Pigeonhole(pieces: map<nat, string>, n: nat)
    requires forall i :: i in pieces ==> i < n
    ensures |pieces| <= n
    ensures |pieces| == n ==> forall i :: 0 <= i < n ==> i in pieces
  {
    assert pieces.Keys <= Below(n);
    assert Below(n) == pieces.Keys + (Below(n) - pieces.Keys);
  }

  lemma CountCovers(length: nat)
    ensures SliceCount(length) * SLICE_SIZE >= length
    ensures SliceCount(length) == 0 || (SliceCount(length) - 1) * SLICE_SIZE < length
  {
  }

  /** A full set of the sender's slices joins to the sender's text. */
  lemma FullSetJoins(pieces: map<nat, string>, text: string)
    requires AreSlices(pieces, text) && |pieces| == SliceCount(|text|)
    ensures forall i :: 0 <= i < SliceCount(|text|) ==> i in pieces
    ensures Join(pieces, SliceCount(|text|)) == text
  {
    hide SliceCount, Slice, Join;
    var n := SliceCount(|text|);
    CountCovers(|text|);
    Pigeonhole(pieces, n);
    JoinPrefix(pieces, text, n);
    assert UpTo(text, n) == |text|;
  }

  /** A file of 15 MiB has a base64 text of exactly the largest number of slices. */
  lemma LargestFileFits(fileSize: nat, text: string)
    requires 0 < fileSize <= MAXIMUM_FILE && |text| == (fileSize + 2) / 3 * 4
    ensures 0 < SliceCount(|text|) <= MAXIMUM_CHUNKS
    ensures fileSize == MAXIMUM_FILE ==> SliceCount(|text|) == MAXIMUM_CHUNKS
  {
  }

  // ----- The missing set of a recovery request -----

  /** The first indices from `from` on that are missing, at most `room` of them. */
  function MissingFrom(pieces: map<nat, string>, from: nat, total: nat, room: nat): seq<nat>
    decreases total - from
  {
    if from >= total || room == 0 then []
    else if from in pieces then MissingFrom(pieces, from + 1, total, room)
    else [from] + MissingFrom(pieces, from + 1, total, room - 1)
  }

  function MissingCount(pieces: map<nat, string>, total: nat): nat {
    |Below(total) - pieces.Keys|
  }

  function RequestSize(missing: nat): nat {
    if missing < RECOVERY_BATCH then missing else RECOVERY_BATCH
  }

  function Elements(s: seq<nat>): set<nat> {
    set i | i in s
  }

  lemma ElementsCons(first: nat, rest: seq<nat>)
    requires first !in rest
    ensures |Elements([first] + rest)| == 1 + |Elements(rest)|
  {
    assert Elements([first] + rest) == {first} + Elements(rest);
  }

  lemma {:induction false} MissingMeaning(pieces: map<nat, string>, from: nat, total: nat, room: nat)
    requires from <= total
    ensures var m := MissingFrom(pieces, from, total, room);
            && (forall i :: i in m ==> from <= i < total && i !in pieces)
            && |Elements(m)| == |m| <= room
            && (|m| < room ==> forall i :: from <= i < total && i !in pieces ==> i in m)
    decreases total - from
  {
    if from < total && room > 0 {
      if from in pieces {
        MissingMeaning(pieces, from + 1, total, room);
      } else {
        MissingMeaning(pieces, from + 1, total, room - 1);
        ElementsCons(from, MissingFrom(pieces, from + 1, total, room - 1));
      }
    }
  }

  lemma SubsetSize(small: set<nat>, big: set<nat>)
    requires small <= big
    ensures |big| == |small| + |big - small|
  {
    assert big == small + (big - small);
  }

  /**
   One request asks for the smaller of 64 and the number of missing indices, all of them missing;
   so when its slices arrive, that many fewer are missing.
   */
  lemma RecoveryRound(pieces: map<nat, string>, arrived: map<nat, string>, total: nat)
    requires var asked := Elements(MissingFrom(pieces, 0, total, RECOVERY_BATCH));
             arrived.Keys == pieces.Keys + asked
    ensures |MissingFrom(pieces, 0, total, RECOVERY_BATCH)| == RequestSize(MissingCount(pieces, total))
    ensures MissingCount(arrived, total)
         == MissingCount(pieces, total) - RequestSize(MissingCount(pieces, total))
  {
    hide MissingFrom, Below, Elements;
    var missing, asked := Below(total) - pieces.Keys, Elements(MissingFrom(pieces, 0, total, RECOVERY_BATCH));
    AskedAreMissing(pieces, total);
    SubsetSize(asked, missing);
    MinusTwice(Below(total), pieces.Keys, asked);
  }

  lemma MinusTwice(a: set<nat>, b: set<nat>, c: set<nat>)
    ensures a - (b + c) == a - b - c
  {
  }

  lemma AskedAreMissing(pieces: map<nat, string>, total: nat)
    ensures var m := MissingFrom(pieces, 0, total, RECOVERY_BATCH);
            && |Elements(m)| == |m| <= RECOVERY_BATCH
            && Elements(m) <= Below(total) - pieces.Keys
            && (|m| < RECOVERY_BATCH ==> Elements(m) == Below(total) - pieces.Keys)
  {
    hide MissingFrom;
    MissingMeaning(pieces, 0, total, RECOVERY_BATCH);
  }
}
