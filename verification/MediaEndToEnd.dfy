/** The media sender and the media receiver together, over a network that may lose, repeat and reorder packets. */
module MediaEndToEnd {
  import opened Options
  import opened MediaKeys
  import opened MediaSlices
  import T = MediaTransfer
  import opened MediaDelivery
  import R = MediaReceiver
  import P = MediaProjection
  import RR = MediaReceiverRuns
  import S = MediaSender
  import SR = MediaSenderRuns

  type Encoder = seq<int> -> string

  /** What the model asks of base64 for one file: decoding undoes encoding. */
  predicate RoundTrips(encode: Encoder, decode: T.Decoder, data: seq<int>) {
    decode(encode(data)) == data
  }

  /** And for the receiver's checks: four ASCII characters for every three bytes, the last group padded. */
  predicate IsBase64(encode: Encoder, data: seq<int>) {
    |encode(data)| == (|data| + 2) / 3 * 4 && forall i :: 0 <= i < |encode(data)| ==> encode(data)[i] as int < 0x80
  }

  /** The queue entry of a file: its text is the file encoded, its size the file's. */
  predicate TaskOf(encode: Encoder, t: S.Task, data: seq<int>) {
    t.text == encode(data) && t.meta.totalSize == |data| && t.meta.totalChunks == SliceCount(|t.text|)
  }

  ghost predicate WasSent(s: S.Sender, p: T.Packet) {
    exists i :: 0 <= i < |s.sent| && !s.sent[i].Unavailable? && s.sent[i].packet == p
  }

  /** Every packet the receiver files under k was once sent; nothing is said of which arrive, when, or how often. */
  ghost predicate FromSender(s: S.Sender, session: nat, k: Key, callbacks: seq<R.Callback>) {
    forall i :: 0 <= i < |callbacks| ==> CameFrom(s, session, k, callbacks[i])
  }

  ghost predicate CameFrom(s: S.Sender, session: nat, k: Key, c: R.Callback) {
    c.PacketIn? && k == Key(session, c.sender.generation, c.sender.incarnation, c.revision, c.packet.wireId)
    ==> WasSent(s, c.packet)
  }

  lemma SentIsHonest(encode: Encoder, decode: T.Decoder, s: S.Sender, d: string, data: seq<int>, p: T.Packet)
    requires SR.SenderOk(s) && WasSent(s, p) && p.wireId == d
    requires d in s.submitted && TaskOf(encode, s.submitted[d], data) && RoundTrips(encode, decode, data)
    ensures HonestPacket(decode, encode(data), s.submitted[d].meta, p)
  {
    hide SR.AllFiles, S.CacheBytes, Slice, SliceCount;
    var i :| 0 <= i < |s.sent| && !s.sent[i].Unavailable? && s.sent[i].packet == p;
    assert SR.WireOk(s.submitted, s.sent[i]);
  }

  /** What comes from the sender of a file is part of that file. */
  lemma EverythingIsHonest(encode: Encoder, decode: T.Decoder, s: S.Sender, session: nat, k: Key, data: seq<int>,
                           callbacks: seq<R.Callback>)
    requires SR.SenderOk(s) && k.wireId in s.submitted && TaskOf(encode, s.submitted[k.wireId], data)
    requires RoundTrips(encode, decode, data) && FromSender(s, session, k, callbacks)
    ensures RR.HonestFor(decode, encode(data), s.submitted[k.wireId].meta, session, k, callbacks)
  {
    hide SR.SenderOk, RoundTrips, TaskOf, HonestPacket, WasSent;
    forall i | 0 <= i < |callbacks|
      ensures RR.HonestCallback(decode, encode(data), s.submitted[k.wireId].meta, session, k, callbacks[i])
    {
      var c := callbacks[i];
      assert CameFrom(s, session, k, c);
      if c.PacketIn? && k == Key(session, c.sender.generation, c.sender.incarnation, c.revision, c.packet.wireId) {
        SentIsHonest(encode, decode, s, k.wireId, data, c.packet);
      }
    }
  }

  /**
   The file that is delivered is the file that was sent. Loss, repetition, reordering, replays, refused
   deliveries and whatever else both ends handle meanwhile change nothing in this.
   */
  lemma FileArrives(encode: Encoder, decode: T.Decoder, names: P.Names, session: nat, data: seq<int>,
                    sends: seq<S.Sender>, ops: seq<S.Operation>, states: seq<R.Receiver>, callbacks: seq<R.Callback>,
                    k: Key)
    requires SR.Run(sends, ops) && RR.Run(decode, session, states, callbacks) && RR.AllKnown(names, callbacks)
    requires var s := sends[|ops|];
             && k.wireId in s.submitted && TaskOf(encode, s.submitted[k.wireId], data)
             && RoundTrips(encode, decode, data)
             && k.session == session && FromSender(s, session, k, callbacks)
    ensures var signals := RR.SignalsOf(states[|callbacks|], k);
            forall i :: 0 <= i < |signals| && signals[i].Completed? ==> signals[i].data == data
  {
    hide S.Step, RR.Run, SR.SenderOk, RoundTrips, TaskOf, RR.AllKnown, RR.SignalsOf, HonestPacket, WasSent;
    var s := sends[|ops|];
    assert SR.SenderOk(s) by { SenderOkAtEnd(sends, ops); }
    var meta := s.submitted[k.wireId].meta;
    EverythingIsHonest(encode, decode, s, session, k, data, callbacks);
    RR.EveryDeliveryIsTrue(decode, names, encode(data), meta, session, states, callbacks, k);
    assert decode(encode(data)) == data by { Decodes(encode, decode, data); }
  }

  lemma Decodes(encode: Encoder, decode: T.Decoder, data: seq<int>)
    requires RoundTrips(encode, decode, data)
    ensures decode(encode(data)) == data
  {
  }

  lemma SenderOkAtEnd(sends: seq<S.Sender>, ops: seq<S.Operation>)
    requires SR.Run(sends, ops)
    ensures SR.SenderOk(sends[|ops|])
  {
    hide SR.SenderOk, S.Step;
    SR.RunKeeps(sends, ops, |ops|);
  }

  // ----- The receiver's checks let every file through -----

  lemma {:induction false} AsciiSize(s: string)
    requires forall i :: 0 <= i < |s| ==> s[i] as int < 0x80
    ensures Utf16Size(s) == |s|
  {
    if s != [] { AsciiSize(s[1..]); }
  }

  /** What the user interface may submit: a file or an image of 1 byte to 15 MiB, under an id of at most 256 units. */
  predicate MaySend(t: S.Task, data: seq<int>) {
    && 0 < |data| <= MAXIMUM_FILE && (t.meta.mediaType == "file" || t.meta.mediaType == "image")
    && t.transferId != "" && Utf16Size(t.transferId) <= 256
  }

  lemma SliceIsPart(text: string, index: nat)
    requires index < SliceCount(|text|)
    ensures Slice(text, index) != [] && |Slice(text, index)| <= SLICE_SIZE
    ensures forall i :: 0 <= i < |Slice(text, index)| ==> Slice(text, index)[i] in text
  {
  }

  lemma ChunkIsWellFormed(encode: Encoder, task: S.Task, data: seq<int>, index: nat)
    requires TaskOf(encode, task, data) && IsBase64(encode, data) && MaySend(task, data)
    requires index < task.meta.totalChunks
    ensures T.WellFormed(S.ChunkPacket(task, index))
  {
    hide Slice, SliceCount, Utf16Size;
    LargestFileFits(|data|, task.text);
    SliceIsPart(task.text, index);
    AsciiSize(Slice(task.text, index));
  }

  /** No packet of such a file is ever refused for its form. */
  lemma SentIsWellFormed(encode: Encoder, s: S.Sender, p: T.Packet, data: seq<int>)
    requires SR.SenderOk(s) && WasSent(s, p)
    requires p.wireId in s.submitted && s.submitted[p.wireId].transferId == p.wireId
    requires TaskOf(encode, s.submitted[p.wireId], data) && IsBase64(encode, data)
    requires MaySend(s.submitted[p.wireId], data)
    ensures T.WellFormed(p)
  {
    hide SR.AllFiles, S.CacheBytes, Slice, SliceCount, Utf16Size;
    var i :| 0 <= i < |s.sent| && !s.sent[i].Unavailable? && s.sent[i].packet == p;
    assert SR.WireOk(s.submitted, s.sent[i]);
    var o := s.submitted[p.wireId];
    LargestFileFits(|data|, o.text);
    if p.isChunk { ChunkIsWellFormed(encode, o, data, p.index); }
  }

  // ----- The sender serves what the receiver asks for -----

  /** The indices of a request: in range, each once, at most 64; all missing, or the last one when none is. */
  lemma WantedMeaning(t: T.Transfer)
    requires T.TransferOk(t)
    ensures var wanted, total := R.Wanted(t), t.meta.totalChunks;
            && 0 < |wanted| <= RECOVERY_BATCH && |Elements(wanted)| == |wanted|
            && (forall i :: i in wanted ==> i < total)
            && (|t.chunks| < total ==> forall i :: i in wanted ==> i !in t.chunks)
            && (|t.chunks| < total && |wanted| < RECOVERY_BATCH ==>
                  forall i :: 0 <= i < total && i !in t.chunks ==> i in wanted)
            && (|t.chunks| == total ==> wanted == [total - 1])
  {
    hide MissingFrom, Below;
    var total := t.meta.totalChunks;
    MissingMeaning(t.chunks, 0, total, RECOVERY_BATCH);
    Pigeonhole(t.chunks, total);
    var missing := MissingFrom(t.chunks, 0, total, RECOVERY_BATCH);
    if |t.chunks| < total {
      SomeMissing(t.chunks, total);
    }
    if missing == [] {
      assert Elements([total - 1 as nat]) == {total - 1 as nat};
    } else {
      assert missing[0] in missing;
    }
  }

  lemma SomeMissing(chunks: map<nat, string>, total: nat)
    requires |chunks| < total
    ensures exists i :: 0 <= i < total && i !in chunks
  {
    if forall i :: 0 <= i < total ==> i in chunks {
      assert Below(total) <= chunks.Keys;
      SubsetSize(Below(total), chunks.Keys);
    }
  }

  function Numbers(wanted: seq<nat>): (r: seq<Option<int>>)
    ensures |r| == |wanted| && forall i :: 0 <= i < |wanted| ==> r[i] == Some(wanted[i])
  {
    if wanted == [] then [] else [Some(wanted[0])] + Numbers(wanted[1..])
  }

  /** No request for a transfer is refused by its sender for its form, and it is read as what was asked. */
  lemma RequestIsServed(t: T.Transfer, o: S.Task)
    requires T.TransferOk(t) && t.meta == o.meta && o.transferId != "" && Utf16Size(o.transferId) <= 256
    ensures var numbers := Numbers(R.Wanted(t));
            && S.RequestOk(S.Request(o.transferId, numbers)) && S.IndicesOk(numbers, o.meta.totalChunks)
            && S.Indices(numbers) == Elements(R.Wanted(t))
  {
    hide R.Wanted, Utf16Size;
    WantedMeaning(t);
    var wanted, numbers := R.Wanted(t), Numbers(R.Wanted(t));
    forall i | 0 <= i < |numbers| ensures 0 <= numbers[i].value < o.meta.totalChunks {
      assert wanted[i] in wanted;
    }
    forall n | n in Elements(wanted) ensures n in S.Indices(numbers) {
      var i: nat :| i < |wanted| && wanted[i] == n;
      assert numbers[i] == Some(n);
    }
  }
}
