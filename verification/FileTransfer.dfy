/** Chunked file transfer: cutting a file into chunks, collecting them in any order, and reassembling. */
module FileTransfer {
  import opened Prelude

  const CHUNK_SIZE := 65536

  type Content = seq<Byte>

  datatype Chunk = Chunk(idx: int, data: Content, size: int)

  /** A packet of the stream after the metadata: a chunk, or anything else. */
  datatype Packet = ChunkPacket(chunk: Chunk) | OtherPacket

  datatype Status = Pending | Sending | Receiving | Complete | Failed

  function ChunkCount(size: nat): nat {
    (size + CHUNK_SIZE - 1) / CHUNK_SIZE
  }

  function Clip(n: nat, size: nat): nat {
    if n < size then n else size
  }

  /** The i-th chunk of a file, from full reads. */
  function Slice(file: Content, i: nat): Content {
    file[Clip(i * CHUNK_SIZE, |file|)..Clip((i + 1) * CHUNK_SIZE, |file|)]
  }

  /** Just enough chunks to hold the file, none of them empty. */
  lemma ChunkCountIsCeiling(size: nat)
    ensures size <= ChunkCount(size) * CHUNK_SIZE < size + CHUNK_SIZE
  {
  }

  lemma {:induction false} SlicesJoin(file: Content, k: nat)
    ensures JoinedSlices(file, k) == file[..Clip(k * CHUNK_SIZE, |file|)]
  {
    if k > 0 {
      SlicesJoin(file, k - 1);
      assert file[..Clip((k - 1) * CHUNK_SIZE, |file|)] + Slice(file, k - 1) == file[..Clip(k * CHUNK_SIZE, |file|)];
    }
  }

  function JoinedSlices(file: Content, k: nat): Content {
    if k == 0 then [] else JoinedSlices(file, k - 1) + Slice(file, k - 1)
  }

  // -------------------------------------------------------------- the receiver

  /** A chunk the receiver accepts. */
  predicate Acceptable(p: Packet, count: int) {
    p.ChunkPacket? && 0 <= p.chunk.idx < count && p.chunk.size == |p.chunk.data|
  }

  predicate AllAcceptable(packets: seq<Packet>, count: nat) {
    |packets| >= count && forall i :: 0 <= i < count ==> Acceptable(packets[i], count)
  }

  /** The table of chunks after some packets; a later chunk replaces an earlier one with its index. */
  function Table(packets: seq<Packet>): map<int, Chunk> {
    if packets == [] then map[]
    else
      var init, last := Table(packets[..|packets| - 1]), packets[|packets| - 1];
      if last.ChunkPacket? then init[last.chunk.idx := last.chunk] else init
  }

  function SizeSum(packets: seq<Packet>): int {
    if packets == [] then 0
    else
      var last := packets[|packets| - 1];
      SizeSum(packets[..|packets| - 1]) + if last.ChunkPacket? then last.chunk.size else 0
  }

  predicate HasAll(table: map<int, Chunk>, count: nat) {
    forall i :: 0 <= i < count ==> i in table
  }

  function Assembled(table: map<int, Chunk>, count: nat): Content
    requires HasAll(table, count)
  {
    if count == 0 then [] else Assembled(table, count - 1) + table[count - 1].data
  }

  /** The chunk indices of the first packets are all different. */
  predicate DistinctChunks(packets: seq<Packet>, count: nat) {
    AllAcceptable(packets, count) &&
    forall i, j :: 0 <= i < j < count ==> packets[i].chunk.idx != packets[j].chunk.idx
  }

  class Transfer {
    const chunkCount: int
    var status: Status
    var received: int
    var chunks: map<int, Chunk>
    /** What has been written to the output file. */
    var output: Content

    constructor (chunkCount: int, status: Status)
      ensures this.chunkCount == chunkCount && this.status == status
      ensures received == 0 && chunks == map[] && output == []
    {
      this.chunkCount, this.status := chunkCount, status;
      received, chunks, output := 0, map[], [];
    }

    /** Reads as many packets as the metadata announces, storing each acceptable chunk under its index;
        stops at the first that cannot be read or is not acceptable. */
    method ReceiveChunks(packets: seq<Packet>) returns (ok: bool)
      requires received == 0 && chunks == map[]
      modifies this`status, this`received, this`chunks
      ensures ok <==> chunkCount <= 0 || AllAcceptable(packets, chunkCount)
      ensures ok ==> status == old(status)
      ensures ok && chunkCount >= 0 ==> chunks == Table(packets[..chunkCount]) && received == SizeSum(packets[..chunkCount])
      ensures chunkCount <= 0 ==> chunks == map[] && received == 0
      ensures !ok ==> status == Failed
    {
      var i := 0;
      while i < chunkCount
        invariant 0 <= i && (i <= chunkCount || i == 0) && i <= |packets|
        invariant forall j :: 0 <= j < i ==> Acceptable(packets[j], chunkCount)
        invariant chunks == Table(packets[..i]) && received == SizeSum(packets[..i])
        invariant status == old(status)
      {
        if i >= |packets| {
          status := Failed;
          return false;
        }
        var p := packets[i];
        if !p.ChunkPacket? {
          status := Failed;
          return false;
        }
        var chunk := p.chunk;
        if chunk.idx < 0 || chunk.idx >= chunkCount {
          status := Failed;
          return false;
        }
        if chunk.size != |chunk.data| {
          status := Failed;
          return false;
        }
        assert packets[..i + 1][..i] == packets[..i];
        chunks := chunks[chunk.idx := chunk];
        received := received + chunk.size;
        i := i + 1;
      }
      return true;
    }

    /** Writes the chunks in index order; stops at the first that is missing. */
    method Reassemble() returns (ok: bool)
      requires output == []
      modifies this`output
      ensures ok <==> forall i :: 0 <= i < chunkCount ==> i in chunks
      ensures ok && chunkCount >= 0 ==> output == Assembled(chunks, chunkCount)
      ensures chunkCount <= 0 ==> output == []
    {
      var i := 0;
      while i < chunkCount
        invariant 0 <= i && (i <= chunkCount || i == 0)
        invariant forall j :: 0 <= j < i ==> j in chunks
        invariant output == Assembled(chunks, i)
      {
        if i !in chunks {
          return false;
        }
        output := output + chunks[i].data;
        i := i + 1;
      }
      return true;
    }

    /** The receiving side of a stream after its metadata. With a positive chunk count it completes exactly
        when that many acceptable chunks arrive with different indices: a missing chunk means a repeated one.
        Otherwise it completes at once with an empty file. */
    method HandleStream(packets: seq<Packet>)
      requires received == 0 && chunks == map[] && output == [] && status == Receiving
      modifies this
      ensures status == Complete || status == Failed
      ensures status == Complete <==> chunkCount <= 0 || DistinctChunks(packets, chunkCount)
      ensures status == Complete && chunkCount > 0 ==>
                && HasAll(Table(packets[..chunkCount]), chunkCount)
                && output == Assembled(Table(packets[..chunkCount]), chunkCount)
                && received == SizeSum(packets[..chunkCount])
      ensures chunkCount <= 0 ==> output == [] && received == 0
      ensures status == Complete ==> received == |output|
    {
      var ok := ReceiveChunks(packets);
      if !ok {
        return;
      }
      ok := Reassemble();
      if chunkCount > 0 {
        CompleteIffDistinct(packets, chunkCount);
      }
      if !ok {
        status := Failed;
        return;
      }
      status := Complete;
      if chunkCount > 0 {
        assert packets[..chunkCount][..chunkCount] == packets[..chunkCount];
        ReceivedIsOutput(packets[..chunkCount]);
      }
    }
  }

  // ------------------------------------------------------------- the pigeonhole

  lemma {:induction false} TableKeys(packets: seq<Packet>)
    ensures forall k :: k in Table(packets) <==>
              exists i :: 0 <= i < |packets| && packets[i].ChunkPacket? && packets[i].chunk.idx == k
  {
    if packets != [] {
      var n := |packets| - 1;
      TableKeys(packets[..n]);
      forall k | k in Table(packets)
        ensures exists i :: 0 <= i < |packets| && packets[i].ChunkPacket? && packets[i].chunk.idx == k
      {
        if k in Table(packets[..n]) {
          var i :| 0 <= i < n && packets[..n][i].ChunkPacket? && packets[..n][i].chunk.idx == k;
          assert packets[i] == packets[..n][i];
        }
      }
      forall i | 0 <= i < |packets| && packets[i].ChunkPacket?
        ensures packets[i].chunk.idx in Table(packets)
      {
        if i < n {
          assert packets[..n][i] == packets[i];
        }
      }
    }
  }

  predicate Onto(xs: seq<int>, count: nat) {
    forall k :: 0 <= k < count ==> k in xs
  }

  predicate Below(xs: seq<int>, count: nat) {
    forall i :: 0 <= i < |xs| ==> 0 <= xs[i] < count
  }

  /** Among `count` numbers below `count`, every one occurs exactly when no two are equal. */
  lemma Pigeonhole(xs: seq<int>, count: nat)
    requires |xs| == count && Below(xs, count)
    ensures Onto(xs, count) <==> Distinct(xs)
  {
    var all := Numbers(count);
    var used := set x | x in xs;
    if Distinct(xs) {
      DistinctBound(xs, used);
      CardinalityMonotone(used, all);
      assert used == all;
      forall k | 0 <= k < count
        ensures k in xs
      {
        assert k in used;
      }
    } else {
      var i, j :| 0 <= i < j < |xs| && xs[i] == xs[j];
      RepeatedUse(xs, i, j);
      if Onto(xs, count) {
        CardinalityMonotone(all, used);
      }
    }
  }

  lemma RepeatedUse(xs: seq<int>, i: nat, j: nat)
    requires i < j < |xs| && xs[i] == xs[j]
    ensures |set x | x in xs| <= |xs| - 1
  {
    var rest := xs[..j] + xs[j + 1..];
    UsedAtMost(rest);
    forall x | x in xs
      ensures x in rest
    {
      var k :| 0 <= k < |xs| && xs[k] == x;
      assert rest[if k < j then k else if k == j then i else k - 1] == x;
    }
    CardinalityMonotone(set x | x in xs, set x | x in rest);
  }

  function Numbers(n: nat): (s: set<int>)
    ensures |s| == n && forall i :: i in s <==> 0 <= i < n
  {
    if n == 0 then {} else Numbers(n - 1) + {n - 1}
  }

  lemma {:induction false} UsedAtMost(xs: seq<int>)
    ensures |set x | x in xs| <= |xs|
  {
    if xs != [] {
      UsedAtMost(xs[1..]);
      assert (set x | x in xs) == (set x | x in xs[1..]) + {xs[0]};
    }
  }

  lemma CompleteIffDistinct(packets: seq<Packet>, count: nat)
    requires AllAcceptable(packets, count)
    ensures HasAll(Table(packets[..count]), count) <==> DistinctChunks(packets, count)
  {
    var xs := seq(count, i requires 0 <= i < count => packets[i].chunk.idx);
    assert forall i :: 0 <= i < count ==> xs[i] == packets[i].chunk.idx;
    Pigeonhole(xs, count);
    TableKeys(packets[..count]);
    assert forall k :: k in Table(packets[..count]) <==> k in xs;
  }

  // ---------------------------------------------------------------- end to end

  /** The file's chunks in order. */
  function Cut(file: Content): seq<Packet> {
    seq(ChunkCount(|file|), i requires 0 <= i < ChunkCount(|file|) =>
      ChunkPacket(Chunk(i, Slice(file, i), |Slice(file, i)|)))
  }

  /** The sender's loop over full reads of the file. */
  method SendChunks(file: Content) returns (packets: seq<Packet>, sent: int)
    ensures packets == Cut(file) && sent == |file|
  {
    packets, sent := [], 0;
    var count := ChunkCount(|file|);
    ChunkCountIsCeiling(|file|);
    var pos := 0;
    for i := 0 to count
      invariant pos == sent == Clip(i * CHUNK_SIZE, |file|) && |packets| == i
      invariant forall j :: 0 <= j < i ==> packets[j] == ChunkPacket(Chunk(j, Slice(file, j), |Slice(file, j)|))
    {
      var n := Clip(CHUNK_SIZE, |file| - pos);
      if n == 0 {
        break;
      }
      packets := packets + [ChunkPacket(Chunk(i, file[pos..pos + n], n))];
      pos, sent := pos + n, sent + n;
    }
  }

  /** A chunk as the sender cuts it. */
  predicate FromSender(p: Packet, file: Content) {
    && p.ChunkPacket? && p.chunk.idx >= 0
    && p.chunk.data == Slice(file, p.chunk.idx) && p.chunk.size == |p.chunk.data|
  }

  /** These packets are the sender's, in some order. */
  predicate Shuffled(packets: seq<Packet>, file: Content) {
    && |packets| == ChunkCount(|file|)
    && DistinctChunks(packets, |packets|)
    && forall i :: 0 <= i < |packets| ==> FromSender(packets[i], file)
  }

  lemma {:induction false} TableValues(packets: seq<Packet>, file: Content)
    requires forall i :: 0 <= i < |packets| ==> FromSender(packets[i], file)
    ensures forall k :: k in Table(packets) ==> k >= 0 && Table(packets)[k].data == Slice(file, k)
  {
    if packets != [] {
      TableValues(packets[..|packets| - 1], file);
    }
  }

  lemma {:induction false} AssembledSlices(table: map<int, Chunk>, file: Content, k: nat)
    requires HasAll(table, k) && forall i :: 0 <= i < k ==> table[i].data == Slice(file, i)
    ensures Assembled(table, k) == JoinedSlices(file, k)
  {
    if k > 0 {
      AssembledSlices(table, file, k - 1);
    }
  }

  /** The total length of the chunks with these indices. */
  function Lengths(xs: seq<int>, len: int -> nat): nat {
    if xs == [] then 0 else Lengths(xs[..|xs| - 1], len) + len(xs[|xs| - 1])
  }

  function LengthsTo(n: nat, len: int -> nat): nat {
    if n == 0 then 0 else LengthsTo(n - 1, len) + len(n - 1)
  }

  lemma {:induction false} LengthsSplit(a: seq<int>, b: seq<int>, len: int -> nat)
    ensures Lengths(a + b, len) == Lengths(a, len) + Lengths(b, len)
  {
    if b == [] {
      assert a + b == a;
    } else {
      assert (a + b)[..|a + b| - 1] == a + b[..|b| - 1];
      LengthsSplit(a, b[..|b| - 1], len);
    }
  }

  /** Moving one number to the end leaves the sum. */
  lemma LengthsMove(xs: seq<int>, j: nat, len: int -> nat)
    requires j < |xs|
    ensures Lengths(xs, len) == Lengths(xs[..j] + xs[j + 1..], len) + len(xs[j])
  {
    hide Lengths;
    var a, x, b := xs[..j], xs[j], xs[j + 1..];
    assert xs == a + ([x] + b);
    LengthsSplit(a, [x] + b, len);
    LengthsSplit([x], b, len);
    LengthsSplit(a, b, len);
    OneLength(x, len);
  }

  lemma OneLength(x: int, len: int -> nat)
    ensures Lengths([x], len) == len(x)
  {
    assert [x][..0] == [];
  }

  /** The chunk lengths add up to the same in whatever order they come. */
  lemma {:induction false} LengthsOfPermutation(xs: seq<int>, len: int -> nat)
    requires Distinct(xs) && Below(xs, |xs|)
    ensures Lengths(xs, len) == LengthsTo(|xs|, len)
  {
    var n := |xs|;
    if n > 0 {
      Pigeonhole(xs, n);
      assert n - 1 in xs;
      var j :| 0 <= j < n && xs[j] == n - 1;
      hide Lengths;
      LengthsMove(xs, j, len);
      WithoutLargest(xs, j);
      LengthsOfPermutation(xs[..j] + xs[j + 1..], len);
    }
  }

  lemma WithoutLargest(xs: seq<int>, j: nat)
    requires Distinct(xs) && Below(xs, |xs|) && j < |xs| && xs[j] == |xs| - 1
    ensures Distinct(xs[..j] + xs[j + 1..]) && Below(xs[..j] + xs[j + 1..], |xs| - 1)
  {
    var rest := xs[..j] + xs[j + 1..];
    forall i | 0 <= i < |rest|
      ensures rest[i] == xs[if i < j then i else i + 1]
    {
    }
  }

  lemma {:induction false} SizeSumLengths(packets: seq<Packet>, xs: seq<int>, len: int -> nat)
    requires |xs| == |packets|
    requires forall i :: 0 <= i < |packets| ==> packets[i].ChunkPacket? && packets[i].chunk.size == len(xs[i])
    ensures SizeSum(packets) == Lengths(xs, len)
  {
    if packets != [] {
      SizeSumLengths(packets[..|packets| - 1], xs[..|xs| - 1], len);
    }
  }

  // ------------------------------------------------- what a completed transfer counts

  /** How much the table holds under an index. */
  function Held(table: map<int, Chunk>): int -> nat {
    (k: int) => if k in table then |table[k].data| else 0
  }

  lemma {:induction false} AssembledLength(table: map<int, Chunk>, n: nat)
    requires HasAll(table, n)
    ensures |Assembled(table, n)| == LengthsTo(n, Held(table))
  {
    if n > 0 {
      AssembledLength(table, n - 1);
    }
  }

  /** Chunks with different indices all stay in the table. */
  lemma {:induction false} TableHolds(packets: seq<Packet>, i: nat)
    requires i < |packets| && forall j :: 0 <= j < |packets| ==> packets[j].ChunkPacket?
    requires forall j, k :: 0 <= j < k < |packets| ==> packets[j].chunk.idx != packets[k].chunk.idx
    ensures packets[i].chunk.idx in Table(packets) && Table(packets)[packets[i].chunk.idx] == packets[i].chunk
  {
    var n := |packets| - 1;
    if i < n {
      TableHolds(packets[..n], i);
    }
  }

  /** Whatever chunks they were: when all have arrived, the received bytes are those of the output. */
  lemma ReceivedIsOutput(packets: seq<Packet>)
    requires DistinctChunks(packets, |packets|) && HasAll(Table(packets), |packets|)
    ensures SizeSum(packets) == |Assembled(Table(packets), |packets|)|
  {
    hide Table, SizeSum, Assembled, Lengths;
    var n, table := |packets|, Table(packets);
    var xs := seq(n, i requires 0 <= i < n => packets[i].chunk.idx);
    forall i | 0 <= i < n
      ensures packets[i].chunk.size == Held(table)(xs[i])
    {
      TableHolds(packets, i);
    }
    assert Distinct(xs) && Below(xs, n);
    SizeSumLengths(packets, xs, Held(table));
    LengthsOfPermutation(xs, Held(table));
    AssembledLength(table, n);
  }

  /** The sender's chunks in any order reassemble to the file, byte for byte, and count its size. */
  lemma AnyOrderReassembles(packets: seq<Packet>, file: Content)
    requires Shuffled(packets, file)
    ensures HasAll(Table(packets), |packets|)
    ensures Assembled(Table(packets), |packets|) == file && SizeSum(packets) == |file|
  {
    hide Table, SizeSum, Slice;
    var n := |packets|;
    assert packets[..n] == packets;
    CompleteIffDistinct(packets, n);
    TableValues(packets, file);
    AssembledSlices(Table(packets), file, n);
    SlicesJoin(file, n);
    WholeFile(file);
    ReceivedIsOutput(packets);
  }

  lemma WholeFile(file: Content)
    ensures Clip(ChunkCount(|file|) * CHUNK_SIZE, |file|) == |file| && file[..|file|] == file
  {
    ChunkCountIsCeiling(|file|);
  }

  // ------------------------------------------------------------ a whole transfer

  lemma {:induction false} DistinctOnce<T>(s: seq<T>, x: T)
    requires Distinct(s)
    ensures multiset(s)[x] <= 1
  {
    if s != [] {
      var k := |s| - 1;
      DistinctOnce(s[..k], x);
      assert s == s[..k] + [s[k]];
      if s[k] == x {
        assert x !in s[..k];
        assert x !in multiset(s[..k]);
      }
    }
  }

  lemma TwiceInBag<T>(s: seq<T>, i: nat, j: nat)
    requires i < j < |s| && s[i] == s[j]
    ensures multiset(s)[s[i]] >= 2
  {
    assert s == s[..j] + ([s[j]] + s[j + 1..]);
    assert s[..j][i] == s[i] && s[i] in multiset(s[..j]);
  }

  /** A rearrangement of the sender's chunks is what the receiver needs: as many as announced, all of them
      cut from the file, no two with the same index. */
  lemma RearrangedIsShuffled(packets: seq<Packet>, file: Content)
    requires multiset(packets) == multiset(Cut(file))
    ensures Shuffled(packets, file)
  {
    var sent := Cut(file);
    assert |packets| == |multiset(packets)| == |multiset(sent)| == |sent|;
    forall i | 0 <= i < |packets|
      ensures FromSender(packets[i], file) && Acceptable(packets[i], |packets|)
    {
      assert packets[i] in multiset(packets);
      assert packets[i] in sent;
    }
    forall i, j | 0 <= i < j < |packets|
      ensures packets[i].chunk.idx != packets[j].chunk.idx
    {
      if packets[i].chunk.idx == packets[j].chunk.idx {
        TwiceInBag(packets, i, j);
        DistinctOnce(sent, packets[i]);
      }
    }
  }

  /** What the sender's loop emits, in whatever order it arrives, ends as the whole file on the other side,
      the empty file included. */
  method TransferFile(file: Content, arrived: seq<Packet>) returns (status: Status, output: Content, received: int)
    requires multiset(arrived) == multiset(Cut(file))
    ensures status == Complete && output == file && received == |file|
  {
    RearrangedIsShuffled(arrived, file);
    ChunkCountIsCeiling(|file|);
    AnyOrderReassembles(arrived, file);
    var transfer := new Transfer(ChunkCount(|file|), Receiving);
    assert arrived[..|arrived|] == arrived;
    transfer.HandleStream(arrived);
    return transfer.status, transfer.output, transfer.received;
  }
}
