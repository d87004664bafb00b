/** The ring of chunks between the thread that decodes sound and the thread that plays it. */
module ChunkRing {

  type Byte = x: int | 0 <= x < 256

  const CHUNK_SIZE: nat := 12 * 840 * 6

  /** The bytes from l to h are filled; a chunk marked filled belongs to the consumer, any other
      to the producer. */
  datatype Chunk = Chunk(data: seq<Byte>, l: nat, h: nat, filled: bool)

  datatype Ring = Ring(chunks: seq<Chunk>, ridx: nat, widx: nat)

  // ---------------------------------------------------------------------------------------
  // What each lock section does
  // ---------------------------------------------------------------------------------------

  predicate Indexed(ring: Ring) {
    ring.ridx < |ring.chunks| && ring.widx < |ring.chunks|
  }

  /** How many bytes can be read, and from which offset of the chunk at ridx. */
  function ReadSize(ring: Ring): int
    requires Indexed(ring)
  {
    var c := ring.chunks[ring.ridx];
    if c.filled then c.h - c.l else 0
  }

  function WriteSize(ring: Ring): int
    requires Indexed(ring)
  {
    var c := ring.chunks[ring.widx];
    if c.filled then 0 else CHUNK_SIZE - c.h
  }

  function Next(ring: Ring, i: nat): nat
    requires ring.chunks != []
  {
    (i + 1) % |ring.chunks|
  }

  function Consumed(ring: Ring, count: nat): Ring
    requires Indexed(ring)
  {
    var c := ring.chunks[ring.ridx];
    if c.l + count == c.h then
      Ring(ring.chunks[ring.ridx := c.(l := 0, h := 0, filled := false)], Next(ring, ring.ridx), ring.widx)
    else ring.(chunks := ring.chunks[ring.ridx := c.(l := c.l + count)])
  }

  /** A chunk is full when fewer than 1024 bytes are free, or when the producer says so. */
  predicate FullAfter(c: Chunk, count: nat) {
    CHUNK_SIZE - (c.h + count) < 1024 || (count == 0 && c.h > 0)
  }

  function Filled(ring: Ring, count: nat): Ring
    requires Indexed(ring)
  {
    var c := ring.chunks[ring.widx];
    var c' := c.(h := c.h + count, filled := FullAfter(c, count));
    Ring(ring.chunks[ring.widx := c'], ring.ridx,
         if c'.filled then Next(ring, ring.widx) else ring.widx)
  }

  function Empty(c: Chunk): Chunk {
    c.(l := 0, h := 0, filled := false)
  }

  function ResetRing(ring: Ring): Ring {
    Ring(seq(|ring.chunks|, i requires 0 <= i < |ring.chunks| => Empty(ring.chunks[i])), 0, 0)
  }

  function FilledChunks(ring: Ring): int
    requires Indexed(ring)
  {
    if ring.ridx < ring.widx then ring.widx - ring.ridx
    else if ring.ridx > ring.widx then |ring.chunks| - ring.ridx + ring.widx
    else if ring.chunks[ring.ridx].filled then |ring.chunks|
    else 0
  }

  // ---------------------------------------------------------------------------------------
  // The ring seen from its read index
  // ---------------------------------------------------------------------------------------

  /** All chunks in the order in which the consumer comes to them. */
  function InOrder(ring: Ring): (cs: seq<Chunk>)
    requires Indexed(ring)
    ensures |cs| == |ring.chunks|
  {
    ring.chunks[ring.ridx..] + ring.chunks[..ring.ridx]
  }

  function Bytes(c: Chunk): seq<Byte>
    requires c.l <= c.h <= |c.data|
  {
    c.data[c.l..c.h]
  }

  predicate Sound(c: Chunk) {
    |c.data| == CHUNK_SIZE && c.l <= c.h <= CHUNK_SIZE
  }

  predicate SoundAll(cs: seq<Chunk>) {
    forall i :: 0 <= i < |cs| ==> Sound(cs[i])
  }

  function Contents(cs: seq<Chunk>): seq<Byte>
    requires SoundAll(cs)
    decreases |cs|
  {
    if cs == [] then [] else Bytes(cs[0]) + Contents(cs[1..])
  }

  /** The first n chunks are filled and hold something; the next one is being filled; the rest
      are empty. */
  predicate Shape(cs: seq<Chunk>, n: int) {
    && 0 <= n <= |cs|
    && SoundAll(cs)
    && (forall i :: 0 <= i < |cs| ==> (cs[i].filled <==> i < n))
    && (forall i :: 0 <= i < n ==> cs[i].l < cs[i].h)
    && (forall i :: n <= i < |cs| ==> cs[i].l == 0)
    && (n < |cs| ==> cs[n].h <= CHUNK_SIZE - 1024)
    && (forall i :: n < i < |cs| ==> cs[i].h == 0)
  }

  predicate Valid(ring: Ring) {
    Indexed(ring) && Shape(InOrder(ring), FilledChunks(ring))
  }

  lemma {:induction false} ContentsConcat(a: seq<Chunk>, b: seq<Chunk>)
    requires SoundAll(a) && SoundAll(b)
    ensures SoundAll(a + b) && Contents(a + b) == Contents(a) + Contents(b)
    decreases |a|
  {
    if a == [] {
      assert a + b == b;
    } else {
      assert (a + b)[1..] == a[1..] + b;
      assert SoundAll(a + b);
      ContentsConcat(a[1..], b);
    }
  }

  lemma {:induction false} ContentsEmpty(cs: seq<Chunk>)
    requires SoundAll(cs) && forall i :: 0 <= i < |cs| ==> cs[i].l == cs[i].h
    ensures Contents(cs) == []
    decreases |cs|
  {
    if cs != [] {
      ContentsEmpty(cs[1..]);
    }
  }

  lemma ContentsSplit(cs: seq<Chunk>, n: nat)
    requires n < |cs| && SoundAll(cs)
    ensures SoundAll(cs[..n]) && SoundAll(cs[n + 1..])
    ensures Contents(cs) == Contents(cs[..n]) + Bytes(cs[n]) + Contents(cs[n + 1..])
  {
    var tail := cs[n..];
    assert cs == cs[..n] + tail && tail[1..] == cs[n + 1..];
    ContentsConcat(cs[..n], tail);
  }

  /** The chunk at widx comes right after the filled ones. */
  lemma WriteChunk(ring: Ring)
    requires Valid(ring)
    ensures var n := FilledChunks(ring);
            (n < |ring.chunks| ==> InOrder(ring)[n] == ring.chunks[ring.widx])
            && (n == |ring.chunks| ==> ring.chunks[ring.widx].filled)
            && (n == |ring.chunks| <==> ring.ridx == ring.widx && ring.chunks[ring.ridx].filled)
  {
    var cs := InOrder(ring);
    assert cs[0] == ring.chunks[ring.ridx];
  }

  /** The offered room is nothing or at least 1024 bytes. */
  lemma WriteSizeAtLeast1024(ring: Ring)
    requires Valid(ring)
    ensures WriteSize(ring) == 0 || WriteSize(ring) >= 1024
    ensures WriteSize(ring) > 0 <==> FilledChunks(ring) < |ring.chunks|
    ensures WriteSize(ring) > 0 <==> !ring.chunks[ring.widx].filled
  {
    WriteChunk(ring);
  }

  lemma ReadSizePositive(ring: Ring)
    requires Valid(ring)
    ensures ReadSize(ring) > 0 <==> FilledChunks(ring) > 0
    ensures ReadSize(ring) > 0 <==> ring.chunks[ring.ridx].filled
  {
    assert InOrder(ring)[0] == ring.chunks[ring.ridx];
  }

  // ---------------------------------------------------------------------------------------
  // What the lock sections keep
  // ---------------------------------------------------------------------------------------

  lemma NextInOrder(ring: Ring, i: nat)
    requires Indexed(ring) && i < |ring.chunks|
    ensures Next(ring, i) == if i + 1 == |ring.chunks| then 0 else i + 1
  {
  }

  /** The order after the chunk at ridx is replaced, and after the index moves on. */
  lemma ReplaceFirst(ring: Ring, c: Chunk, moved: bool)
    requires Indexed(ring)
    ensures var ring' := Ring(ring.chunks[ring.ridx := c], if moved then Next(ring, ring.ridx) else ring.ridx, ring.widx);
            Indexed(ring')
            && InOrder(ring') == if moved then InOrder(ring)[1..] + [c] else [c] + InOrder(ring)[1..]
  {
    NextInOrder(ring, ring.ridx);
  }

  lemma ReplaceWritten(ring: Ring, c: Chunk)
    requires Indexed(ring)
    requires ring.widx != ring.ridx || !ring.chunks[ring.ridx].filled
    ensures var n := FilledChunks(ring);
            0 <= n < |ring.chunks|
            && InOrder(ring.(chunks := ring.chunks[ring.widx := c])) == InOrder(ring)[n := c]
  {
  }

  lemma ConsumeKeepsShape(cs: seq<Chunk>, n: int, count: nat)
    requires Shape(cs, n) && n > 0 && count <= cs[0].h - cs[0].l
    ensures cs[0].l + count < cs[0].h ==> Shape([cs[0].(l := cs[0].l + count)] + cs[1..], n)
    ensures cs[0].l + count == cs[0].h ==> Shape(cs[1..] + [Empty(cs[0])], n - 1)
  {
    if cs[0].l + count == cs[0].h {
      var cs' := cs[1..] + [Empty(cs[0])];
      assert forall i :: 0 <= i < |cs| - 1 ==> cs'[i] == cs[i + 1];
      assert cs'[|cs| - 1] == Empty(cs[0]);
    }
  }

  lemma HeadContents(c: Chunk, rest: seq<Chunk>)
    requires Sound(c) && SoundAll(rest)
    ensures SoundAll([c] + rest) && Contents([c] + rest) == Bytes(c) + Contents(rest)
  {
    assert ([c] + rest)[1..] == rest;
  }

  lemma ConsumeTakesBytes(cs: seq<Chunk>, count: nat)
    requires cs != [] && SoundAll(cs) && count <= cs[0].h - cs[0].l
    ensures var c, rest := cs[0], cs[1..];
            var c' := c.(l := c.l + count);
            && SoundAll([c'] + rest) && SoundAll(rest + [Empty(c)])
            && Contents(cs) == c.data[c.l..c.l + count] + Contents([c'] + rest)
            && (c.l + count == c.h ==> Contents(cs) == c.data[c.l..c.l + count] + Contents(rest + [Empty(c)]))
  {
    hide Contents;
    var c, c', rest := cs[0], cs[0].(l := cs[0].l + count), cs[1..];
    assert cs == [c] + rest;
    HeadContents(c, rest);
    HeadContents(c', rest);
    assert Bytes(c) == c.data[c.l..c.l + count] + Bytes(c');
    ContentsEmpty([Empty(c)]);
    ContentsConcat(rest, [Empty(c)]);
    assert Contents(rest) + [] == Contents(rest);
    assert c.l + count == c.h ==> Bytes(c') == [];
  }

  /** The bytes at the front of the ring. */
  function FrontBytes(ring: Ring, count: nat): seq<Byte>
    requires Valid(ring) && count <= ReadSize(ring)
  {
    FirstInOrder(ring);
    var c := ring.chunks[ring.ridx];
    if c.filled then c.data[c.l..c.l + count] else []
  }

  /** The bytes behind what is filled of the chunk that is being written. */
  function NewBytes(ring: Ring, count: nat): seq<Byte>
    requires Valid(ring) && count <= WriteSize(ring)
  {
    WriteChunk(ring);
    var c := ring.chunks[ring.widx];
    if c.filled then [] else c.data[c.h..c.h + count]
  }

  function Stored(ring: Ring): seq<Byte>
    requires Valid(ring)
  {
    Contents(InOrder(ring))
  }

  /** Consuming keeps the ring valid and takes exactly the bytes at the front. */
  lemma ConsumeKeeps(ring: Ring, count: nat)
    requires Valid(ring) && ReadSize(ring) > 0 && count <= ReadSize(ring)
    ensures Valid(Consumed(ring, count))
    ensures Stored(ring) == FrontBytes(ring, count) + Stored(Consumed(ring, count))
  {
    hide Contents, Shape, InOrder;
    var c, cs, n := ring.chunks[ring.ridx], InOrder(ring), FilledChunks(ring);
    FirstInOrder(ring);
    ReadSizePositive(ring);
    ShapeSound(cs, n);
    WriteChunk(ring);
    NextInOrder(ring, ring.ridx);
    ConsumeKeepsShape(cs, n, count);
    ConsumeTakesBytes(cs, count);
    ConsumedOrder(ring, count);
  }

  lemma ConsumedOrder(ring: Ring, count: nat)
    requires Valid(ring) && ReadSize(ring) > 0 && count <= ReadSize(ring)
    ensures var ring', c, cs := Consumed(ring, count), ring.chunks[ring.ridx], InOrder(ring);
            && Indexed(ring')
            && (if c.l + count == c.h
                then InOrder(ring') == cs[1..] + [Empty(c)] && FilledChunks(ring') == FilledChunks(ring) - 1
                else InOrder(ring') == [c.(l := c.l + count)] + cs[1..] && FilledChunks(ring') == FilledChunks(ring))
  {
    hide Contents, InOrder;
    var c, n := ring.chunks[ring.ridx], FilledChunks(ring);
    FirstInOrder(ring);
    ReadSizePositive(ring);
    NextInOrder(ring, ring.ridx);
    WriteChunk(ring);
    if c.l + count == c.h {
      ReplaceFirst(ring, Empty(c), true);
      SecondInOrder(ring);
    } else {
      ReplaceFirst(ring, c.(l := c.l + count), false);
    }
  }

  lemma SecondInOrder(ring: Ring)
    requires Indexed(ring)
    ensures |ring.chunks| > 1 ==> InOrder(ring)[1] == ring.chunks[Next(ring, ring.ridx)]
  {
    NextInOrder(ring, ring.ridx);
  }

  lemma FirstInOrder(ring: Ring)
    requires Indexed(ring)
    ensures InOrder(ring)[0] == ring.chunks[ring.ridx]
  {
  }

  lemma ShapeSound(cs: seq<Chunk>, n: int)
    requires Shape(cs, n)
    ensures SoundAll(cs)
  {
  }

  lemma FillKeepsShape(cs: seq<Chunk>, n: nat, count: nat)
    requires Shape(cs, n) && n < |cs| && count <= CHUNK_SIZE - cs[n].h
    ensures var c' := cs[n].(h := cs[n].h + count, filled := FullAfter(cs[n], count));
            Shape(cs[n := c'], if c'.filled then n + 1 else n)
  {
    var c' := cs[n].(h := cs[n].h + count, filled := FullAfter(cs[n], count));
    var cs' := cs[n := c'];
    assert forall i :: 0 <= i < |cs| && i != n ==> cs'[i] == cs[i];
  }

  lemma FillAddsBytes(cs: seq<Chunk>, n: nat, count: nat, full: bool)
    requires Shape(cs, n) && n < |cs| && count <= CHUNK_SIZE - cs[n].h
    ensures var c' := cs[n].(h := cs[n].h + count, filled := full);
            SoundAll(cs[n := c'])
            && Contents(cs[n := c']) == Contents(cs) + cs[n].data[cs[n].h..cs[n].h + count]
  {
    hide Contents;
    var c := cs[n];
    var c' := c.(h := c.h + count, filled := full);
    var cs' := cs[n := c'];
    ContentsSplit(cs, n);
    ContentsSplit(cs', n);
    assert cs'[..n] == cs[..n] && cs'[n + 1..] == cs[n + 1..];
    ContentsEmpty(cs[n + 1..]);
    assert Bytes(c') == Bytes(c) + c.data[c.h..c.h + count];
  }

  /** Filling keeps the ring valid and appends exactly the bytes after the filled ones. */
  lemma FillKeeps(ring: Ring, count: nat)
    requires Valid(ring) && WriteSize(ring) > 0 && count <= WriteSize(ring)
    ensures Valid(Filled(ring, count))
    ensures Stored(Filled(ring, count)) == Stored(ring) + NewBytes(ring, count)
  {
    hide Contents, Shape, InOrder;
    var c, cs, n := ring.chunks[ring.widx], InOrder(ring), FilledChunks(ring);
    WriteChunk(ring);
    var c' := c.(h := c.h + count, filled := FullAfter(c, count));
    FillKeepsShape(cs, n, count);
    FillAddsBytes(cs, n, count, c'.filled);
    ReplaceWritten(ring, c');
    NextInOrder(ring, ring.widx);
    FilledOrder(ring, count);
    ShapeSound(cs[n := c'], if c'.filled then n + 1 else n);
  }

  lemma FilledOrder(ring: Ring, count: nat)
    requires Valid(ring) && WriteSize(ring) > 0 && count <= WriteSize(ring)
    ensures var ring' := Filled(ring, count);
            Indexed(ring')
            && InOrder(ring') == InOrder(ring.(chunks := ring'.chunks))
            && FilledChunks(ring') == FilledChunks(ring) + if FullAfter(ring.chunks[ring.widx], count) then 1 else 0
  {
    hide Contents;
    WriteChunk(ring);
    NextInOrder(ring, ring.widx);
    assert InOrder(ring)[0] == ring.chunks[ring.ridx];
  }

  function CountFilled(cs: seq<Chunk>): nat
    decreases |cs|
  {
    if cs == [] then 0 else (if cs[0].filled then 1 else 0) + CountFilled(cs[1..])
  }

  lemma {:induction false} CountConcat(a: seq<Chunk>, b: seq<Chunk>)
    ensures CountFilled(a + b) == CountFilled(a) + CountFilled(b)
    decreases |a|
  {
    if a == [] {
      assert a + b == b;
    } else {
      assert (a + b)[1..] == a[1..] + b;
      CountConcat(a[1..], b);
    }
  }

  lemma {:induction false} CountRun(cs: seq<Chunk>, n: nat)
    requires n <= |cs| && forall i :: 0 <= i < |cs| ==> (cs[i].filled <==> i < n)
    ensures CountFilled(cs) == n
    decreases |cs|
  {
    if cs != [] {
      CountRun(cs[1..], if n > 0 then n - 1 else 0);
    }
  }

  /** The count worked out from the two indices is the number of chunks that are marked filled. */
  lemma FilledChunksIsCount(ring: Ring)
    requires Valid(ring)
    ensures FilledChunks(ring) == CountFilled(ring.chunks)
  {
    CountRun(InOrder(ring), FilledChunks(ring));
    CountConcat(ring.chunks[ring.ridx..], ring.chunks[..ring.ridx]);
    CountConcat(ring.chunks[..ring.ridx], ring.chunks[ring.ridx..]);
    assert ring.chunks[..ring.ridx] + ring.chunks[ring.ridx..] == ring.chunks;
  }

  // ---------------------------------------------------------------------------------------
  // One producer and one consumer
  // ---------------------------------------------------------------------------------------

  /** A thread between asking for a position and committing: the chunk and offset it was given,
      how much room or data it may touch, and the bytes it has moved so far. */
  datatype Holder = Idle | Holding(chunk: nat, offset: nat, size: nat, moved: seq<Byte>)

  /** `produced` and `consumed` record every byte that was committed since the last reset. */
  datatype System = System(
    ring: Ring,
    producer: Holder,
    consumer: Holder,
    produced: seq<Byte>,
    consumed: seq<Byte>)

  /** Lock sections are single events; bytes are moved one at a time outside the lock. */
  datatype Event =
    | GetWpos
    | PutByte(b: Byte)
    | Fill(count: nat)
    | GetRpos
    | TakeByte
    | Consume(count: nat)
    | Reset

  /** The threads keep to the sizes they were given and commit only what they moved. */
  predicate Allowed(s: System, e: Event) {
    match e
    case GetWpos => s.producer.Idle?
    case PutByte(_) => s.producer.Holding? && |s.producer.moved| < s.producer.size
    case Fill(count) => s.producer.Holding? && count <= |s.producer.moved|
    case GetRpos => s.consumer.Idle?
    case TakeByte => s.consumer.Holding? && |s.consumer.moved| < s.consumer.size
    case Consume(count) => s.consumer.Holding? && count <= |s.consumer.moved|
    case Reset => s.producer.Idle? && s.consumer.Idle?
  }

  function WithByte(ring: Ring, chunk: nat, at: nat, b: Byte): Ring
    requires chunk < |ring.chunks| && at < |ring.chunks[chunk].data|
  {
    var c := ring.chunks[chunk];
    ring.(chunks := ring.chunks[chunk := c.(data := c.data[at := b])])
  }

  ghost predicate Inv(s: System) {
    && Valid(s.ring)
    && s.produced == s.consumed + Stored(s.ring)
    && (s.producer.Holding? ==>
          var p, c := s.producer, s.ring.chunks[s.ring.widx];
          && !c.filled
          && p.chunk == s.ring.widx
          && p.offset == c.h
          && |p.moved| <= p.size == CHUNK_SIZE - c.h
          && Sound(c)
          && p.moved == c.data[c.h..c.h + |p.moved|])
    && (s.consumer.Holding? ==>
          var q, c := s.consumer, s.ring.chunks[s.ring.ridx];
          && c.filled
          && q.chunk == s.ring.ridx
          && q.offset == c.l
          && Sound(c)
          && |q.moved| <= q.size == c.h - c.l
          && q.moved == c.data[c.l..c.l + |q.moved|])
  }

  function Step(s: System, e: Event): System
    requires Inv(s) && Allowed(s, e)
  {
    match e
    case GetWpos =>
      var size := WriteSize(s.ring);
      if size == 0 then s
      else
        WriteSizeAtLeast1024(s.ring);
        s.(producer := Holding(s.ring.widx, s.ring.chunks[s.ring.widx].h, size, []))
    case PutByte(b) =>
      var p := s.producer;
      s.(ring := WithByte(s.ring, p.chunk, p.offset + |p.moved|, b), producer := p.(moved := p.moved + [b]))
    case Fill(count) =>
      s.(ring := Filled(s.ring, count), producer := Idle, produced := s.produced + s.producer.moved[..count])
    case GetRpos =>
      var size := ReadSize(s.ring);
      if size <= 0 then s
      else s.(consumer := Holding(s.ring.ridx, s.ring.chunks[s.ring.ridx].l, size, []))
    case TakeByte =>
      var q := s.consumer;
      s.(consumer := q.(moved := q.moved + [s.ring.chunks[q.chunk].data[q.offset + |q.moved|]]))
    case Consume(count) =>
      s.(ring := Consumed(s.ring, count), consumer := Idle, consumed := s.consumed + s.consumer.moved[..count])
    case Reset =>
      s.(ring := ResetRing(s.ring), produced := [], consumed := [])
  }

  lemma PutByteKeeps(ring: Ring, at: nat, b: Byte)
    requires Valid(ring) && WriteSize(ring) > 0
    requires var c := ring.chunks[ring.widx]; Sound(c) && c.h <= at < CHUNK_SIZE
    ensures Valid(WithByte(ring, ring.widx, at, b))
    ensures Stored(WithByte(ring, ring.widx, at, b)) == Stored(ring)
  {
    hide Contents, InOrder;
    var c, cs, n := ring.chunks[ring.widx], InOrder(ring), FilledChunks(ring);
    var c' := c.(data := c.data[at := b]);
    WriteChunk(ring);
    ReplaceWritten(ring, c');
    var cs' := cs[n := c'];
    ContentsSplit(cs, n);
    ContentsSplit(cs', n);
    assert cs'[..n] == cs[..n] && cs'[n + 1..] == cs[n + 1..];
    assert Bytes(c') == Bytes(c);
  }

  lemma ResetValid(ring: Ring)
    requires Valid(ring)
    ensures Valid(ResetRing(ring)) && Stored(ResetRing(ring)) == []
  {
    var ring' := ResetRing(ring);
    assert InOrder(ring') == ring'.chunks;
    forall i | 0 <= i < |ring.chunks|
      ensures Sound(ring.chunks[i])
    {
      var cs := InOrder(ring);
      var k := if i >= ring.ridx then i - ring.ridx else i + |ring.chunks| - ring.ridx;
      assert cs[k] == ring.chunks[i];
    }
    ContentsEmpty(ring'.chunks);
  }

  lemma SoundAt(ring: Ring)
    requires Valid(ring)
    ensures Indexed(ring)
    ensures Sound(ring.chunks[ring.ridx]) && Sound(ring.chunks[ring.widx])
    ensures WriteSize(ring) > 0 <==> !ring.chunks[ring.widx].filled
    ensures ReadSize(ring) > 0 <==> ring.chunks[ring.ridx].filled
  {
    ReadSizePositive(ring);
    WriteSizeAtLeast1024(ring);
    FirstInOrder(ring);
    WriteChunk(ring);
    if FilledChunks(ring) == |ring.chunks| {
      assert ring.ridx == ring.widx;
    }
  }

  lemma ProducerStepKeepsInv(s: System, e: Event)
    requires Inv(s) && Allowed(s, e) && (e.GetWpos? || e.PutByte?)
    ensures Inv(Step(s, e))
  {
    hide Stored, Valid;
    SoundAt(s.ring);
    WriteSizeAtLeast1024(s.ring);
    if e.PutByte? {
      var p := s.producer;
      PutByteKeeps(s.ring, p.offset + |p.moved|, e.b);
    }
  }

  lemma FillKeepsInv(s: System, count: nat)
    requires Inv(s) && Allowed(s, Fill(count))
    ensures Inv(Step(s, Fill(count)))
  {
    hide Stored, Valid;
    SoundAt(s.ring);
    FillKeeps(s.ring, count);
    var p := s.producer;
    assert p.moved[..count] == NewBytes(s.ring, count);
    assert s.consumed + Stored(s.ring) + p.moved[..count] == s.consumed + (Stored(s.ring) + p.moved[..count]);
  }

  lemma ConsumerStepKeepsInv(s: System, e: Event)
    requires Inv(s) && Allowed(s, e) && (e.GetRpos? || e.TakeByte?)
    ensures Inv(Step(s, e))
  {
    hide Stored, Valid;
    SoundAt(s.ring);
  }

  lemma ConsumeKeepsInv(s: System, count: nat)
    requires Inv(s) && Allowed(s, Consume(count))
    ensures Inv(Step(s, Consume(count)))
  {
    hide Stored, Valid;
    SoundAt(s.ring);
    ConsumeKeeps(s.ring, count);
    var q := s.consumer;
    assert q.moved[..count] == FrontBytes(s.ring, count);
    assert s.consumed + (q.moved[..count] + Stored(Consumed(s.ring, count))) ==
           s.consumed + q.moved[..count] + Stored(Consumed(s.ring, count));
  }

  lemma StepKeepsInv(s: System, e: Event)
    requires Inv(s) && Allowed(s, e)
    ensures Inv(Step(s, e))
  {
    hide Inv, Valid;
    match e
    case GetWpos => ProducerStepKeepsInv(s, e);
    case PutByte(_) => ProducerStepKeepsInv(s, e);
    case Fill(count) => FillKeepsInv(s, count);
    case GetRpos => ConsumerStepKeepsInv(s, e);
    case TakeByte => ConsumerStepKeepsInv(s, e);
    case Consume(count) => ConsumeKeepsInv(s, count);
    case Reset => ResetKeepsInv(s);
  }

  lemma ResetKeepsInv(s: System)
    requires Inv(s) && Allowed(s, Reset)
    ensures Inv(Step(s, Reset))
  {
    hide Stored, Valid;
    ResetValid(s.ring);
  }

  /** A run is a list of events each of which is allowed when it happens. */
  ghost predicate IsRun(s: System, events: seq<Event>)
    requires Inv(s)
    decreases |events|
  {
    events == []
    || (Allowed(s, events[0]) && (StepKeepsInv(s, events[0]); IsRun(Step(s, events[0]), events[1..])))
  }

  ghost function After(s: System, events: seq<Event>): System
    requires Inv(s) && IsRun(s, events)
    decreases |events|
  {
    if events == [] then s
    else
      StepKeepsInv(s, events[0]);
      After(Step(s, events[0]), events[1..])
  }

  /** A buffer of n chunks before anything has happened. */
  ghost predicate Initial(s: System) {
    && s.ring.chunks != []
    && (forall i :: 0 <= i < |s.ring.chunks| ==>
          var c := s.ring.chunks[i]; |c.data| == CHUNK_SIZE && c.l == c.h == 0 && !c.filled)
    && s.ring.ridx == s.ring.widx == 0
    && s.producer.Idle?
    && s.consumer.Idle?
    && s.produced == s.consumed == []
  }

  lemma InitialInv(s: System)
    requires Initial(s)
    ensures Inv(s)
  {
    assert InOrder(s.ring) == s.ring.chunks;
    ContentsEmpty(s.ring.chunks);
  }

  lemma {:induction false} AfterKeepsInv(s: System, events: seq<Event>)
    requires Inv(s) && IsRun(s, events)
    ensures Inv(After(s, events))
    decreases |events|
  {
    hide Inv, Allowed, Step;
    if events != [] {
      StepKeepsInv(s, events[0]);
      AfterKeepsInv(Step(s, events[0]), events[1..]);
    }
  }

  ghost predicate IsRunFromStart(s: System, events: seq<Event>)
    requires Initial(s)
  {
    InitialInv(s);
    IsRun(s, events)
  }

  ghost function AfterStart(s: System, events: seq<Event>): System
    requires Initial(s) && IsRunFromStart(s, events)
  {
    InitialInv(s);
    After(s, events)
  }

  /** The bytes that a producer committed since the last reset, `moved` being those put since it
      was given a position and `sent` those committed before. */
  function Sent(events: seq<Event>, moved: seq<Byte>, sent: seq<Byte>): seq<Byte>
    decreases |events|
  {
    if events == [] then sent
    else
      match events[0]
      case PutByte(b) => Sent(events[1..], moved + [b], sent)
      case Fill(count) => Sent(events[1..], [], sent + if count <= |moved| then moved[..count] else moved)
      case Reset => Sent(events[1..], [], [])
      case _ => Sent(events[1..], moved, sent)
  }

  /** How many bytes the consumer committed since the last reset. */
  function Received(events: seq<Event>, before: nat): nat
    decreases |events|
  {
    if events == [] then before
    else
      match events[0]
      case Consume(count) => Received(events[1..], before + count)
      case Reset => Received(events[1..], 0)
      case _ => Received(events[1..], before)
  }

  function Moved(h: Holder): seq<Byte> {
    if h.Holding? then h.moved else []
  }

  /** The two records hold the bytes that the events moved and committed. */
  lemma {:induction false} RunRecords(s: System, events: seq<Event>)
    requires Inv(s) && IsRun(s, events)
    ensures After(s, events).produced == Sent(events, Moved(s.producer), s.produced)
    ensures |After(s, events).consumed| == Received(events, |s.consumed|)
    decreases |events|
  {
    hide Inv;
    if events != [] {
      StepKeepsInv(s, events[0]);
      RunRecords(Step(s, events[0]), events[1..]);
    }
  }

  /** In every interleaving the consumed bytes are the first of the produced ones in order, as
      many as the consumer committed; the produced ones are those that the producer put and
      committed; what is missing is what the ring holds; the filled chunks follow the read index
      and end before the write index; and the room offered is none or at least 1024 bytes. */
  lemma EveryRunIsFifo(s: System, events: seq<Event>)
    requires Initial(s) && IsRunFromStart(s, events)
    ensures var t := AfterStart(s, events);
            && Valid(t.ring)
            && t.produced == t.consumed + Stored(t.ring) == Sent(events, [], [])
            && t.consumed <= t.produced
            && |t.consumed| == Received(events, 0)
            && FilledChunks(t.ring) == CountFilled(t.ring.chunks)
            && (WriteSize(t.ring) == 0 || WriteSize(t.ring) >= 1024)
  {
    hide Stored, Valid, IsRun, After;
    InitialInv(s);
    AfterKeepsInv(s, events);
    RunRecords(s, events);
    var t := After(s, events);
    FilledChunksIsCount(t.ring);
    WriteSizeAtLeast1024(t.ring);
  }

  /** Between asking and committing, nothing the other thread does touches the region or the
      answer: the held bytes stay as they are and the same position would be given again. */
  lemma RegionsApart(s: System, e: Event)
    requires Inv(s) && Allowed(s, e)
    ensures (e.GetWpos? || e.PutByte? || e.Fill?) && s.consumer.Holding? ==>
              var t := Step(s, e);
              && t.consumer == s.consumer
              && t.ring.ridx == s.ring.ridx
              && t.ring.chunks[s.ring.ridx] == s.ring.chunks[s.ring.ridx]
    ensures (e.GetRpos? || e.TakeByte? || e.Consume?) && s.producer.Holding? ==>
              var t := Step(s, e);
              && t.producer == s.producer
              && t.ring.widx == s.ring.widx
              && t.ring.chunks[s.ring.widx] == s.ring.chunks[s.ring.widx]
  {
    hide Stored, Valid;
    SoundAt(s.ring);
  }

  // ---------------------------------------------------------------------------------------
  // When a chunk is handed over
  // ---------------------------------------------------------------------------------------

  /** Bytes are handed to the consumer when fewer than 1024 stay free in their chunk. A count of 0
      hands over whatever the chunk holds. */
  lemma FillHandsOver(ring: Ring, count: nat)
    requires Valid(ring) && WriteSize(ring) > 0 && count <= WriteSize(ring)
    ensures Indexed(Filled(ring, count))
    ensures count > 0 ==>
              FilledChunks(Filled(ring, count)) == FilledChunks(ring) + if WriteSize(ring) - count < 1024 then 1 else 0
    ensures count == 0 ==>
              FilledChunks(Filled(ring, 0)) == FilledChunks(ring) + if WriteSize(ring) < CHUNK_SIZE then 1 else 0
  {
    hide InOrder, Valid;
    WriteSizeAtLeast1024(ring);
    FilledOrder(ring, count);
  }

  /** The chunk that is being written holds nothing: all that is stored can be read. */
  predicate Flushed(ring: Ring)
    requires Indexed(ring)
  {
    WriteSize(ring) == 0 || WriteSize(ring) == CHUNK_SIZE
  }

  lemma FillFlushes(ring: Ring)
    requires Valid(ring) && WriteSize(ring) > 0
    ensures Valid(Filled(ring, 0)) && Flushed(Filled(ring, 0))
  {
    hide InOrder;
    FillKeeps(ring, 0);
    FillHandsOver(ring, 0);
    var ring', n := Filled(ring, 0), FilledChunks(ring);
    WriteChunk(ring');
    if WriteSize(ring) < CHUNK_SIZE && n + 1 < |ring.chunks| {
      WriteChunk(ring);
      NextWritten(ring);
    }
  }

  /** The chunk after the one that is being written is empty or the first one. */
  lemma NextWritten(ring: Ring)
    requires Valid(ring) && FilledChunks(ring) + 1 < |ring.chunks|
    ensures Next(ring, ring.widx) != ring.widx
    ensures InOrder(ring)[FilledChunks(ring) + 1] == ring.chunks[Next(ring, ring.widx)]
    ensures ring.chunks[Next(ring, ring.widx)].h == 0 && !ring.chunks[Next(ring, ring.widx)].filled
  {
    NextInOrder(ring, ring.widx);
    assert InOrder(ring)[0] == ring.chunks[ring.ridx];
  }

  lemma ConsumeKeepsFlushed(ring: Ring, count: nat)
    requires Valid(ring) && ReadSize(ring) > 0 && count <= ReadSize(ring) && Flushed(ring)
    ensures Valid(Consumed(ring, count)) && Flushed(Consumed(ring, count))
  {
    hide InOrder, Valid, Stored;
    ConsumeKeeps(ring, count);
    SoundAt(ring);
  }

  lemma NothingToRead(ring: Ring)
    requires Valid(ring) && Flushed(ring)
    ensures ReadSize(ring) == 0 <==> Stored(ring) == []
  {
    ReadSizePositive(ring);
    SoundAt(ring);
    WriteChunk(ring);
    var cs := InOrder(ring);
    if ReadSize(ring) == 0 {
      ContentsEmpty(cs);
    } else {
      assert Contents(cs) == Bytes(cs[0]) + Contents(cs[1..]);
      FirstInOrder(ring);
    }
  }

  predicate IsConsumerEvent(e: Event) {
    e.GetRpos? || e.TakeByte? || e.Consume?
  }

  lemma ConsumerStepKeepsFlushed(s: System, e: Event)
    requires Inv(s) && Allowed(s, e) && IsConsumerEvent(e) && Flushed(s.ring)
    ensures Indexed(Step(s, e).ring) && Flushed(Step(s, e).ring) && Step(s, e).produced == s.produced
  {
    hide Stored, Valid, Flushed;
    SoundAt(s.ring);
    if e.Consume? {
      ConsumeKeepsFlushed(s.ring, e.count);
    }
  }

  lemma {:induction false} ConsumerRunKeepsFlushed(s: System, events: seq<Event>)
    requires Inv(s) && Indexed(s.ring) && Flushed(s.ring)
    requires IsRun(s, events) && forall e <- events :: IsConsumerEvent(e)
    ensures var t := After(s, events); Inv(t) && Indexed(t.ring) && Flushed(t.ring) && t.produced == s.produced
    decreases |events|
  {
    hide Inv, Allowed, Step, Flushed;
    if events != [] {
      StepKeepsInv(s, events[0]);
      ConsumerStepKeepsFlushed(s, events[0]);
      ConsumerRunKeepsFlushed(Step(s, events[0]), events[1..]);
    }
  }

  lemma InvValid(s: System)
    requires Inv(s)
    ensures Valid(s.ring) && s.produced == s.consumed + Stored(s.ring)
  {
  }

  /** At the end of a track the producer commits nothing. From then on, whatever the consumer does
      on its own, there is something to read until it has consumed all that was produced. */
  lemma TailIsOffered(s: System, events: seq<Event>)
    requires Inv(s) && s.producer.Holding?
    ensures Allowed(s, Fill(0)) && Inv(Step(s, Fill(0)))
    ensures var t := Step(s, Fill(0));
            IsRun(t, events) && (forall e <- events :: IsConsumerEvent(e)) ==>
              var u := After(t, events);
              && u.produced == s.produced
              && Inv(u)
              && (ReadSize(u.ring) == 0 <==> u.consumed == u.produced)
  {
    hide IsRun, After, Flushed;
    var t := Step(s, Fill(0));
    FillKeepsInv(s, 0);
    assert s.producer.moved[..0] == [];
    FillFlushes(s.ring) by { HoldingHasRoom(s); }
    if IsRun(t, events) && forall e <- events :: IsConsumerEvent(e) {
      ConsumerRunKeepsFlushed(t, events);
      var u := After(t, events);
      InvValid(u);
      NothingToRead(u.ring);
      assert u.consumed == u.produced <==> Stored(u.ring) == [];
    }
  }

  lemma HoldingHasRoom(s: System)
    requires Inv(s) && s.producer.Holding?
    ensures Valid(s.ring) && WriteSize(s.ring) > 0
  {
    SoundAt(s.ring);
  }

  // ---------------------------------------------------------------------------------------
  // A consumer on its own
  // ---------------------------------------------------------------------------------------

  lemma {:induction false} RunConcat(s: System, a: seq<Event>, b: seq<Event>)
    requires Inv(s) && IsRun(s, a)
    ensures Inv(After(s, a))
    ensures IsRun(After(s, a), b) ==> IsRun(s, a + b) && After(s, a + b) == After(After(s, a), b)
    decreases |a|
  {
    hide Inv, Allowed, Step;
    AfterKeepsInv(s, a);
    if a == [] {
      assert a + b == b;
    } else {
      StepKeepsInv(s, a[0]);
      assert (a + b)[0] == a[0] && (a + b)[1..] == a[1..] + b;
      RunConcat(Step(s, a[0]), a[1..], b);
    }
  }

  lemma OneStep(s: System, e: Event)
    requires Inv(s) && Allowed(s, e)
    ensures IsRun(s, [e]) && Inv(Step(s, e)) && After(s, [e]) == Step(s, e)
  {
    hide Inv, Allowed, Step;
    StepKeepsInv(s, e);
    assert [e][1..] == [];
  }

  /** Moves all bytes of the region that was given. */
  lemma {:induction false} TakeAll(s: System) returns (events: seq<Event>)
    requires Inv(s) && s.consumer.Holding?
    ensures IsRun(s, events) && forall e <- events :: IsConsumerEvent(e)
    ensures var t, q := After(s, events), s.consumer;
            && Inv(t)
            && t.ring == s.ring && t.producer == s.producer && t.consumed == s.consumed
            && t.consumer.Holding? && |t.consumer.moved| == t.consumer.size == q.size
    decreases s.consumer.size - |s.consumer.moved|
  {
    events := [];
    if |s.consumer.moved| < s.consumer.size {
      OneStep(s, TakeByte);
      var t := Step(s, TakeByte);
      hide Inv, Valid;
      var more := TakeAll(t);
      RunConcat(s, [TakeByte], more);
      events := [TakeByte] + more;
    }
  }

  /** A consumer that takes what is offered gets to the point where nothing is. */
  lemma {:induction false} Drain(s: System) returns (events: seq<Event>)
    requires Inv(s) && s.consumer.Idle?
    ensures IsRun(s, events) && forall e <- events :: IsConsumerEvent(e)
    ensures var t := After(s, events); Inv(t) && t.consumer.Idle? && Indexed(t.ring) && ReadSize(t.ring) == 0
    decreases Left(s)
  {
    InvValid(s);
    SoundAt(s.ring);
    if ReadSize(s.ring) == 0 {
      events := [];
    } else {
      var round := Round(s);
      var t := After(s, round);
      hide Inv, Valid, Stored;
      var more := Drain(t);
      RunConcat(s, round, more);
      events := round + more;
    }
  }

  ghost function Left(s: System): nat
    requires Inv(s)
  {
    |Stored(s.ring)|
  }

  lemma Round(s: System) returns (events: seq<Event>)
    requires Inv(s) && s.consumer.Idle? && ReadSize(s.ring) > 0
    ensures IsRun(s, events) && forall e <- events :: IsConsumerEvent(e)
    ensures var t := After(s, events); Inv(t) && t.consumer.Idle? && Left(t) < Left(s)
  {
    hide Stored, IsRun, After;
    InvValid(s);
    OneStep(s, GetRpos);
    var s1 := Step(s, GetRpos);
    var takes := TakeAll(s1);
    var s2 := After(s1, takes);
    var e := Consume(s2.consumer.size);
    OneStep(s2, e);
    RunConcat(s1, takes, [e]);
    RunConcat(s, [GetRpos], takes + [e]);
    events := [GetRpos] + (takes + [e]);
    RoundTakes(s2);
  }

  lemma RoundTakes(s: System)
    requires Inv(s) && s.consumer.Holding? && |s.consumer.moved| == s.consumer.size
    ensures Allowed(s, Consume(s.consumer.size)) && Inv(Step(s, Consume(s.consumer.size)))
    ensures Left(Step(s, Consume(s.consumer.size))) < Left(s)
  {
    hide Stored;
    ConsumeKeepsInv(s, s.consumer.size);
    SoundAt(s.ring);
    ConsumeKeeps(s.ring, s.consumer.size);
  }

  /** So the tail of a track reaches the consumer: after a commit of nothing a consumer on its own
      can consume everything that was produced. */
  lemma TailIsConsumed(s: System) returns (events: seq<Event>)
    requires Inv(s) && s.producer.Holding? && s.consumer.Idle?
    ensures Allowed(s, Fill(0)) && Inv(Step(s, Fill(0)))
    ensures IsRun(Step(s, Fill(0)), events) && forall e <- events :: IsConsumerEvent(e)
    ensures After(Step(s, Fill(0)), events).consumed == s.produced
  {
    hide Inv, IsRun, After;
    TailIsOffered(s, []);
    events := Drain(Step(s, Fill(0)));
    TailIsOffered(s, events);
  }

  // ---------------------------------------------------------------------------------------
  // The buffer object
  // ---------------------------------------------------------------------------------------

  class ChunkCell {
    const data: array<Byte>
    var l: nat
    var h: nat
    var filled: bool

    constructor ()
      ensures data.Length == CHUNK_SIZE && fresh(data) && l == 0 && h == 0 && !filled
    {
      data := new Byte[CHUNK_SIZE](_ => 0);
      l, h, filled := 0, 0, false;
    }

    function Value(): Chunk
      reads this, data
    {
      Chunk(data[..], l, h, filled)
    }
  }

  function Values(cells: seq<ChunkCell>): (cs: seq<Chunk>)
    reads cells, set c | c in cells :: c.data
    ensures |cs| == |cells|
    ensures forall i :: 0 <= i < |cells| ==> cs[i] == cells[i].Value()
  {
    if cells == [] then [] else [cells[0].Value()] + Values(cells[1..])
  }

  lemma FreshValues(cells: seq<ChunkCell>)
    requires forall c <- cells :: c.data.Length == CHUNK_SIZE && c.l == 0 && c.h == 0 && !c.filled
    ensures forall i :: 0 <= i < |cells| ==>
              var c := Values(cells)[i]; |c.data| == CHUNK_SIZE && c.l == c.h == 0 && !c.filled
  {
    forall i | 0 <= i < |cells|
      ensures var c := Values(cells)[i]; |c.data| == CHUNK_SIZE && c.l == c.h == 0 && !c.filled
    {
      assert cells[i] in cells;
    }
  }

  lemma FreshIsInitial(ring: Ring)
    requires ring.chunks != [] && ring.ridx == ring.widx == 0
    requires forall i :: 0 <= i < |ring.chunks| ==>
               var c := ring.chunks[i]; |c.data| == CHUNK_SIZE && c.l == c.h == 0 && !c.filled
    ensures Initial(System(ring, Idle, Idle, [], []))
  {
  }

  ghost predicate Separate(cells: seq<ChunkCell>) {
    forall i, j :: 0 <= i < j < |cells| ==> cells[i] != cells[j] && cells[i].data != cells[j].data
  }

  /** Two lists of chunks differ at most at one index. */
  predicate SameButOne(a: seq<Chunk>, b: seq<Chunk>, k: nat) {
    |a| == |b| && k < |a| && forall i :: 0 <= i < |a| && i != k ==> a[i] == b[i]
  }

  lemma ConsumedFields(ring: Ring, count: nat, t: Ring)
    requires Indexed(ring) && SameButOne(ring.chunks, t.chunks, ring.ridx) && t.widx == ring.widx
    requires var c := ring.chunks[ring.ridx];
             if c.l + count == c.h
             then t.chunks[ring.ridx] == c.(l := 0, h := 0, filled := false) && t.ridx == Next(ring, ring.ridx)
             else t.chunks[ring.ridx] == c.(l := c.l + count) && t.ridx == ring.ridx
    ensures t == Consumed(ring, count)
  {
    assert t.chunks == Consumed(ring, count).chunks;
  }

  lemma FilledFields(ring: Ring, count: nat, t: Ring)
    requires Indexed(ring) && SameButOne(ring.chunks, t.chunks, ring.widx) && t.ridx == ring.ridx
    requires var c := ring.chunks[ring.widx];
             && t.chunks[ring.widx] == c.(h := c.h + count, filled := FullAfter(c, count))
             && t.widx == (if FullAfter(c, count) then Next(ring, ring.widx) else ring.widx)
    ensures t == Filled(ring, count)
  {
    assert t.chunks == Filled(ring, count).chunks;
  }

  class Buffer {
    const cells: seq<ChunkCell>
    var ridx: nat
    var widx: nat

    ghost function State(): Ring
      reads this, cells, set c | c in cells :: c.data
    {
      Ring(Values(cells), ridx, widx)
    }

    constructor (n: nat)
      requires n > 0
      ensures fresh(cells) && Separate(cells) && |cells| == n
      ensures Initial(System(State(), Idle, Idle, [], []))
    {
      var made: seq<ChunkCell> := [];
      for i := 0 to n
        invariant |made| == i && Separate(made)
        invariant forall c <- made :: fresh(c) && fresh(c.data)
        invariant forall c <- made :: c.data.Length == CHUNK_SIZE && c.l == 0 && c.h == 0 && !c.filled
      {
        var c := new ChunkCell();
        made := made + [c];
      }
      cells := made;
      ridx, widx := 0, 0;
      new;
      assert forall c <- made :: c in cells;
      FreshValues(cells);
      FreshIsInitial(State());
    }

    /** Where and how much can be read. */
    method GetRpos() returns (size: int, pos: nat)
      requires Valid(State())
      ensures size == ReadSize(State())
      ensures size > 0 ==> pos == State().chunks[ridx].l
    {
      var c := cells[ridx];
      size, pos := 0, 0;
      if c.filled {
        size := c.h - c.l;
        pos := c.l;
      }
    }

    method GetWpos() returns (size: int, pos: nat)
      requires Valid(State())
      ensures size == WriteSize(State())
      ensures size > 0 ==> pos == State().chunks[widx].h
    {
      var c := cells[widx];
      size, pos := 0, 0;
      if !c.filled {
        size := CHUNK_SIZE - c.h;
        pos := c.h;
      }
    }

    method Consume(count: nat)
      requires Separate(cells) && Valid(State())
      requires 0 < ReadSize(State()) && count <= ReadSize(State())
      modifies this`ridx, cells`l, cells`h, cells`filled
      ensures State() == Consumed(old(State()), count)
      ensures Valid(State())
    {
      hide Valid, Consumed, Values, ReadSize;
      ghost var before, r := State(), ridx;
      SoundAt(before);
      var c := cells[ridx];
      c.l := c.l + count;
      if c.l == c.h {
        c.l := 0;
        c.h := 0;
        c.filled := false;
        ridx := ridx + 1;
        ridx := ridx % |cells|;
      }
      forall i | 0 <= i < |cells| && i != r
        ensures State().chunks[i] == before.chunks[i]
      {
        assert cells[i] != cells[r];
      }
      ConsumedFields(before, count, State());
      ConsumeKeeps(before, count);
    }

    method Fill(count: nat) returns (filled: bool)
      requires Separate(cells) && Valid(State())
      requires 0 < WriteSize(State()) && count <= WriteSize(State())
      modifies this`widx, cells`h, cells`filled
      ensures State() == Filled(old(State()), count)
      ensures Valid(State())
      ensures filled <==> FullAfter(old(State()).chunks[old(widx)], count)
    {
      hide Valid, Filled, Values, WriteSize;
      ghost var before, w := State(), widx;
      SoundAt(before);
      var c := cells[widx];
      c.h := c.h + count;
      filled := false;
      if CHUNK_SIZE - c.h < 1024 || (count == 0 && c.h > 0) {
        c.filled := true;
        widx := widx + 1;
        widx := widx % |cells|;
        filled := true;
      }
      forall i | 0 <= i < |cells| && i != w
        ensures State().chunks[i] == before.chunks[i]
      {
        assert cells[i] != cells[w];
      }
      FilledFields(before, count, State());
      FillKeeps(before, count);
    }

    method ResetAll()
      requires Separate(cells) && Valid(State())
      modifies this, cells
      ensures State() == ResetRing(old(State()))
      ensures Valid(State()) && Stored(State()) == []
      ensures ridx == widx == 0 && forall i :: 0 <= i < |cells| ==> cells[i].l == cells[i].h == 0 && !cells[i].filled
    {
      hide Valid, Values;
      ghost var before := State();
      ridx := 0;
      widx := 0;
      for i := 0 to |cells|
        invariant ridx == widx == 0
        invariant forall j :: 0 <= j < i ==> cells[j].l == cells[j].h == 0 && !cells[j].filled
      {
        cells[i].l := 0;
        cells[i].h := 0;
        cells[i].filled := false;
      }
      forall i | 0 <= i < |cells|
        ensures State().chunks[i] == ResetRing(before).chunks[i]
      {
        assert before.chunks[i].data == cells[i].data[..];
      }
      ResetValid(before);
    }

    method GetFilledChunks() returns (c: int)
      requires Valid(State())
      ensures c == CountFilled(State().chunks)
    {
      FilledChunksIsCount(State());
      if ridx < widx {
        c := widx - ridx;
      } else if ridx > widx {
        c := |cells| - ridx + widx;
      } else if cells[ridx].filled {
        c := |cells|;
      } else {
        c := 0;
      }
    }
  }
}
