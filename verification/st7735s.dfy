/**
 The arithmetic of the ST7735S LCD driver: the RGB565 pixel encoding, the panel geometry, the
 address window it programs before every pixel transfer, and the way writes are split for the
 SPI bus. The GPIO data/command line and the SPI bus are not driven: every operation returns the
 trace of events it would emit, and the bus is described by how many bytes it accepts per call.
 */
module St7735s {

  // ----- Pixels -----

  /** A colour with 8 bits per component. */
  datatype Rgb = Rgb(r: bv8, g: bv8, b: bv8)

  /** The 16-bit RGB565 value of a colour: the top 5 bits of red, 6 of green, 5 of blue. */
  function Rgb565(c: Rgb): (p: bv16)
  {
    Pack565(Truncated(c))
  }

  /** Packs 5-bit red, 6-bit green and 5-bit blue into one 16-bit value, red in the top bits. */
  function Pack565(t: Rgb): bv16
  {
    (t.r as bv16 << 11) | (t.g as bv16 << 5) | t.b as bv16
  }

  /** The two bytes the panel receives for one pixel: the RGB565 value, most significant byte first. */
  function Encode(c: Rgb): (px: seq<bv8>)
    ensures |px| == PixelBytes
    ensures (px[0] as bv16 << 8) | (px[1] as bv16) == Rgb565(c)
  {
    var p := Rgb565(c);
    [(p >> 8) as bv8, (p & 0xff) as bv8]
  }

  /** The colour components that survive encoding: red and blue keep 5 bits, green keeps 6. */
  function Truncated(c: Rgb): (t: Rgb)
    ensures t.r <= 0x1f && t.g <= 0x3f && t.b <= 0x1f
  {
    Rgb(c.r >> 3, c.g >> 2, c.b >> 3)
  }

  /** Reads the surviving components back out of an encoded pixel. */
  function Components(px: seq<bv8>): (t: Rgb)
    requires |px| == PixelBytes
    ensures t.r <= 0x1f && t.g <= 0x3f && t.b <= 0x1f
  {
    Rgb(px[0] >> 3, ((px[0] & 7) << 3) | (px[1] >> 5), px[1] & 0x1f)
  }

  /** The top 5 bits of red are the top 5 bits of the first byte. */
  lemma RedSurvives(c: Rgb)
    ensures Encode(c)[0] >> 3 == c.r >> 3
  {
  }

  /** The top 6 bits of green straddle the two bytes: 3 low bits of the first, 3 high bits of the second. */
  lemma GreenSurvives(c: Rgb)
    ensures ((Encode(c)[0] & 7) << 3) | (Encode(c)[1] >> 5) == c.g >> 2
  {
  }

  /** The top 5 bits of blue are the low 5 bits of the second byte. */
  lemma BlueSurvives(c: Rgb)
    ensures Encode(c)[1] & 0x1f == c.b >> 3
  {
  }

  /** Encoding keeps exactly the truncated components, which can be read back from the two bytes. */
  lemma EncodeRecoversComponents(c: Rgb)
    ensures Components(Encode(c)) == Truncated(c)
  {
    RedSurvives(c);
    GreenSurvives(c);
    BlueSurvives(c);
  }

  /** Two colours encode identically exactly when they agree on the components that survive. */
  lemma EncodeEqualIff(c: Rgb, d: Rgb)
    ensures Encode(c) == Encode(d) <==> Truncated(c) == Truncated(d)
  {
    if Encode(c) == Encode(d) {
      EncodeRecoversComponents(c);
      EncodeRecoversComponents(d);
    }
    if Truncated(c) == Truncated(d) {
      assert Pack565(Truncated(c)) == Pack565(Truncated(d));
    }
  }

  /** Black encodes as two zero bytes and white as two all-ones bytes. */
  lemma BlackAndWhite()
    ensures Encode(Rgb(0, 0, 0)) == [0x00, 0x00]
    ensures Encode(Rgb(0xff, 0xff, 0xff)) == [0xff, 0xff]
  {
    assert Rgb565(Rgb(0, 0, 0)) == 0;
    assert Rgb565(Rgb(0xff, 0xff, 0xff)) == 0xffff;
  }

  // ----- Panel geometry -----

  datatype LcdSize = LcdSize(width: nat, height: nat)

  datatype LcdXY = LcdXY(x: nat, y: nat)

  const PanelWidth: nat := 128
  const PanelHeight: nat := 128
  const PixelBytes: nat := 2

  /** The panel's size in pixels and the number of bytes each encoded pixel takes. */
  function Info(): (r: (LcdSize, nat))
    ensures r.0.width == 128 && r.0.height == 128
    ensures forall c: Rgb {:trigger Encode(c)} :: |Encode(c)| == r.1
  {
    (LcdSize(PanelWidth, PanelHeight), PixelBytes)
  }

  /**
   Each truncated component, widened to 16 bits, is the component widened first and then
   shifted, as the source computes it on `u16`.
   */
  lemma TruncatedWide(c: Rgb)
    ensures Truncated(c).r as bv16 == (c.r as bv16) >> 3
    ensures Truncated(c).g as bv16 == (c.g as bv16) >> 2
    ensures Truncated(c).b as bv16 == (c.b as bv16) >> 3
  {
  }

  /**
   Packing components whose widened values are `r`, `g` and `b` is the source's
   `(r << 11) | (g << 5) | b`; with `TruncatedWide` this makes `Rgb565` the source's formula.
   */
  lemma PackWide(t: Rgb, r: bv16, g: bv16, b: bv16)
    requires t.r as bv16 == r && t.g as bv16 == g && t.b as bv16 == b
    ensures Pack565(t) == (r << 11) | (g << 5) | b
  {
  }

  // ----- Address window -----

  /** Column and row offsets of the visible area within the controller's memory. */
  const AdjustX: nat := 1
  const AdjustY: nat := 2

  /** An unsigned value that fits in one byte. */
  newtype Byte = b: int | 0 <= b < 256

  /** The first and last column and row of an address window, as sent to the controller. */
  datatype Bounds = Bounds(x1: Byte, x2: Byte, y1: Byte, y2: Byte)

  /** `v & 0xff` on an unsigned integer. */
  function LowBits(v: nat): (r: nat)
    ensures r < 256 && (v < 256 ==> r == v)
  {
    v % 256
  }

  /** `v as u8`: truncation of an unsigned integer to its low byte. */
  function AsU8(v: nat): (b: Byte)
    ensures v < 256 ==> b as int == v
  {
    (v % 256) as Byte
  }

  lemma ModShift(v: nat, k: nat)
    ensures (v % 256 + k) % 256 == (v + k) % 256
  {
  }

  /**
   The window bounds for a region at `xy` of `size` pixels, shifted by the panel offsets. Each
   bound wraps around modulo 256 because only its low byte is sent.
   */
  function WindowBounds(xy: LcdXY, size: LcdSize): (b: Bounds)
    ensures b.x1 as int == (xy.x + 1) % 256
    ensures b.x2 as int == (xy.x + size.width) % 256
    ensures b.y1 as int == (xy.y + 2) % 256
    ensures b.y2 as int == (xy.y + size.height + 1) % 256
  {
    ModShift(xy.x, AdjustX);
    ModShift(xy.y, AdjustY);
    Bounds(
      AsU8(LowBits(xy.x) + AdjustX),
      AsU8(LowBits(xy.x + size.width + AdjustX - 1)),
      AsU8(LowBits(xy.y) + AdjustY),
      AsU8(LowBits(xy.y + size.height + AdjustY - 1)))
  }

  /**
   A non-empty region that lies on the panel gets a window covering exactly its pixels: it
   starts one column and two rows in, and spans `width` columns and `height` rows.
   */
  lemma WindowOnPanel(xy: LcdXY, size: LcdSize)
    requires 0 < size.width && xy.x + size.width <= PanelWidth
    requires 0 < size.height && xy.y + size.height <= PanelHeight
    ensures var b := WindowBounds(xy, size);
      && b.x1 as int == xy.x + AdjustX && b.x2 as int - b.x1 as int + 1 == size.width
      && b.y1 as int == xy.y + AdjustY && b.y2 as int - b.y1 as int + 1 == size.height
  {
  }

  // ----- Bus trace -----

  /** What the driver does to the hardware: set the data/command line, or write bytes to SPI. */
  datatype Event = Dc(high: bool) | Spi(bytes: seq<Byte>)

  /** The largest slice handed to the SPI bus in one call. */
  const MaxWrite: nat := 4096

  /** The bytes the bus received, in order. */
  function Sent(trace: seq<Event>): (bytes: seq<Byte>)
    ensures |trace| == 0 ==> bytes == []
  {
    if |trace| == 0 then []
    else (if trace[0].Spi? then trace[0].bytes else []) + Sent(trace[1..])
  }

  lemma {:induction false} SentAppend(a: seq<Event>, b: seq<Event>)
    ensures Sent(a + b) == Sent(a) + Sent(b)
    decreases |a|
  {
    if |a| > 0 {
      assert (a + b)[0] == a[0];
      assert (a + b)[1..] == a[1..] + b;
      SentAppend(a[1..], b);
    } else {
      assert a + b == b;
    }
  }

  predicate AllSpi(trace: seq<Event>) {
    forall k :: 0 <= k < |trace| ==> trace[k].Spi?
  }

  /** No single SPI write carries more than `n` bytes. */
  predicate WritesAtMost(trace: seq<Event>, n: nat) {
    forall k :: 0 <= k < |trace| ==> trace[k].Spi? ==> |trace[k].bytes| <= n
  }

  /**
   The input split into consecutive pieces of `MaxWrite` bytes, the last one possibly shorter;
   no pieces at all for an empty input.
   */
  function Chunks(data: seq<Byte>): (cs: seq<seq<Byte>>)
    ensures forall k :: 0 <= k < |cs| ==> 0 < |cs[k]| <= MaxWrite
    ensures forall k :: 0 <= k < |cs| - 1 ==> |cs[k]| == MaxWrite
    decreases |data|
  {
    if |data| == 0 then []
    else if |data| <= MaxWrite then [data]
    else [data[..MaxWrite]] + Chunks(data[MaxWrite..])
  }

  function Flatten(cs: seq<seq<Byte>>): (s: seq<Byte>)
    ensures |cs| == 0 ==> s == []
  {
    if |cs| == 0 then [] else cs[0] + Flatten(cs[1..])
  }

  /** Data a whole number of pieces long is cut into that many full pieces. */
  lemma {:induction false} ChunksOfWhole(data: seq<Byte>, m: nat)
    requires |data| == m * MaxWrite
    ensures |Chunks(data)| == m
    ensures forall k :: 0 <= k < m ==> |Chunks(data)[k]| == MaxWrite
    decreases m
  {
    if m > 1 {
      ChunksOfWhole(data[MaxWrite..], m - 1);
    }
  }

  /** A full frame of encoded pixels, 128 by 128 of 2 bytes each, is written as 8 full 4096-byte pieces. */
  lemma FrameChunks(data: seq<Byte>)
    requires |data| == Info().0.width * Info().0.height * Info().1
    ensures |Chunks(data)| == 8
    ensures forall k :: 0 <= k < 8 ==> |Chunks(data)[k]| == MaxWrite
  {
    ChunksOfWhole(data, 8);
  }

  /** Putting the pieces back together gives the input. */
  lemma {:induction false} ChunksFlatten(data: seq<Byte>)
    ensures Flatten(Chunks(data)) == data
    decreases |data|
  {
    if MaxWrite < |data| {
      var cs := Chunks(data);
      assert cs[1..] == Chunks(data[MaxWrite..]);
      ChunksFlatten(data[MaxWrite..]);
      assert data == data[..MaxWrite] + data[MaxWrite..];
    }
  }

  /** How many bytes of `buf` one SPI call accepts from a bus that takes up to `limit` per call. */
  function Accepted(buf: seq<Byte>, limit: nat): (n: nat)
    ensures n <= |buf| && n <= limit
    ensures n == 0 <==> |buf| == 0 || limit == 0
  {
    if |buf| < limit then |buf| else limit
  }

  /**
   The SPI calls that send `rest`, the part of a piece not yet accepted: each hands the bus all
   of what is left, and the loop stops at the first call that the bus accepts nothing from. That
   last call is always made, with an empty slice when the piece was fully sent.
   */
  function ChunkTransfers(rest: seq<Byte>, limit: nat): (trace: seq<Event>)
    ensures |trace| > 0 && trace[|trace| - 1] == Spi([])
    decreases |rest|
  {
    var n := Accepted(rest, limit);
    if n == 0 then [Spi([])] else [Spi(rest[..n])] + ChunkTransfers(rest[n..], limit)
  }

  /** The SPI calls for a sequence of pieces, in order. */
  function PieceTransfers(cs: seq<seq<Byte>>, limit: nat): seq<Event>
  {
    if |cs| == 0 then []
    else PieceTransfers(cs[..|cs| - 1], limit) + ChunkTransfers(cs[|cs| - 1], limit)
  }

  /** The SPI calls that write `data`, piece by piece. */
  function WriteTrace(data: seq<Byte>, limit: nat): seq<Event>
  {
    PieceTransfers(Chunks(data), limit)
  }

  /** The calls for a piece are SPI writes only, each carrying at most what the bus accepts and at most the piece. */
  lemma {:induction false} ChunkTransfersBounded(rest: seq<Byte>, limit: nat)
    ensures AllSpi(ChunkTransfers(rest, limit))
    ensures WritesAtMost(ChunkTransfers(rest, limit), |rest|)
    ensures WritesAtMost(ChunkTransfers(rest, limit), limit)
    decreases |rest|
  {
    var n := Accepted(rest, limit);
    if n != 0 {
      ChunkTransfersBounded(rest[n..], limit);
    }
  }

  /** A bus that accepts something sends the rest of the chunk; one that accepts nothing sends nothing. */
  lemma {:induction false} ChunkTransfersSend(rest: seq<Byte>, limit: nat)
    ensures Sent(ChunkTransfers(rest, limit)) == if limit > 0 then rest else []
    decreases |rest|
  {
    var n := Accepted(rest, limit);
    if n == 0 {
      SentCons([], []);
    } else {
      var later := ChunkTransfers(rest[n..], limit);
      ChunkTransfersSend(rest[n..], limit);
      SentCons(rest[..n], later);
      assert rest == rest[..n] + rest[n..];
    }
  }

  /** A write followed by more calls sends its bytes ahead of theirs. */
  lemma SentCons(bytes: seq<Byte>, later: seq<Event>)
    ensures Sent([Spi(bytes)] + later) == bytes + Sent(later)
  {
    assert ([Spi(bytes)] + later)[1..] == later;
  }

  lemma {:induction false} PieceTransfersSend(cs: seq<seq<Byte>>, limit: nat)
    ensures Sent(PieceTransfers(cs, limit)) == if limit > 0 then Flatten(cs) else []
    decreases |cs|
  {
    if |cs| > 0 {
      var init := cs[..|cs| - 1];
      var last := cs[|cs| - 1];
      var p := PieceTransfers(init, limit);
      var q := ChunkTransfers(last, limit);
      assert PieceTransfers(cs, limit) == p + q;
      PieceTransfersSend(init, limit);
      ChunkTransfersSend(last, limit);
      SentSnoc(p, q, cs, limit);
    }
  }

  /** The step of `PieceTransfersSend`: what the last piece adds to the bytes sent. */
  lemma SentSnoc(p: seq<Event>, q: seq<Event>, cs: seq<seq<Byte>>, limit: nat)
    requires |cs| > 0
    requires Sent(p) == if limit > 0 then Flatten(cs[..|cs| - 1]) else []
    requires Sent(q) == if limit > 0 then cs[|cs| - 1] else []
    ensures Sent(p + q) == if limit > 0 then Flatten(cs) else []
  {
    SentAppend(p, q);
    if limit > 0 {
      FlattenInit(cs);
    }
  }

  /** Flattening keeps the last piece at the end. */
  lemma {:induction false} FlattenInit(cs: seq<seq<Byte>>)
    requires |cs| > 0
    ensures Flatten(cs) == Flatten(cs[..|cs| - 1]) + cs[|cs| - 1]
    decreases |cs|
  {
    if |cs| == 1 {
      assert Flatten(cs) == cs[0] + Flatten([]);
    } else {
      var init := cs[..|cs| - 1];
      assert cs[1..][..|cs| - 2] == init[1..];
      FlattenInit(cs[1..]);
      assert Flatten(init) == init[0] + Flatten(init[1..]);
    }
  }

  lemma {:induction false} PieceTransfersBounded(cs: seq<seq<Byte>>, limit: nat)
    requires forall k :: 0 <= k < |cs| ==> |cs[k]| <= MaxWrite
    ensures AllSpi(PieceTransfers(cs, limit))
    ensures WritesAtMost(PieceTransfers(cs, limit), if MaxWrite < limit then MaxWrite else limit)
    decreases |cs|
  {
    if |cs| > 0 {
      PieceTransfersBounded(cs[..|cs| - 1], limit);
      ChunkTransfersBounded(cs[|cs| - 1], limit);
    }
  }

  /**
   Writing `data` sends all of it, in order, when the bus accepts anything at all, and never
   hands the bus more than 4096 bytes at once. A bus that accepts nothing makes every piece stop
   after its first call, so nothing is sent and no error is reported.
   */
  lemma WriteTraceSends(data: seq<Byte>, limit: nat)
    ensures Sent(WriteTrace(data, limit)) == if limit > 0 then data else []
    ensures AllSpi(WriteTrace(data, limit)) && WritesAtMost(WriteTrace(data, limit), MaxWrite)
  {
    PieceTransfersSend(Chunks(data), limit);
    ChunksFlatten(data);
    PieceTransfersBounded(Chunks(data), limit);
  }

  /** Moving the next call from the calls still to come onto the trace made so far. */
  lemma MoveCall(trace: seq<Event>, call: Event, later: seq<Event>, whole: seq<Event>)
    requires trace + ([call] + later) == whole
    ensures (trace + [call]) + later == whole
  {
    assert (trace + [call]) + later == trace + ([call] + later);
  }

  /**
   Hands one piece to the bus repeatedly, from where the bus stopped, until a call accepts
   nothing.
   */
  method WriteChunk(chunk: seq<Byte>, limit: nat) returns (trace: seq<Event>)
    ensures trace == ChunkTransfers(chunk, limit)
    ensures Sent(trace) == if limit > 0 then chunk else []
  {
    var rest := chunk;  // `chunk[i..]` in the source
    trace := [];
    var done := false;
    while !done
      invariant done ==> trace == ChunkTransfers(chunk, limit)
      invariant !done ==> trace + ChunkTransfers(rest, limit) == ChunkTransfers(chunk, limit)
      decreases |rest|, if done then 0 else 1
    {
      var n := Accepted(rest, limit);
      var call := Spi(rest[..n]);
      if n == 0 {
        assert call == Spi([]);
        trace := trace + [call];
        done := true;
      } else {
        var later := ChunkTransfers(rest[n..], limit);
        MoveCall(trace, call, later, ChunkTransfers(chunk, limit));
        trace := trace + [call];
        rest := rest[n..];
      }
    }
    ChunkTransfersSend(chunk, limit);
  }

  /**
   Writes `data` to a bus that accepts up to `limit` bytes per call, cut into 4096-byte pieces.
   */
  method LcdWrite(data: seq<Byte>, limit: nat) returns (trace: seq<Event>)
    ensures trace == WriteTrace(data, limit)
    ensures AllSpi(trace) && WritesAtMost(trace, MaxWrite)
    ensures Sent(trace) == if limit > 0 then data else []
  {
    var cs := Chunks(data);
    trace := [];
    var c := 0;
    while c < |cs|
      invariant c <= |cs|
      invariant trace == PieceTransfers(cs[..c], limit)
    {
      var part := WriteChunk(cs[c], limit);
      assert cs[..c + 1][..c] == cs[..c];
      trace := trace + part;
      c := c + 1;
    }
    assert cs[..|cs|] == cs;
    WriteTraceSends(data, limit);
  }

  // ----- A bus whose capacity varies from call to call -----

  /**
   A bus described call by call: the k-th SPI write accepts at most `bus[k]` of the bytes it is
   handed. Calls past the end of the description accept nothing.
   */
  type Bus = seq<nat>

  /** How many bytes of `buf` the next call on `bus` accepts. */
  function Take(buf: seq<Byte>, bus: Bus): (n: nat)
    ensures n <= |buf| && (|bus| == 0 ==> n == 0) && (|bus| > 0 ==> n <= bus[0])
    ensures n == |buf| || |bus| == 0 || n == bus[0]
  {
    if |bus| == 0 then 0 else Min(|buf|, bus[0])
  }

  function Min(a: nat, b: nat): nat {
    if a < b then a else b
  }

  /** What is left of the description of `bus` after `calls` calls. */
  function After(bus: Bus, calls: nat): (rest: Bus)
    ensures |rest| <= |bus|
  {
    if calls <= |bus| then bus[calls..] else []
  }

  /**
   The SPI calls the write loop makes to send `rest` over `bus`, up to and including the first
   call that accepts nothing.
   */
  function BusChunk(rest: seq<Byte>, bus: Bus): (trace: seq<Event>)
    ensures |trace| > 0
    decreases |rest|
  {
    var n := Take(rest, bus);
    if n == 0 then [Spi([])] else [Spi(rest[..n])] + BusChunk(rest[n..], bus[1..])
  }

  /**
   How many of the `need` bytes left in a piece `bus` takes before its first call that accepts
   nothing.
   */
  function Delivered(need: nat, bus: Bus): (d: nat)
    ensures d <= need
  {
    if need == 0 || |bus| == 0 || bus[0] == 0 then 0
    else Min(need, bus[0]) + Delivered(need - Min(need, bus[0]), bus[1..])
  }

  function Total(calls: seq<nat>): nat {
    if |calls| == 0 then 0 else calls[0] + Total(calls[1..])
  }

  predicate Positive(calls: seq<nat>) {
    forall k :: 0 <= k < |calls| ==> calls[k] > 0
  }

  /** The first calls of `bus` accept something each and `need` bytes or more between them. */
  predicate Reaches(bus: Bus, need: nat) {
    exists k :: 0 <= k <= |bus| && Positive(bus[..k]) && Total(bus[..k]) >= need
  }

  /** How `Reaches` steps over the first call. */
  lemma ReachesFrom(bus: Bus, need: nat)
    requires need > 0
    ensures Reaches(bus, need) <==>
      |bus| > 0 && bus[0] > 0 && Reaches(bus[1..], if need < bus[0] then 0 else need - bus[0])
  {
    assert bus[..0] == [];
    if Reaches(bus, need) {
      var k :| 0 <= k <= |bus| && Positive(bus[..k]) && Total(bus[..k]) >= need;
      assert Total(bus[..0]) == 0;
      assert bus[..k][0] == bus[0];
      assert bus[..k][1..] == bus[1..][..k - 1];
      assert Positive(bus[1..][..k - 1]);
    }
    if |bus| > 0 && bus[0] > 0 {
      var need' := if need < bus[0] then 0 else need - bus[0];
      if Reaches(bus[1..], need') {
        var k :| 0 <= k <= |bus[1..]| && Positive(bus[1..][..k]) && Total(bus[1..][..k]) >= need';
        var p := bus[..k + 1];
        assert p[1..] == bus[1..][..k];
        forall j | 0 <= j < |p|
          ensures p[j] > 0
        {
          if j > 0 {
            assert p[j] == p[1..][j - 1];
          }
        }
        assert Total(p) >= need;
      }
    }
  }

  /**
   A piece is delivered in full exactly when the bus's first calls accept all of it before one
   accepts nothing.
   */
  lemma {:induction false} DeliveredIff(need: nat, bus: Bus)
    ensures Delivered(need, bus) == need <==> Reaches(bus, need)
    decreases |bus|
  {
    if need == 0 {
      assert bus[..0] == [];
      assert Positive(bus[..0]) && Total(bus[..0]) == 0;
    } else {
      ReachesFrom(bus, need);
      if |bus| > 0 && bus[0] > 0 {
        DeliveredIff(need - Min(need, bus[0]), bus[1..]);
      }
    }
  }

  /**
   The calls for a piece send the part of it that the bus takes before its first call that
   accepts nothing, in order; the rest of the piece is not sent.
   */
  lemma {:induction false} BusChunkSends(rest: seq<Byte>, bus: Bus)
    ensures Sent(BusChunk(rest, bus)) == rest[..Delivered(|rest|, bus)]
    decreases |rest|
  {
    var n := Take(rest, bus);
    if n == 0 {
      SentCons([], []);
    } else {
      var later := BusChunk(rest[n..], bus[1..]);
      var d := Delivered(|rest| - n, bus[1..]);
      BusChunkSends(rest[n..], bus[1..]);
      SentCons(rest[..n], later);
      assert rest[..n + d] == rest[..n] + rest[n..][..d];
    }
  }

  /** The calls that write the pieces `cs` in order over `bus`. */
  function BusPieces(cs: seq<seq<Byte>>, bus: Bus): (trace: seq<Event>)
    decreases |cs|
  {
    if |cs| == 0 then []
    else
      var first := BusChunk(cs[0], bus);
      first + BusPieces(cs[1..], After(bus, |first|))
  }

  /** The part of each piece that reaches the bus, each one a prefix of its piece. */
  function BusDelivered(cs: seq<seq<Byte>>, bus: Bus): (ds: seq<seq<Byte>>)
    ensures |ds| == |cs|
    ensures forall k :: 0 <= k < |cs| ==> ds[k] <= cs[k]
    decreases |cs|
  {
    if |cs| == 0 then []
    else
      [cs[0][..Delivered(|cs[0]|, bus)]] + BusDelivered(cs[1..], After(bus, |BusChunk(cs[0], bus)|))
  }

  /** Writing the pieces sends, piece after piece, the part of each that the bus takes. */
  lemma {:induction false} BusPiecesSend(cs: seq<seq<Byte>>, bus: Bus)
    ensures Sent(BusPieces(cs, bus)) == Flatten(BusDelivered(cs, bus))
    decreases |cs|
  {
    if |cs| > 0 {
      var first := BusChunk(cs[0], bus);
      var bus' := After(bus, |first|);
      var ds := BusDelivered(cs, bus);
      BusChunkSends(cs[0], bus);
      BusPiecesSend(cs[1..], bus');
      SentAppend(first, BusPieces(cs[1..], bus'));
      assert ds[1..] == BusDelivered(cs[1..], bus');
      assert Flatten(ds) == ds[0] + Flatten(ds[1..]);
    }
  }

  /** Prefixes of the pieces flatten to no more bytes than the pieces. */
  lemma {:induction false} FlattenPrefixesLength(ps: seq<seq<Byte>>, cs: seq<seq<Byte>>)
    requires |ps| == |cs| && forall k :: 0 <= k < |cs| ==> ps[k] <= cs[k]
    ensures |Flatten(ps)| <= |Flatten(cs)|
    decreases |cs|
  {
    if |cs| > 0 {
      FlattenPrefixesLength(ps[1..], cs[1..]);
      assert |ps[0]| <= |cs[0]|;
    }
  }

  /** Prefixes of the pieces that flatten to the same bytes as the pieces are the pieces. */
  lemma {:induction false} FlattenPrefixes(ps: seq<seq<Byte>>, cs: seq<seq<Byte>>)
    requires |ps| == |cs| && forall k :: 0 <= k < |cs| ==> ps[k] <= cs[k]
    requires Flatten(ps) == Flatten(cs)
    ensures ps == cs
    decreases |cs|
  {
    if |cs| > 0 {
      var f := Flatten(ps);
      assert f == ps[0] + Flatten(ps[1..]) && f == cs[0] + Flatten(cs[1..]);
      FlattenPrefixesLength(ps[1..], cs[1..]);
      assert ps[0] <= cs[0];
      assert |ps[0]| == |cs[0]|;
      assert ps[0] == cs[0];
      assert Flatten(ps[1..]) == f[|ps[0]|..] == Flatten(cs[1..]);
      FlattenPrefixes(ps[1..], cs[1..]);
      assert ps == [ps[0]] + ps[1..] && cs == [cs[0]] + cs[1..];
    }
  }

  /** The calls that write `data` piece by piece over `bus`. */
  function BusWrite(data: seq<Byte>, bus: Bus): (trace: seq<Event>)
  {
    BusPieces(Chunks(data), bus)
  }

  /**
   Over a bus whose capacity varies from call to call, writing `data` sends the part of each
   piece that the bus takes before a call accepts nothing; the rest of that piece is dropped and
   no error is reported. All of `data` is sent exactly when no piece is cut short.
   */
  lemma BusWriteSends(data: seq<Byte>, bus: Bus)
    ensures Sent(BusWrite(data, bus)) == Flatten(BusDelivered(Chunks(data), bus))
    ensures Sent(BusWrite(data, bus)) == data <==> BusDelivered(Chunks(data), bus) == Chunks(data)
  {
    var cs := Chunks(data);
    BusPiecesSend(cs, bus);
    ChunksFlatten(data);
    if Flatten(BusDelivered(cs, bus)) == Flatten(cs) {
      FlattenPrefixes(BusDelivered(cs, bus), cs);
    }
  }

  /** A bus that accepts up to `limit` bytes on every call makes the calls `ChunkTransfers` describes. */
  lemma {:induction false} FixedBusChunk(rest: seq<Byte>, limit: nat, calls: nat)
    requires |rest| < calls
    ensures BusChunk(rest, seq(calls, k => limit)) == ChunkTransfers(rest, limit)
    decreases |rest|
  {
    var bus := seq(calls, k => limit);
    assert bus[0] == limit;
    var n := Accepted(rest, limit);
    if n > 0 {
      assert bus[1..] == seq(calls - 1, k => limit);
      FixedBusChunk(rest[n..], limit, calls - 1);
    }
  }

  // ----- Register and data writes -----

  /** One transfer as the controller sees it: bytes sent with the data/command line low or high. */
  datatype Transfer = Transfer(dataMode: bool, bytes: seq<Byte>)

  function Reg(bytes: seq<Byte>): Transfer {
    Transfer(false, bytes)
  }

  function Data(bytes: seq<Byte>): Transfer {
    Transfer(true, bytes)
  }

  /** The events for a sequence of transfers: each sets the data/command line, then writes. */
  function Emit(ts: seq<Transfer>, limit: nat): (trace: seq<Event>)
    ensures |ts| == 0 ==> trace == []
    ensures |ts| > 0 ==> |trace| > 0 && trace[0] == Dc(ts[0].dataMode)
  {
    if |ts| == 0 then []
    else [Dc(ts[0].dataMode)] + WriteTrace(ts[0].bytes, limit) + Emit(ts[1..], limit)
  }

  lemma {:induction false} EmitAppend(a: seq<Transfer>, b: seq<Transfer>, limit: nat)
    ensures Emit(a + b, limit) == Emit(a, limit) + Emit(b, limit)
    decreases |a|
  {
    if |a| > 0 {
      assert (a + b)[0] == a[0];
      assert (a + b)[1..] == a[1..] + b;
      EmitAppend(a[1..], b, limit);
    } else {
      assert a + b == b;
    }
  }

  lemma EmitCons(ts: seq<Transfer>, limit: nat)
    requires |ts| > 0
    ensures Emit(ts, limit) == Emit([ts[0]], limit) + Emit(ts[1..], limit)
  {
    EmitOne(ts[0], limit);
  }

  /** Five transfers in a row emit the events of each, one after the other. */
  lemma EmitFive(ts: seq<Transfer>, limit: nat)
    requires |ts| == 5
    ensures Emit(ts, limit) ==
      Emit([ts[0]], limit) + (Emit([ts[1]], limit) + (Emit([ts[2]], limit)
        + (Emit([ts[3]], limit) + Emit([ts[4]], limit))))
  {
    EmitCons(ts, limit);
    EmitCons(ts[1..], limit);
    EmitCons(ts[2..], limit);
    EmitCons(ts[3..], limit);
    assert ts[1..][1..] == ts[2..] && ts[2..][1..] == ts[3..] && ts[3..][1..] == ts[4..];
    assert ts[4..] == [ts[4]];
  }

  lemma EmitOne(t: Transfer, limit: nat)
    ensures Emit([t], limit) == [Dc(t.dataMode)] + WriteTrace(t.bytes, limit)
  {
    assert [t][1..] == [];
  }

  /** Selects registers: the data/command line goes low, then the register bytes are written. */
  method LcdWriteReg(regs: seq<Byte>, limit: nat) returns (trace: seq<Event>)
    ensures trace == Emit([Reg(regs)], limit)
    ensures trace[0] == Dc(false) && Sent(trace) == if limit > 0 then regs else []
  {
    var written := LcdWrite(regs, limit);
    trace := [Dc(false)] + written;
    EmitOne(Reg(regs), limit);
    SentAppend([Dc(false)], written);
    assert Sent([Dc(false)]) == [] + Sent([]);
  }

  /** Writes data for the selected registers: the data/command line goes high, then the bytes. */
  method LcdWriteData(data: seq<Byte>, limit: nat) returns (trace: seq<Event>)
    ensures trace == Emit([Data(data)], limit)
    ensures trace[0] == Dc(true) && Sent(trace) == if limit > 0 then data else []
  {
    var written := LcdWrite(data, limit);
    trace := [Dc(true)] + written;
    EmitOne(Data(data), limit);
    SentAppend([Dc(true)], written);
    assert Sent([Dc(true)]) == [] + Sent([]);
  }

  /** The transfers that program the address window: columns (0x2a), rows (0x2b), memory write (0x2c). */
  function WindowTransfers(b: Bounds): (ts: seq<Transfer>)
    ensures |ts| == 5 && ts[4] == Reg([0x2c])
  {
    [Reg([0x2a]), Data([0x00, b.x1, 0x00, b.x2]),
     Reg([0x2b]), Data([0x00, b.y1, 0x00, b.y2]),
     Reg([0x2c])]
  }

  /** Programs the address window for a region, leaving the controller ready to receive its pixels. */
  method LcdSetWindow(xy: LcdXY, size: LcdSize, limit: nat) returns (trace: seq<Event>)
    ensures trace == Emit(WindowTransfers(WindowBounds(xy, size)), limit)
  {
    var b := WindowBounds(xy, size);
    var ts := WindowTransfers(b);
    var t1 := LcdWriteReg([0x2a], limit);
    var t2 := LcdWriteData([0x00, b.x1, 0x00, b.x2], limit);
    var t3 := LcdWriteReg([0x2b], limit);
    var t4 := LcdWriteData([0x00, b.y1, 0x00, b.y2], limit);
    var t5 := LcdWriteReg([0x2c], limit);
    trace := t1 + (t2 + (t3 + (t4 + t5)));
    EmitFive(ts, limit);
  }

  /**
   Draws a block of encoded pixels: the corner pair is turned into a position and a size by
   `toXYSize`, the window is programmed, and only then are the pixel bytes written as data.
   */
  method SetData(x1y1: LcdXY, x2y2: LcdXY, data: seq<Byte>, limit: nat,
                 toXYSize: (LcdXY, LcdXY) -> (LcdXY, LcdSize))
    returns (trace: seq<Event>)
    ensures var (xy, size) := toXYSize(x1y1, x2y2);
      trace == Emit(WindowTransfers(WindowBounds(xy, size)) + [Data(data)], limit)
  {
    var (xy, size) := toXYSize(x1y1, x2y2);
    var window := LcdSetWindow(xy, size, limit);
    var pixels := LcdWriteData(data, limit);
    trace := window + pixels;
    EmitAppend(WindowTransfers(WindowBounds(xy, size)), [Data(data)], limit);
  }

  // ----- What the controller sees -----

  /** Length of the run of SPI writes at the start of a trace. */
  function SpiRun(trace: seq<Event>): (n: nat)
    ensures n <= |trace|
  {
    if |trace| == 0 || trace[0].Dc? then 0 else 1 + SpiRun(trace[1..])
  }

  /**
   The transfers a trace delivers to the controller: each change of the data/command line
   starts one, which collects the bytes written until the next change. Bytes written before
   the line was ever set are not attributed to any transfer.
   */
  function Received(trace: seq<Event>): (ts: seq<Transfer>)
    decreases |trace|
  {
    if |trace| == 0 then []
    else if trace[0].Spi? then Received(trace[1..])
    else
      var n := SpiRun(trace[1..]);
      [Transfer(trace[0].high, Sent(trace[1..][..n]))] + Received(trace[1..][n..])
  }

  lemma {:induction false} SpiRunOf(a: seq<Event>, b: seq<Event>)
    requires AllSpi(a) && (|b| == 0 || b[0].Dc?)
    ensures SpiRun(a + b) == |a|
    decreases |a|
  {
    if |a| > 0 {
      assert (a + b)[1..] == a[1..] + b;
      SpiRunOf(a[1..], b);
    } else {
      assert a + b == b;
    }
  }

  lemma ReceivedCons(high: bool, a: seq<Event>, rest: seq<Event>)
    requires AllSpi(a) && (|rest| == 0 || rest[0].Dc?)
    ensures Received([Dc(high)] + a + rest) == [Transfer(high, Sent(a))] + Received(rest)
  {
    var trace := [Dc(high)] + a + rest;
    assert trace[1..] == a + rest;
    SpiRunOf(a, rest);
    assert (a + rest)[..|a|] == a;
    assert (a + rest)[|a|..] == rest;
  }

  /**
   Over a bus that accepts something, the controller receives exactly the transfers that were
   emitted: the same bytes, with the data/command line in the same state, in the same order.
   */
  lemma {:induction false} ReceivedEmit(ts: seq<Transfer>, limit: nat)
    requires limit > 0
    ensures Received(Emit(ts, limit)) == ts
    decreases |ts|
  {
    if |ts| > 0 {
      ReceivedEmit(ts[1..], limit);
      ReceivedEmitStep(ts, limit);
    }
  }

  /** The first transfer is received ahead of the ones after it. */
  lemma ReceivedEmitStep(ts: seq<Transfer>, limit: nat)
    requires limit > 0 && |ts| > 0 && Received(Emit(ts[1..], limit)) == ts[1..]
    ensures Received(Emit(ts, limit)) == ts
  {
    var w := WriteTrace(ts[0].bytes, limit);
    var rest := Emit(ts[1..], limit);
    WriteTraceSends(ts[0].bytes, limit);
    assert Emit(ts, limit) == [Dc(ts[0].dataMode)] + w + rest;
    ReceivedCons(ts[0].dataMode, w, rest);
    assert [ts[0]] + ts[1..] == ts;
  }

  /**
   Drawing pixels makes the controller receive register 0x2a with the column bounds, 0x2b with
   the row bounds and 0x2c, and only after those the pixel data.
   */
  lemma SetDataReceived(xy: LcdXY, size: LcdSize, data: seq<Byte>, limit: nat)
    requires limit > 0
    ensures var b := WindowBounds(xy, size);
      Received(Emit(WindowTransfers(b) + [Data(data)], limit)) ==
        [Reg([0x2a]), Data([0x00, b.x1, 0x00, b.x2]),
         Reg([0x2b]), Data([0x00, b.y1, 0x00, b.y2]),
         Reg([0x2c]), Data(data)]
  {
    ReceivedEmit(WindowTransfers(WindowBounds(xy, size)) + [Data(data)], limit);
  }
}
