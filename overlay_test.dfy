/**
 * `OverlayTest`: a test generator for the detector overlay classes. Each
 * call drains the DTC data blocks of one read into one fragment per block,
 * whose fragment ID packs the block header's ring and ROC numbers and whose
 * payload is the block's packets as 16-bit ADC words; the first call also
 * records the fragment IDs the generator serves.
 *
 * The header's bits are handled through 128-entry bit arrays, as the
 * source does with `std::bitset<128>`: `BitArray` spreads eight 16-bit words
 * over one, `ConvertFromBinary` reads a window of it back as a number.
 *
 * The DTC library is not part of this model: the blocks a read hands back
 * are an input, each with the packet count its header packet decodes to,
 * and the header packet's bytes are taken to be the block's first sixteen.
 */
module OverlayTests {

  import opened Common
  import DtcReads

  type Byte = DtcReads.Byte
  type PacketBlock = DtcReads.PacketBlock
  const PACKET_BYTES := DtcReads.PACKET_BYTES

  /** A `uint16_t`, the ADC word of a detector fragment. */
  type Word16 = x: nat | x < 0x1_0000

  /** The fragment types the generator can be configured with. */
  datatype BoardType = TOY1 | TOY2 | TRK | CAL | CRV | OtherType(code: nat)

  /** `typeToADC`: the ADC width of a detector type; any other type is a configuration error. */
  function TypeToAdc(t: BoardType): (bits: Option<nat>)
    ensures bits.Some? <==> t == TRK || t == CAL || t == CRV
    ensures bits.Some? ==> bits.value == 16
  {
    match t
    case TRK => Some(16)
    case CAL => Some(16)
    case CRV => Some(16)
    case _ => None
  }

  /** The constructor's check: the types it does not throw for. */
  predicate Accepted(t: BoardType)
  {
    t == TOY1 || t == TOY2 || t == TRK || t == CAL || t == CRV
  }

  /**
   * The constructor lets the two toy types through although `typeToADC`
   * has no width for them, so such a generator throws as soon as a block
   * arrives (see `ToyTypesThrowOnData`).
   */
  lemma AcceptedWithoutWidth(t: BoardType)
    ensures Accepted(t) && TypeToAdc(t).None? <==> t == TOY1 || t == TOY2
  {
  }

  // Bits.

  function Pow2(n: nat): (p: nat)
    ensures p >= 1
  {
    if n == 0 then 1 else 2 * Pow2(n - 1)
  }

  /** Bit `o` of `x`. */
  predicate Bit(x: nat, o: nat)
    decreases o
  {
    if o == 0 then x % 2 == 1 else Bit(x / 2, o - 1)
  }

  /** `to_ulong` of a bitset whose bit `j` is `bits[j]`. */
  function ToULong(bits: seq<bool>): (r: nat)
    ensures r < Pow2(|bits|)
  {
    if bits == [] then 0 else (if bits[0] then 1 else 0) + 2 * ToULong(bits[1..])
  }

  /** Reading a bitset's value back bit by bit gives its bits. */
  lemma {:induction false} ToULongBit(bits: seq<bool>, j: nat)
    requires j < |bits|
    ensures Bit(ToULong(bits), j) == bits[j]
    decreases j
  {
    if j > 0 {
      ToULongBit(bits[1..], j - 1);
    }
  }

  /** The number the low `n` bits of `x` make. */
  function LowPart(x: nat, n: nat): nat
  {
    if n == 0 then 0 else x % 2 + 2 * LowPart(x / 2, n - 1)
  }

  /** A bitset holding the low bits of `x` has the value of those bits. */
  lemma {:induction false} ToULongOfBits(x: nat, bits: seq<bool>)
    requires forall j :: 0 <= j < |bits| ==> bits[j] == Bit(x, j)
    ensures ToULong(bits) == LowPart(x, |bits|)
    decreases |bits|
  {
    if bits != [] {
      forall j | 0 <= j < |bits[1..]| ensures bits[1..][j] == Bit(x / 2, j) {
        assert bits[1..][j] == bits[j + 1];
      }
      ToULongOfBits(x / 2, bits[1..]);
      assert bits[0] == Bit(x, 0);
    }
  }

  /** A number below 2^n is its own low `n` bits. */
  lemma {:induction false} LowPartBelow(x: nat, n: nat)
    requires x < Pow2(n)
    ensures LowPart(x, n) == x
  {
    if n > 0 {
      LowPartBelow(x / 2, n - 1);
    }
  }

  /** Halving `2k + x` halves `x` and keeps its lowest bit. */
  lemma Halve(k: nat, x: nat)
    ensures (2 * k + x) % 2 == x % 2 && (2 * k + x) / 2 == k + x / 2
  {
  }

  /** `q` shifted left by `n` bits. */
  function Shifted(q: nat, n: nat): nat
  {
    if n == 0 then q else 2 * Shifted(q, n - 1)
  }

  /** Bits above the low `n` do not change the low `n` bits' value. */
  lemma {:induction false} LowPartHigh(x: nat, q: nat, n: nat)
    ensures LowPart(Shifted(q, n) + x, n) == LowPart(x, n)
  {
    if n > 0 {
      Halve(Shifted(q, n - 1), x);
      LowPartHigh(x / 2, q, n - 1);
    }
  }

  lemma Pow2Four()
    ensures Pow2(4) == 16
  {
    assert Pow2(2) == 4;
  }

  /** The low four bits make the value modulo 16. */
  lemma LowNibble(x: nat)
    ensures LowPart(x, 4) == x % 16
  {
    var q := x / 16;
    assert Shifted(q, 1) == 2 * q;
    assert Shifted(q, 2) == 4 * q;
    assert Shifted(q, 3) == 8 * q;
    assert Shifted(q, 4) == 16 * q;
    LowPartHigh(x % 16, q, 4);
    Pow2Four();
    LowPartBelow(x % 16, 4);
  }

  lemma Pow2Values()
    ensures Pow2(4) == 16 && Pow2(16) == 0x1_0000
  {
    assert Pow2(1) == 2;
    assert Pow2(2) == 4;
    assert Pow2(3) == 8;
    assert Pow2(4) == 16;
    assert Pow2(5) == 32;
    assert Pow2(6) == 64;
    assert Pow2(7) == 128;
    assert Pow2(8) == 256;
    assert Pow2(9) == 512;
    assert Pow2(10) == 1024;
    assert Pow2(11) == 2048;
    assert Pow2(12) == 4096;
    assert Pow2(13) == 8192;
    assert Pow2(14) == 16384;
    assert Pow2(15) == 32768;
  }

  lemma DoubleProduct(p: int, c: int)
    ensures 2 * (p * c) == (2 * p) * c
  {
    assert (2 * p) * c == (p + p) * c == p * c + p * c;
  }

  /** A bitset's value splits at any bit into its low part and its high part. */
  lemma {:induction false} ToULongAppend(a: seq<bool>, b: seq<bool>)
    ensures ToULong(a + b) == ToULong(a) + Pow2(|a|) * ToULong(b)
    decreases |a|
  {
    if a != [] {
      var a0 := if a[0] then 1 else 0;
      assert (a + b)[1..] == a[1..] + b;
      ToULongAppend(a[1..], b);
      var t, p, c := ToULong(a[1..]), Pow2(|a[1..]|), ToULong(b);
      assert ToULong(a + b) == a0 + 2 * (t + p * c);
      assert ToULong(a) == a0 + 2 * t;
      assert Pow2(|a|) == 2 * p;
      DoubleProduct(p, c);
    } else {
      assert a + b == b;
    }
  }

  /** A bitset whose bits from `m` on are clear is below 2^m. */
  lemma {:induction false} ToULongHighClear(bits: seq<bool>, m: nat)
    requires forall j :: m <= j < |bits| ==> !bits[j]
    ensures ToULong(bits) < Pow2(m)
    decreases |bits|
  {
    if bits != [] {
      var m' := if m > 0 then m - 1 else 0;
      forall j | m' <= j < |bits[1..]| ensures !bits[1..][j] {
        assert bits[1..][j] == bits[j + 1];
      }
      ToULongHighClear(bits[1..], m');
    }
  }

  /** Index 127 - 16k - o of a bit array counts 16k + o from its top. */
  lemma Slot16(k: nat, o: nat)
    requires o < 16
    ensures (127 - (127 - 16 * k - o)) / 16 == k && (127 - (127 - 16 * k - o)) % 16 == o
  {
    assert 127 - (127 - 16 * k - o) == 16 * k + o;
  }

  /** Index 127 - 8k - o of a bit array counts 8k + o from its top. */
  lemma Slot8(k: nat, o: nat)
    requires o < 8
    ensures (127 - (127 - 8 * k - o)) / 8 == k && (127 - (127 - 8 * k - o)) % 8 == o
  {
    assert 127 - (127 - 8 * k - o) == 8 * k + o;
  }

  /** Bit `o` of an ADC word. */
  predicate WordBit(w: Word16, o: nat)
  {
    Bit(w, o)
  }

  /** Index `i` of `bitArray`: bit (127 - i) mod 16 of word (127 - i) div 16. */
  predicate ArrayBit(words: seq<Word16>, i: nat)
    requires |words| >= 8 && i < 128
  {
    WordBit(words[(127 - i) / 16], (127 - i) % 16)
  }

  /** `bitArray`: 128 bits, index i holding bit (127 - i) mod 16 of word (127 - i) div 16. */
  function BitArraySpec(words: seq<Word16>): (bits: seq<bool>)
    requires |words| >= 8
    ensures |bits| == 128
  {
    seq(128, i requires 0 <= i < 128 => ArrayBit(words, i))
  }

  /** In `bitArray`, bit `offset` of word `k` lands at index 127 - 16k - offset. */
  lemma BitArrayLayout(words: seq<Word16>, k: nat, o: nat)
    requires |words| >= 8 && k < 8 && o < 16
    ensures BitArraySpec(words)[127 - 16 * k - o] == WordBit(words[k], o)
  {
    var i := 127 - 16 * k - o;
    assert 0 <= i < 128;
    Slot16(k, o);
    assert (127 - i) / 16 == k;
    assert (127 - i) % 16 == o;
    assert BitArraySpec(words)[i] == ArrayBit(words, i);
  }

  /** The 16-bit bitset `convertFromBinary` fills: bit `maxIdx - i` is `theArray[i]` for `minIdx < i <= maxIdx`. */
  function Window(theArray: seq<bool>, minIdx: int, maxIdx: int): (bits: seq<bool>)
    requires maxIdx <= minIdx || (-1 <= minIdx && maxIdx < |theArray|)
    ensures |bits| == 16
  {
    seq(16, j requires 0 <= j < 16 => if j < maxIdx - minIdx then theArray[maxIdx - j] else false)
  }

  /**
   * `convertFromBinary`: the window's value, or None where `std::bitset<16>`
   * throws `out_of_range` because the window is wider than 16 bits.
   */
  function ConvertSpec(theArray: seq<bool>, minIdx: int, maxIdx: int): (r: Option<Word16>)
    requires maxIdx <= minIdx || (-1 <= minIdx && maxIdx < |theArray|)
  {
    if maxIdx - minIdx > 16 then None
    else
      Pow2Values();
      Some(ToULong(Window(theArray, minIdx, maxIdx)))
  }

  /**
   * The converted value has bit `maxIdx - i` equal to `theArray[i]` for
   * `minIdx < i <= maxIdx` and every other bit clear, so it is below
   * 2^(maxIdx - minIdx); it exists exactly when the window fits 16 bits.
   */
  lemma ConvertBits(theArray: seq<bool>, minIdx: int, maxIdx: int)
    requires maxIdx <= minIdx || (-1 <= minIdx && maxIdx < |theArray|)
    ensures ConvertSpec(theArray, minIdx, maxIdx).Some? <==> maxIdx - minIdx <= 16
    ensures ConvertSpec(theArray, minIdx, maxIdx).Some? ==>
      var v := ConvertSpec(theArray, minIdx, maxIdx).value;
      (forall i :: minIdx < i <= maxIdx ==> Bit(v, maxIdx - i) == theArray[i]) &&
      (forall j :: 0 <= j < 16 && j >= maxIdx - minIdx ==> !Bit(v, j)) &&
      v < Pow2(if maxIdx > minIdx then maxIdx - minIdx else 0)
  {
    if maxIdx - minIdx <= 16 {
      var w := Window(theArray, minIdx, maxIdx);
      var v := ToULong(w);
      forall j | 0 <= j < 16 ensures Bit(v, j) == w[j] {
        ToULongBit(w, j);
      }
      forall i | minIdx < i <= maxIdx ensures Bit(v, maxIdx - i) == theArray[i] {
        assert w[maxIdx - i] == theArray[i];
      }
      ToULongHighClear(w, if maxIdx > minIdx then maxIdx - minIdx else 0);
    }
  }

  /** Round trip: reading the window of word `k` back out of `bitArray` gives the word. */
  lemma BitArrayRoundTrip(words: seq<Word16>, k: nat)
    requires |words| >= 8 && k < 8
    ensures ConvertSpec(BitArraySpec(words), 111 - 16 * k, 127 - 16 * k) == Some(words[k])
  {
    var bits := BitArraySpec(words);
    var w := Window(bits, 111 - 16 * k, 127 - 16 * k);
    forall j | 0 <= j < 16 ensures w[j] == Bit(words[k], j) {
      BitArrayLayout(words, k, j);
      assert w[j] == bits[127 - 16 * k - j];
    }
    ToULongOfBits(words[k], w);
    Pow2Values();
    LowPartBelow(words[k], 16);
  }

  // The fragment ID.

  /** Bit `o` of a byte. */
  predicate ByteBit(b: Byte, o: nat)
  {
    Bit(b as nat, o)
  }

  /** Index `i` of the header's bit array: bit (127 - i) mod 8 of byte (127 - i) div 8. */
  predicate HeaderBit(packet: seq<Byte>, i: nat)
    requires |packet| == PACKET_BYTES && i < 128
  {
    ByteBit(packet[(127 - i) / 8], (127 - i) % 8)
  }

  /** The bit array `generateFragmentID` fills: index i holds bit (127 - i) mod 8 of byte (127 - i) div 8. */
  function PacketBits(packet: seq<Byte>): (bits: seq<bool>)
    requires |packet| == PACKET_BYTES
    ensures |bits| == 128
  {
    seq(128, i requires 0 <= i < 128 => HeaderBit(packet, i))
  }

  /** Bit `offset` of byte `b` lands at index 127 - 8b - offset. */
  lemma PacketBitsLayout(packet: seq<Byte>, b: nat, o: nat)
    requires |packet| == PACKET_BYTES && b < 16 && o < 8
    ensures PacketBits(packet)[127 - 8 * b - o] == ByteBit(packet[b], o)
  {
    var i := 127 - 8 * b - o;
    Slot8(b, o);
    assert PacketBits(packet)[i] == HeaderBit(packet, i);
  }

  /** `generateFragmentID`: the ring number (low nibble of byte 3) over the ROC number (low nibble of byte 2). */
  function FragmentIdSpec(packet: seq<Byte>): (id: nat)
    requires |packet| == PACKET_BYTES
    ensures id < 256
  {
    (packet[3] as nat % 16) * 16 + packet[2] as nat % 16
  }

  /**
   * The ID's low four bits are the low four of byte 2 and its high four the
   * low four of byte 3, so two header packets give the same ID exactly when
   * they agree on those nibbles.
   */
  lemma FragmentIdNibbles(p: seq<Byte>, q: seq<Byte>)
    requires |p| == PACKET_BYTES && |q| == PACKET_BYTES
    ensures FragmentIdSpec(p) / 16 == p[3] as nat % 16 && FragmentIdSpec(p) % 16 == p[2] as nat % 16
    ensures FragmentIdSpec(p) == FragmentIdSpec(q) <==>
      p[3] as nat % 16 == q[3] as nat % 16 && p[2] as nat % 16 == q[2] as nat % 16
  {
  }

  /** Bits 0-3 holding byte 2's low nibble and bits 4-7 byte 3's make the fragment ID. */
  lemma NibblesMakeFragmentId(packet: seq<Byte>, low: seq<bool>, high: seq<bool>)
    requires |packet| == PACKET_BYTES && |low| == 4 && |high| == 4
    requires forall j :: 0 <= j < 4 ==> low[j] == Bit(packet[2] as nat, j)
    requires forall j :: 0 <= j < 4 ==> high[j] == Bit(packet[3] as nat, j)
    ensures ToULong(low + high) == FragmentIdSpec(packet)
  {
    ToULongAppend(low, high);
    ToULongOfBits(packet[2] as nat, low);
    ToULongOfBits(packet[3] as nat, high);
    Pow2Four();
    LowNibble(packet[2] as nat);
    LowNibble(packet[3] as nat);
    var l, h := ToULong(low), ToULong(high);
    assert l == packet[2] as nat % 16 && h == packet[3] as nat % 16;
    assert ToULong(low + high) == l + 16 * h;
  }

  // The payload.

  /** A 16-bit word from two bytes: `(second << 8) | first`. */
  function Word(first: Byte, second: Byte): (w: Word16)
  {
    second as nat * 256 + first as nat
  }

  /** Byte pairs to words, the first byte of each pair in the low half. */
  function Pack(bytes: seq<Byte>): (words: seq<Word16>)
    requires |bytes| % 2 == 0
    ensures |words| == |bytes| / 2
    decreases |bytes|
  {
    if bytes == [] then [] else [Word(bytes[0], bytes[1])] + Pack(bytes[2..])
  }

  /** The bytes' values. */
  function Values(bytes: seq<Byte>): (vs: seq<nat>)
  {
    seq(|bytes|, i requires 0 <= i < |bytes| => bytes[i] as nat)
  }

  /** Words back to byte pairs, low byte first. */
  function Unpack(words: seq<Word16>): (vs: seq<nat>)
    ensures |vs| == 2 * |words|
  {
    if words == [] then [] else [words[0] % 256, words[0] / 256] + Unpack(words[1..])
  }

  /** Round trip: unpacking the packed words gives back the bytes. */
  lemma {:induction false} UnpackPack(bytes: seq<Byte>)
    requires |bytes| % 2 == 0
    ensures Unpack(Pack(bytes)) == Values(bytes)
    decreases |bytes|
  {
    if bytes != [] {
      var w := Word(bytes[0], bytes[1]);
      assert bytes[0] as nat < 256 && bytes[1] as nat < 256;
      assert w % 256 == bytes[0] as nat && w / 256 == bytes[1] as nat;
      UnpackPack(bytes[2..]);
      assert Pack(bytes)[1..] == Pack(bytes[2..]);
      assert Values(bytes) == [bytes[0] as nat, bytes[1] as nat] + Values(bytes[2..]);
    }
  }

  /** Word `j` of the packed words is made of bytes 2j and 2j + 1. */
  lemma {:induction false} PackAt(bytes: seq<Byte>, j: nat)
    requires |bytes| % 2 == 0 && j < |bytes| / 2
    ensures Pack(bytes)[j] == Word(bytes[2 * j], bytes[2 * j + 1])
    decreases j
  {
    if j > 0 {
      PackAt(bytes[2..], j - 1);
    }
  }

  /** A block's header packet and the packets it counts, 16 bytes each. */
  function BlockBytes(b: PacketBlock): (bytes: seq<Byte>)
    ensures |bytes| == 16 * (1 + b.packetCount) && |bytes| % 2 == 0
    ensures bytes == b.bytes[..|bytes|]
  {
    b.bytes[..PACKET_BYTES * (1 + b.packetCount)]
  }

  /** The payload: the header packet and the packets it counts, 8 words to a packet. */
  function Payload(b: PacketBlock): (words: seq<Word16>)
    ensures |words| == 8 * (1 + b.packetCount)
  {
    Pack(BlockBytes(b))
  }

  /** Unpacking a block's payload gives back the bytes of its header packet and the packets it counts. */
  lemma PayloadRoundTrip(b: PacketBlock)
    ensures Unpack(Payload(b)) == Values(BlockBytes(b))
  {
    UnpackPack(BlockBytes(b));
  }

  // The generator.

  /** `board_serial_number` is fixed to 999. */
  const BOARD_SERIAL: nat := 999

  /** A detector fragment: sequence and fragment ID, type, metadata, and the ADC words. */
  datatype OverlayFragment = OverlayFragment(sequenceId: nat, fragmentId: nat, fragType: BoardType,
                                             boardSerialNumber: nat, adcBits: nat, adcs: seq<Word16>)

  /** The fragment a block becomes in an event numbered `seqId`. */
  function BlockFragment(t: BoardType, seqId: nat, b: PacketBlock): OverlayFragment
    requires TypeToAdc(t).Some?
  {
    OverlayFragment(seqId, FragmentIdSpec(b.bytes[..PACKET_BYTES]), t, BOARD_SERIAL,
                    TypeToAdc(t).value, Payload(b))
  }

  function Fragments(t: BoardType, seqId: nat, blocks: seq<PacketBlock>): (frags: seq<OverlayFragment>)
    requires blocks == [] || TypeToAdc(t).Some?
  {
    seq(|blocks|, k requires 0 <= k < |blocks| => BlockFragment(t, seqId, blocks[k]))
  }

  function IdsOf(frags: seq<OverlayFragment>): (ids: seq<nat>)
  {
    seq(|frags|, k requires 0 <= k < |frags| => frags[k].fragmentId)
  }

  lemma FragmentsSnoc(t: BoardType, seqId: nat, blocks: seq<PacketBlock>, n: nat)
    requires n < |blocks| && TypeToAdc(t).Some?
    ensures Fragments(t, seqId, blocks[..n + 1]) == Fragments(t, seqId, blocks[..n]) + [BlockFragment(t, seqId, blocks[n])]
  {
    assert blocks[..n + 1] == blocks[..n] + [blocks[n]];
  }

  lemma IdsOfSnoc(frags: seq<OverlayFragment>, f: OverlayFragment)
    ensures IdsOf(frags + [f]) == IdsOf(frags) + [f.fragmentId]
  {
  }

  /** What a call returns: false on a stop, true with fragments, or the configuration error. */
  datatype Outcome = Stopped | Served(frags: seq<OverlayFragment>) | ConfigurationError

  datatype OverlayState = OverlayState(data: seq<PacketBlock>, dataIdx: nat, fragmentIds: seq<nat>,
                                       eventsRead: nat, evCounter: nat)

  /** Between calls the index points into the held blocks, if there are any. */
  predicate Good(s: OverlayState)
  {
    s.data != [] ==> s.dataIdx < |s.data|
  }

  /**
   * `getNext_`: on a stop, false; otherwise the held blocks, or the blocks a
   * fresh read returns when none are held, are drained from the index on.
   * The first block throws for a type without an ADC width, after its ID has
   * been recorded on the first event.
   */
  function GetNextSpec(t: BoardType, s: OverlayState, stop: bool, reply: seq<PacketBlock>)
    : (r: (Outcome, OverlayState))
    requires Good(s)
    ensures Good(r.1)
  {
    if stop then (Stopped, s)
    else
      var data := if s.data == [] then reply else s.data;
      var idx := if s.data == [] then 0 else s.dataIdx;
      if idx < |data| && TypeToAdc(t).None? then
        var id := FragmentIdSpec(data[idx].bytes[..PACKET_BYTES]);
        (ConfigurationError,
         s.(data := data, dataIdx := idx,
            fragmentIds := s.fragmentIds + if s.eventsRead == 0 then [id] else []))
      else
        var frags := Fragments(t, s.evCounter, data[idx..]);
        (Served(frags),
         OverlayState([], 0, s.fragmentIds + (if s.eventsRead == 0 then IdsOf(frags) else []),
                      s.eventsRead + 1, s.evCounter + 1))
  }

  /**
   * A served call makes one fragment per block from the index on, all with
   * the event counter as sequence ID, each with its header's fragment ID and
   * its packets as payload; it leaves no block held and moves both counters
   * on by one.
   */
  lemma ServedFragments(t: BoardType, s: OverlayState, reply: seq<PacketBlock>)
    requires Good(s)
    ensures var r := GetNextSpec(t, s, false, reply);
      var data := if s.data == [] then reply else s.data;
      var idx := if s.data == [] then 0 else s.dataIdx;
      r.0.Served? ==>
        |r.0.frags| == |data| - idx &&
        (forall k :: 0 <= k < |r.0.frags| ==>
          r.0.frags[k].sequenceId == s.evCounter &&
          r.0.frags[k].fragmentId == FragmentIdSpec(data[idx + k].bytes[..PACKET_BYTES]) &&
          r.0.frags[k].adcBits == 16 &&
          Unpack(r.0.frags[k].adcs) == Values(BlockBytes(data[idx + k]))) &&
        r.1.data == [] && r.1.evCounter == s.evCounter + 1 && r.1.eventsRead == s.eventsRead + 1
  {
    var r := GetNextSpec(t, s, false, reply);
    var data := if s.data == [] then reply else s.data;
    var idx := if s.data == [] then 0 else s.dataIdx;
    if r.0.Served? {
      forall k | 0 <= k < |r.0.frags|
        ensures Unpack(r.0.frags[k].adcs) ==
          Values(BlockBytes(data[idx + k]))
      {
        assert data[idx..][k] == data[idx + k];
        PayloadRoundTrip(data[idx + k]);
      }
    }
  }

  /**
   * Fragment IDs are recorded on the first event only: then every fragment's
   * ID is appended in block order, and afterwards the list never changes. A
   * first event that finds no blocks therefore leaves the list empty for good.
   */
  lemma IdsRecordedOnFirstEventOnly(t: BoardType, s: OverlayState, stop: bool, reply: seq<PacketBlock>)
    requires Good(s)
    ensures var r := GetNextSpec(t, s, stop, reply);
      (s.eventsRead > 0 ==> r.1.fragmentIds == s.fragmentIds) &&
      (s.eventsRead == 0 && r.0.Served? ==>
        r.1.fragmentIds == s.fragmentIds + IdsOf(r.0.frags) && |IdsOf(r.0.frags)| == |r.0.frags|) &&
      (r.0.Served? ==> r.1.eventsRead > 0)
  {
  }

  /** With a toy type, any call that finds a block throws, and no call ever serves a fragment. */
  lemma ToyTypesThrowOnData(t: BoardType, s: OverlayState, reply: seq<PacketBlock>)
    requires Good(s) && (t == TOY1 || t == TOY2)
    ensures var r := GetNextSpec(t, s, false, reply);
      (s.data != [] || reply != [] ==> r.0 == ConfigurationError) &&
      (r.0.Served? ==> r.0.frags == [])
  {
  }

  class OverlayTest {
    var data: seq<PacketBlock>
    var dataIdx: nat
    var fragmentIds: seq<nat>
    var eventsRead: nat
    var evCounter: nat
    const fragmentType: BoardType

    function State(): OverlayState
      reads this
    {
      OverlayState(data, dataIdx, fragmentIds, eventsRead, evCounter)
    }

    predicate Valid()
      reads this
    {
      Good(State())
    }

    constructor (fragmentType: BoardType, evCounter: nat)
      requires Accepted(fragmentType)
      ensures Valid() && this.fragmentType == fragmentType
      ensures State() == OverlayState([], 0, [], 0, evCounter)
    {
      this.fragmentType := fragmentType;
      this.evCounter := evCounter;
      data := [];
      dataIdx := 0;
      fragmentIds := [];
      eventsRead := 0;
    }

    method GetNext(stop: bool, reply: seq<PacketBlock>) returns (outcome: Outcome)
      requires Valid()
      modifies this
      ensures Valid()
      ensures (outcome, State()) == GetNextSpec(fragmentType, old(State()), stop, reply)
    {
      if stop {
        return Stopped;
      }
      if data == [] {
        data := reply;
        dataIdx := 0;
      }
      var newIds;
      outcome, newIds := DrainBlocks(fragmentType, data, dataIdx, evCounter, eventsRead == 0);
      fragmentIds := fragmentIds + newIds;
      if outcome.Served? {
        data := [];
        dataIdx := 0;
        evCounter := evCounter + 1;
        eventsRead := eventsRead + 1;
      }
    }

    /**
     * The `while (!data.empty())` loop: one fragment per block from `idx`
     * on, each block's fragment ID collected when `firstEvent`; a type
     * without an ADC width throws at the first block, after its ID.
     */
    static method DrainBlocks(t: BoardType, data: seq<PacketBlock>, idx: nat, seqId: nat, firstEvent: bool)
      returns (outcome: Outcome, ids: seq<nat>)
      requires if data == [] then idx == 0 else idx < |data|
      ensures outcome != Stopped
      ensures outcome == ConfigurationError <==> idx < |data| && TypeToAdc(t).None?
      ensures outcome == ConfigurationError ==>
        ids == if firstEvent then [FragmentIdSpec(data[idx].bytes[..PACKET_BYTES])] else []
      ensures outcome.Served? ==>
        outcome.frags == Fragments(t, seqId, data[idx..]) &&
        ids == if firstEvent then IdsOf(outcome.frags) else []
    {
      ghost var blocks := data[idx..];
      var rest := data;
      var i := idx;
      var frags: seq<OverlayFragment> := [];
      ids := [];
      while rest != []
        invariant rest == [] || (rest == data && i < |data|)
        invariant idx <= i && (rest != [] ==> i - idx < |blocks|)
        invariant rest == [] ==> i - idx == |blocks|
        invariant i > idx ==> TypeToAdc(t).Some?
        invariant frags == Fragments(t, seqId, blocks[..i - idx])
        invariant ids == if firstEvent then IdsOf(frags) else []
        decreases |data| - i
      {
        var id := GenerateFragmentId(rest[i].bytes[..PACKET_BYTES]);
        if firstEvent {
          ids := ids + [id];
        }
        var bits := TypeToAdc(t);
        if bits.None? {
          return ConfigurationError, ids;
        }
        var adcs := PackPayload(rest[i]);
        assert blocks[i - idx] == rest[i];
        var f := OverlayFragment(seqId, id, t, BOARD_SERIAL, bits.value, adcs);
        FragmentsSnoc(t, seqId, blocks, i - idx);
        IdsOfSnoc(frags, f);
        frags := frags + [f];
        i := i + 1;
        if i >= |rest| {
          rest := [];
        }
      }
      assert blocks[..i - idx] == blocks;
      return Served(frags), ids;
    }

    /** `bitArray`, with its nested loops over the eight words and their sixteen bits. */
    static method BitArray(beginning: seq<Word16>) returns (bits: seq<bool>)
      requires |beginning| >= 8
      ensures bits == BitArraySpec(beginning)
    {
      ghost var spec := BitArraySpec(beginning);
      var theArray := new bool[128];
      var bitIdx := 127;
      var adcIdx := 0;
      while adcIdx < 8
        invariant 0 <= adcIdx <= 8 && bitIdx == 127 - 16 * adcIdx
        invariant forall i :: bitIdx < i < 128 ==> theArray[i] == spec[i]
      {
        var offset := 0;
        while offset < 16
          invariant 0 <= offset <= 16 && bitIdx == 127 - 16 * adcIdx - offset
          invariant forall i :: bitIdx < i < 128 ==> theArray[i] == spec[i]
        {
          BitArrayLayout(beginning, adcIdx, offset);
          theArray[bitIdx] := WordBit(beginning[adcIdx], offset);
          bitIdx := bitIdx - 1;
          offset := offset + 1;
        }
        adcIdx := adcIdx + 1;
      }
      bits := theArray[..];
    }

    /** `convertFromBinary`: fills a 16-bit bitset from the window, which throws past bit 15. */
    static method ConvertFromBinary(theArray: seq<bool>, minIdx: int, maxIdx: int) returns (r: Option<Word16>)
      requires maxIdx <= minIdx || (-1 <= minIdx && maxIdx < |theArray|)
      ensures r == ConvertSpec(theArray, minIdx, maxIdx)
    {
      var retVal := new bool[16](_ => false);
      var i := minIdx + 1;
      while i <= maxIdx
        invariant minIdx + 1 <= i <= if maxIdx > minIdx then maxIdx + 1 else minIdx + 1
        invariant i > minIdx + 1 ==> maxIdx - minIdx <= 16
        invariant forall j :: 0 <= j < 16 ==>
          retVal[j] == (maxIdx - i < j < maxIdx - minIdx && theArray[maxIdx - j])
      {
        if maxIdx - i >= 16 {
          return None;
        }
        retVal[maxIdx - i] := theArray[i];
        i := i + 1;
      }
      assert retVal[..] == Window(theArray, minIdx, maxIdx);
      Pow2Values();
      return Some(ToULong(retVal[..]));
    }

    /** The first half of `generateFragmentID`: the header packet's bytes spread over a 128-bit array. */
    static method HeaderBitArray(packet: seq<Byte>) returns (bits: seq<bool>)
      requires |packet| == PACKET_BYTES
      ensures bits == PacketBits(packet)
    {
      ghost var spec := PacketBits(packet);
      var theArray := new bool[128];
      var bitIdx := 127;
      var byteIdx := 0;
      while byteIdx < 16
        invariant 0 <= byteIdx <= 16 && bitIdx == 127 - 8 * byteIdx
        invariant forall i :: bitIdx < i < 128 ==> theArray[i] == spec[i]
      {
        var offset := 0;
        while offset < 8
          invariant 0 <= offset <= 8 && bitIdx == 127 - 8 * byteIdx - offset
          invariant forall i :: bitIdx < i < 128 ==> theArray[i] == spec[i]
        {
          PacketBitsLayout(packet, byteIdx, offset);
          theArray[bitIdx] := ByteBit(packet[byteIdx], offset);
          bitIdx := bitIdx - 1;
          offset := offset + 1;
        }
        byteIdx := byteIdx + 1;
      }
      bits := theArray[..];
    }

    /** `generateFragmentID`: the header packet's bits in a 128-bit array, then the ring and ROC nibbles out of it. */
    static method GenerateFragmentId(packet: seq<Byte>) returns (id: nat)
      requires |packet| == PACKET_BYTES
      ensures id == FragmentIdSpec(packet)
    {
      var theArray := HeaderBitArray(packet);
      var fragId := new bool[8];
      var i := (127 - 28) + 1;
      while i <= 127 - 24
        invariant 100 <= i <= 104
        invariant forall j :: 4 + 103 - i < j < 8 ==> fragId[j] == Bit(packet[3] as nat, j - 4)
      {
        PacketBitsLayout(packet, 3, 103 - i);
        fragId[4 + (127 - 24) - i] := theArray[i];
        i := i + 1;
      }
      i := (127 - 20) + 1;
      while i <= 127 - 16
        invariant 108 <= i <= 112
        invariant forall j :: 4 <= j < 8 ==> fragId[j] == Bit(packet[3] as nat, j - 4)
        invariant forall j :: (127 - 16) - i < j < 4 ==> fragId[j] == Bit(packet[2] as nat, j)
      {
        PacketBitsLayout(packet, 2, 111 - i);
        fragId[(127 - 16) - i] := theArray[i];
        i := i + 1;
      }
      assert fragId[..] == fragId[..4] + fragId[4..];
      NibblesMakeFragmentId(packet, fragId[..4], fragId[4..]);
      id := ToULong(fragId[..]);
    }

    /** The packing loop: word (16p + w) / 2 is `(byte[w + 1] << 8) | byte[w]` of packet p. */
    static method PackPayload(b: PacketBlock) returns (adcs: seq<Word16>)
      ensures adcs == Payload(b)
    {
      var payloadSize := 128 * (1 + b.packetCount) / 16;
      var frag := new Word16[payloadSize];
      ghost var bytes := BlockBytes(b);
      var packetNum := 0;
      while packetNum < b.packetCount + 1
        invariant 0 <= packetNum <= b.packetCount + 1
        invariant forall j :: 0 <= j < 8 * packetNum ==> frag[j] == Word(bytes[2 * j], bytes[2 * j + 1])
      {
        var wordNum := 0;
        while wordNum < 16
          invariant 0 <= wordNum <= 16 && wordNum % 2 == 0
          invariant forall j :: 0 <= j < 8 * packetNum + wordNum / 2 ==>
            frag[j] == Word(bytes[2 * j], bytes[2 * j + 1])
        {
          var fragPos := (packetNum * 16 + wordNum) / 2;
          if wordNum % 2 == 0 {
            var first := b.bytes[16 * packetNum + wordNum];
            var second := b.bytes[16 * packetNum + wordNum + 1];
            frag[fragPos] := Word(first, second);
          }
          wordNum := wordNum + 2;
        }
        packetNum := packetNum + 1;
      }
      adcs := frag[..];
      forall j | 0 <= j < |adcs| ensures adcs[j] == Payload(b)[j] {
        PackAt(bytes, j);
      }
    }
  }
}
