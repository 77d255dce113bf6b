/**
 The journal file (internal/replica/journal.go: `writeJournalHeader`,
 `encodeJournalRecord`, `readJournal`, `OpenJournal`). The hash and the reading
 of the header's metadata are parameters; everything else is byte for byte.
 */
module JournalFormat {
  import opened Options
  import opened Bytes

  const HEADER_MAGIC: seq<Byte> := [0x53, 0x41, 0x54, 0x4A, 0x4E, 0x4C, 0x30, 0x31]
  const RECORD_MAGIC: seq<Byte> := [0x53, 0x41, 0x54, 0x47, 0x45, 0x4E, 0x30, 0x31]
  const MAX_METADATA: nat := 65536

  // ----- Records -----

  datatype Block = Block(number: nat, data: seq<Byte>)

  /** A generation as the encoder sees it: its blocks in ascending order. */
  datatype Gen = Gen(seqno: nat, blocks: seq<Block>)

  ghost predicate BlocksOk(blocks: seq<Block>, maxBlocks: nat) {
    && (forall i :: 0 <= i < |blocks| ==> |blocks[i].data| == 4096 && blocks[i].number < maxBlocks)
    && (forall i, j :: 0 <= i < j < |blocks| ==> blocks[i].number < blocks[j].number)
  }

  /** What `Enqueue` writes for a volume of `maxBlocks` blocks. */
  ghost predicate GenOk(gen: Gen, maxBlocks: nat) {
    && 0 < |gen.blocks| <= maxBlocks && |gen.blocks| < Power(4) && gen.seqno < Power(8) && maxBlocks <= Power(8)
    && BlocksOk(gen.blocks, maxBlocks)
  }

  function Payload(blocks: seq<Block>): seq<Byte> {
    if blocks == [] then [] else BigEndian(blocks[0].number, 8) + blocks[0].data + Payload(blocks[1..])
  }

  /** The part of a record header that the hash covers. */
  function Prologue(seqno: nat, count: nat): (s: seq<Byte>)
    ensures |s| == 20
  {
    BigEndian(seqno, 8) + BigEndian(count, 4) + BigEndian(count * 4104, 8)
  }

  /** `encodeJournalRecord`. */
  function Encode(gen: Gen, hash: seq<Byte> -> Digest): seq<Byte> {
    var start, payload := Prologue(gen.seqno, |gen.blocks|), Payload(gen.blocks);
    RECORD_MAGIC + start + hash(start + payload) + payload
  }

  // ----- Reading -----

  datatype BlocksRead = BlocksRead(blocks: seq<Block>, rest: seq<Byte>) | BlocksTorn | BlocksBad

  /** The inner loop of `readJournal`: `count` blocks, none outside the volume and none twice. */
  function ReadBlocks(bytes: seq<Byte>, count: nat, maxBlocks: nat, seen: set<nat>): (r: BlocksRead)
    ensures r.BlocksRead? ==> |r.rest| <= |bytes|
  {
    if count == 0 then BlocksRead([], bytes)
    else if |bytes| < 8 then BlocksTorn
    else
      var number := Number(bytes[..8]);
      if number >= maxBlocks || number in seen then BlocksBad
      else if |bytes| < 4104 then BlocksTorn
      else
        match ReadBlocks(bytes[4104..], count - 1, maxBlocks, seen + {number})
        case BlocksRead(blocks, rest) => BlocksRead([Block(number, bytes[8..4104])] + blocks, rest)
        case other => other
  }

  datatype RecordRead = Record(gen: Gen, rest: seq<Byte>) | Torn | Bad

  /** One round of the outer loop of `readJournal`. */
  function ReadRecord(bytes: seq<Byte>, last: nat, maxBlocks: nat, hash: seq<Byte> -> Digest): (r: RecordRead)
    ensures r.Record? ==> |r.rest| < |bytes|
  {
    if |bytes| < 60 then Torn
    else if bytes[..8] != RECORD_MAGIC then Bad
    else
      var seqno, count, size := Number(bytes[8..16]), Number(bytes[16..20]), Number(bytes[20..28]);
      if seqno <= last || count == 0 || count > maxBlocks || size != count * 4104 then Bad
      else
        match ReadBlocks(bytes[60..], count, maxBlocks, {})
        case BlocksTorn => Torn
        case BlocksBad => Bad
        case BlocksRead(blocks, rest) =>
          if bytes[28..60] == hash(bytes[8..28] + bytes[60..|bytes| - |rest|])
          then Record(Gen(seqno, blocks), rest) else Bad
  }

  // ----- Blocks round trip and tear -----

  lemma {:induction false} PayloadSize(blocks: seq<Block>)
    requires forall i :: 0 <= i < |blocks| ==> |blocks[i].data| == 4096
    ensures |Payload(blocks)| == |blocks| * 4104
  {
    if blocks != [] { PayloadSize(blocks[1..]); }
  }

  lemma {:induction false} Regroup(xs: seq<Byte>, ys: seq<Byte>, zs: seq<Byte>)
    ensures (xs + ys) + zs == xs + (ys + zs)
  {
  }

  ghost predicate Fresh(blocks: seq<Block>, seen: set<nat>) {
    forall i :: 0 <= i < |blocks| ==> blocks[i].number !in seen
  }

  /** The first block of a payload, as the reader meets it. */
  lemma {:induction false} FirstBlock(block: Block, more: seq<Byte>)
    requires |block.data| == 4096 && block.number < Power(8)
    ensures var bytes := BigEndian(block.number, 8) + block.data + more;
            && |bytes| == 4104 + |more|
            && Number(bytes[..8]) == block.number && bytes[8..4104] == block.data && bytes[4104..] == more
  {
    NumberOfBigEndian(block.number, 8);
    assert (BigEndian(block.number, 8) + block.data + more)[..8] == BigEndian(block.number, 8);
  }

  lemma {:induction false} RestOk(blocks: seq<Block>, maxBlocks: nat, seen: set<nat>)
    requires BlocksOk(blocks, maxBlocks) && Fresh(blocks, seen) && blocks != []
    ensures BlocksOk(blocks[1..], maxBlocks) && Fresh(blocks[1..], seen + {blocks[0].number})
    ensures blocks[0].number !in seen && blocks[0].number < maxBlocks && |blocks[0].data| == 4096
  {
  }

  lemma {:induction false} BlocksRoundTrip(blocks: seq<Block>, tail: seq<Byte>, maxBlocks: nat, seen: set<nat>)
    requires BlocksOk(blocks, maxBlocks) && maxBlocks <= Power(8) && Fresh(blocks, seen)
    ensures ReadBlocks(Payload(blocks) + tail, |blocks|, maxBlocks, seen) == BlocksRead(blocks, tail)
  {
    if blocks == [] {
      assert Payload(blocks) + tail == tail;
    } else {
      var first, rest := blocks[0], blocks[1..];
      RestOk(blocks, maxBlocks, seen);
      BlocksRoundTrip(rest, tail, maxBlocks, seen + {first.number});
      FirstBlock(first, Payload(rest) + tail);
      Regroup(BigEndian(first.number, 8) + first.data, Payload(rest), tail);
      assert [first] + rest == blocks;
    }
  }

  lemma {:induction false} BlocksTear(blocks: seq<Block>, cut: nat, maxBlocks: nat, seen: set<nat>)
    requires BlocksOk(blocks, maxBlocks) && maxBlocks <= Power(8) && Fresh(blocks, seen)
    requires cut < |Payload(blocks)|
    ensures ReadBlocks(Payload(blocks)[..cut], |blocks|, maxBlocks, seen) == BlocksTorn
  {
    var first, rest := blocks[0], blocks[1..];
    var bytes := Payload(blocks);
    RestOk(blocks, maxBlocks, seen);
    FirstBlock(first, Payload(rest));
    assert bytes == BigEndian(first.number, 8) + first.data + Payload(rest);
    if cut >= 8 {
      assert bytes[..cut][..8] == bytes[..8];
      if cut >= 4104 {
        assert bytes[..cut][4104..] == bytes[4104..][..cut - 4104];
        BlocksTear(rest, cut - 4104, maxBlocks, seen + {first.number});
      }
    }
  }

  // ----- Records round trip and tear -----

  /** The fields of an encoded record, as the reader finds them. */
  lemma {:induction false} EncodedFields(gen: Gen, tail: seq<Byte>, hash: seq<Byte> -> Digest)
    requires gen.seqno < Power(8) && |gen.blocks| < Power(4)
    ensures var bytes := Encode(gen, hash) + tail;
            && |bytes| >= 60 && bytes[..8] == RECORD_MAGIC
            && bytes[8..28] == Prologue(gen.seqno, |gen.blocks|)
            && bytes[28..60] == hash(Prologue(gen.seqno, |gen.blocks|) + Payload(gen.blocks))
            && bytes[60..] == Payload(gen.blocks) + tail
  {
  }

  lemma {:induction false} PrologueFields(seqno: nat, count: nat)
    requires seqno < Power(8) && count < Power(4)
    ensures var s := Prologue(seqno, count);
            Number(s[..8]) == seqno && Number(s[8..12]) == count && Number(s[12..20]) == count * 4104
  {
    var s := Prologue(seqno, count);
    assert s[..8] == BigEndian(seqno, 8) && s[8..12] == BigEndian(count, 4) && s[12..20] == BigEndian(count * 4104, 8);
    NumberOfBigEndian(seqno, 8);
    NumberOfBigEndian(count, 4);
    Widths();
    NumberOfBigEndian(count * 4104, 8);
  }

  /** The numbers a reader takes from the fixed part of a record. */
  lemma {:induction false} HeaderNumbers(bytes: seq<Byte>, seqno: nat, count: nat)
    requires |bytes| >= 60 && bytes[8..28] == Prologue(seqno, count) && seqno < Power(8) && count < Power(4)
    ensures Number(bytes[8..16]) == seqno && Number(bytes[16..20]) == count && Number(bytes[20..28]) == count * 4104
  {
    PrologueFields(seqno, count);
    Slice(bytes, 8, 28, 0, 8);
    Slice(bytes, 8, 28, 8, 12);
    Slice(bytes, 8, 28, 12, 20);
  }

  lemma {:induction false} Slice(bytes: seq<Byte>, from: nat, to: nat, i: nat, j: nat)
    requires from <= to <= |bytes| && i <= j <= to - from
    ensures bytes[from..to][i..j] == bytes[from + i..from + j]
  {
    var xs, ys := bytes[from..to][i..j], bytes[from + i..from + j];
    assert |xs| == |ys|;
    forall k | 0 <= k < |xs| ensures xs[k] == ys[k] {
      assert xs[k] == bytes[from..to][i + k] == bytes[from + i + k];
    }
  }

  /** Reading inverts encoding, whatever follows. */
  lemma {:induction false} RecordRoundTrip(
    gen: Gen, tail: seq<Byte>, last: nat, maxBlocks: nat, hash: seq<Byte> -> Digest)
    requires GenOk(gen, maxBlocks) && last < gen.seqno
    ensures ReadRecord(Encode(gen, hash) + tail, last, maxBlocks, hash) == Record(gen, tail)
  {
    var bytes, payload := Encode(gen, hash) + tail, Payload(gen.blocks);
    EncodedFields(gen, tail, hash);
    HeaderNumbers(bytes, gen.seqno, |gen.blocks|);
    BlocksRoundTrip(gen.blocks, tail, maxBlocks, {});
    assert bytes[60..|bytes| - |tail|] == bytes[60..][..|payload|] == payload;
  }

  /** A record that was cut anywhere is torn, never taken for another record or for damage. */
  lemma {:induction false} RecordTears(gen: Gen, cut: nat, last: nat, maxBlocks: nat, hash: seq<Byte> -> Digest)
    requires GenOk(gen, maxBlocks) && last < gen.seqno && cut < |Encode(gen, hash)|
    ensures ReadRecord(Encode(gen, hash)[..cut], last, maxBlocks, hash) == Torn
  {
    var whole := Encode(gen, hash);
    if cut >= 60 {
      var bytes := whole[..cut];
      EncodedFields(gen, [], hash);
      assert whole + [] == whole;
      assert bytes[..8] == whole[..8] && bytes[8..28] == whole[8..28];
      HeaderNumbers(bytes, gen.seqno, |gen.blocks|);
      assert Payload(gen.blocks) + [] == Payload(gen.blocks);
      assert bytes[60..] == Payload(gen.blocks)[..cut - 60];
      BlocksTear(gen.blocks, cut - 60, maxBlocks, {});
    }
  }

  // ----- Whole journals -----

  datatype RecordsRead = Entries(entries: seq<Gen>, valid: nat) | Damaged

  /** The outer loop of `readJournal`, from a byte offset on. */
  function ReadAll(bytes: seq<Byte>, offset: nat, last: nat, maxBlocks: nat, hash: seq<Byte> -> Digest): RecordsRead
    decreases |bytes|
  {
    match ReadRecord(bytes, last, maxBlocks, hash)
    case Torn => Entries([], offset)
    case Bad => Damaged
    case Record(gen, rest) =>
      match ReadAll(rest, offset + |bytes| - |rest|, gen.seqno, maxBlocks, hash)
      case Damaged => Damaged
      case Entries(entries, valid) => Entries([gen] + entries, valid)
  }

  function EncodeAll(gens: seq<Gen>, hash: seq<Byte> -> Digest): seq<Byte> {
    if gens == [] then [] else Encode(gens[0], hash) + EncodeAll(gens[1..], hash)
  }

  /** Valid generations in the order of their sequence numbers. */
  ghost predicate GensOk(gens: seq<Gen>, last: nat, maxBlocks: nat) {
    gens == [] || (GenOk(gens[0], maxBlocks) && last < gens[0].seqno && GensOk(gens[1..], gens[0].seqno, maxBlocks))
  }

  /** How many records lie wholly before a cut. */
  function Whole(gens: seq<Gen>, cut: nat, hash: seq<Byte> -> Digest): (k: nat)
    ensures k <= |gens|
  {
    if gens == [] || cut < |Encode(gens[0], hash)| then 0
    else 1 + Whole(gens[1..], cut - |Encode(gens[0], hash)|, hash)
  }

  lemma {:induction false} WholeIsMaximal(gens: seq<Gen>, cut: nat, hash: seq<Byte> -> Digest)
    ensures var k := Whole(gens, cut, hash);
            && |EncodeAll(gens[..k], hash)| <= cut
            && (k < |gens| ==> cut < |EncodeAll(gens[..k + 1], hash)|)
  {
    if gens != [] {
      var size, k := |Encode(gens[0], hash)|, Whole(gens, cut, hash);
      if cut < size {
        assert gens[..0] == [] && gens[..1][0] == gens[0] && gens[..1][1..] == [];
      } else {
        WholeIsMaximal(gens[1..], cut - size, hash);
        assert gens[..k][1..] == gens[1..][..k - 1];
        if k < |gens| { assert gens[..k + 1][1..] == gens[1..][..k]; }
      }
    }
  }

  /** A record is not empty, so the reader gets on. */
  lemma {:induction false} EncodeSize(gen: Gen, hash: seq<Byte> -> Digest)
    ensures |Encode(gen, hash)| >= 60
  {
  }

  /** The records wholly before a cut, and where they end. */
  function Surviving(gens: seq<Gen>, cut: nat, offset: nat, hash: seq<Byte> -> Digest): RecordsRead {
    var k := Whole(gens, cut, hash);
    Entries(gens[..k], offset + |EncodeAll(gens[..k], hash)|)
  }

  /**
   Torn tails: for any generations and any cut, reading the bytes before the cut
   yields exactly the records that lie wholly before it, and their end.
   */
  lemma {:induction false} TornTail(
    gens: seq<Gen>, bytes: seq<Byte>, cut: nat, offset: nat, last: nat, maxBlocks: nat, hash: seq<Byte> -> Digest)
    requires GensOk(gens, last, maxBlocks) && cut <= |EncodeAll(gens, hash)| && bytes == EncodeAll(gens, hash)[..cut]
    ensures ReadAll(bytes, offset, last, maxBlocks, hash) == Surviving(gens, cut, offset, hash)
    decreases |gens|
  {
    if gens == [] {
      assert gens[..0] == [];
    } else if cut < |Encode(gens[0], hash)| {
      TearFirst(gens, bytes, cut, offset, last, maxBlocks, hash);
    } else {
      var size := |Encode(gens[0], hash)|;
      var rest := EncodeAll(gens[1..], hash)[..cut - size];
      var next := offset + size;
      TornTail(gens[1..], rest, cut - size, next, gens[0].seqno, maxBlocks, hash);
      TearRest(gens, cut, hash);
      TearLater(gens, bytes, rest, cut, offset, next, last, maxBlocks, hash, size);
    }
  }

  lemma {:induction false} TearFirst(
    gens: seq<Gen>, bytes: seq<Byte>, cut: nat, offset: nat, last: nat, maxBlocks: nat, hash: seq<Byte> -> Digest)
    requires gens != [] && GenOk(gens[0], maxBlocks) && last < gens[0].seqno && cut < |Encode(gens[0], hash)|
    requires bytes == EncodeAll(gens, hash)[..cut]
    ensures ReadAll(bytes, offset, last, maxBlocks, hash) == Surviving(gens, cut, offset, hash)
  {
    assert bytes == Encode(gens[0], hash)[..cut];
    RecordTears(gens[0], cut, last, maxBlocks, hash);
    assert gens[..0] == [];
  }

  lemma {:induction false} TearLater(
    gens: seq<Gen>, bytes: seq<Byte>, rest: seq<Byte>, cut: nat, offset: nat, next: nat, last: nat, maxBlocks: nat,
    hash: seq<Byte> -> Digest, size: nat)
    requires gens != [] && GenOk(gens[0], maxBlocks) && last < gens[0].seqno && size == |Encode(gens[0], hash)| <= cut
    requires bytes == Encode(gens[0], hash) + rest && next == offset + size
    requires ReadAll(rest, next, gens[0].seqno, maxBlocks, hash) == Surviving(gens[1..], cut - size, next, hash)
    ensures ReadAll(bytes, offset, last, maxBlocks, hash) == Surviving(gens, cut, offset, hash)
  {
    SurvivingLater(gens, cut, offset, next, hash, size);
    ReadFirst(gens[0], bytes, rest, offset, next, last, maxBlocks, hash);
  }

  lemma {:induction false} SurvivingLater(
    gens: seq<Gen>, cut: nat, offset: nat, next: nat, hash: seq<Byte> -> Digest, size: nat)
    requires gens != [] && size == |Encode(gens[0], hash)| <= cut && next == offset + size
    ensures Surviving(gens[1..], cut - size, next, hash).Entries?
    ensures var after := Surviving(gens[1..], cut - size, next, hash);
            Surviving(gens, cut, offset, hash) == Entries([gens[0]] + after.entries, after.valid)
  {
    EncodeFirst(gens, 1 + Whole(gens[1..], cut - size, hash), hash);
  }

  lemma {:induction false} ReadFirst(
    gen: Gen, bytes: seq<Byte>, rest: seq<Byte>, offset: nat, next: nat, last: nat, maxBlocks: nat,
    hash: seq<Byte> -> Digest)
    requires GenOk(gen, maxBlocks) && last < gen.seqno && next == offset + |Encode(gen, hash)|
    requires bytes == Encode(gen, hash) + rest
    requires ReadAll(rest, next, gen.seqno, maxBlocks, hash).Entries?
    ensures var after := ReadAll(rest, next, gen.seqno, maxBlocks, hash);
            ReadAll(bytes, offset, last, maxBlocks, hash) == Entries([gen] + after.entries, after.valid)
  {
    EncodeSize(gen, hash);
    RecordRoundTrip(gen, rest, last, maxBlocks, hash);
  }

  lemma {:induction false} EncodeFirst(gens: seq<Gen>, k: nat, hash: seq<Byte> -> Digest)
    requires 0 < k <= |gens|
    ensures gens[..k] == [gens[0]] + gens[1..][..k - 1]
    ensures |EncodeAll(gens[..k], hash)| == |Encode(gens[0], hash)| + |EncodeAll(gens[1..][..k - 1], hash)|
  {
    assert gens[..k][1..] == gens[1..][..k - 1];
  }

  lemma {:induction false} TearRest(gens: seq<Gen>, cut: nat, hash: seq<Byte> -> Digest)
    requires gens != [] && |Encode(gens[0], hash)| <= cut <= |EncodeAll(gens, hash)|
    ensures EncodeAll(gens, hash)[..cut] ==
            Encode(gens[0], hash) + EncodeAll(gens[1..], hash)[..cut - |Encode(gens[0], hash)|]
  {
  }

  /** With no cut, reading inverts encoding. */
  lemma {:induction false} JournalRoundTrip(gens: seq<Gen>, offset: nat, maxBlocks: nat, hash: seq<Byte> -> Digest)
    requires GensOk(gens, 0, maxBlocks)
    ensures ReadAll(EncodeAll(gens, hash), offset, 0, maxBlocks, hash) ==
            Entries(gens, offset + |EncodeAll(gens, hash)|)
  {
    var all := EncodeAll(gens, hash);
    assert all[..|all|] == all && gens[..|gens|] == gens;
    TornTail(gens, all, |all|, offset, 0, maxBlocks, hash);
    AllWhole(gens, hash);
  }

  lemma {:induction false} AllWhole(gens: seq<Gen>, hash: seq<Byte> -> Digest)
    ensures Whole(gens, |EncodeAll(gens, hash)|, hash) == |gens|
  {
    if gens != [] { AllWhole(gens[1..], hash); }
  }

  function Before(entries: seq<Gen>, rest: RecordsRead): RecordsRead {
    if rest.Damaged? then Damaged else Entries(entries + rest.entries, rest.valid)
  }

  /** The outer loop of `readJournal` with its running offset. */
  method ReadRecords(file: seq<Byte>, start: nat, maxBlocks: nat, hash: seq<Byte> -> Digest) returns (r: RecordsRead)
    requires start <= |file|
    ensures r == ReadAll(file[start..], start, 0, maxBlocks, hash)
  {
    var rest := file[start..];
    var offset: nat, last: nat := start, 0;
    var entries: seq<Gen> := [];
    ghost var whole := ReadAll(rest, start, 0, maxBlocks, hash);
    assert whole.Entries? ==> [] + whole.entries == whole.entries;
    while true
      invariant whole == Before(entries, ReadAll(rest, offset, last, maxBlocks, hash))
      decreases |rest|
    {
      var read := ReadRecord(rest, last, maxBlocks, hash);
      match read {
        case Torn =>
          assert entries + [] == entries;
          return Entries(entries, offset);
        case Bad => return Damaged;
        case Record(gen, more) =>
          var next: nat := offset + (|rest| - |more|);
          NextRecord(rest, offset, next, last, maxBlocks, hash);
          BeforeOne(entries, gen, ReadAll(more, next, gen.seqno, maxBlocks, hash));
          entries, last, offset, rest := entries + [gen], gen.seqno, next, more;
      }
    }
  }

  lemma {:induction false} NextRecord(
    bytes: seq<Byte>, offset: nat, next: nat, last: nat, maxBlocks: nat, hash: seq<Byte> -> Digest)
    requires var read := ReadRecord(bytes, last, maxBlocks, hash);
             read.Record? && next == offset + (|bytes| - |read.rest|)
    ensures var read := ReadRecord(bytes, last, maxBlocks, hash);
            ReadAll(bytes, offset, last, maxBlocks, hash) ==
                Before([read.gen], ReadAll(read.rest, next, read.gen.seqno, maxBlocks, hash))
  {
  }

  lemma {:induction false} BeforeOne(entries: seq<Gen>, gen: Gen, rest: RecordsRead)
    ensures Before(entries + [gen], rest) == Before(entries, Before([gen], rest))
  {
    if rest.Entries? { assert entries + [gen] + rest.entries == entries + ([gen] + rest.entries); }
  }

  // ----- The header and repair -----

  /** `writeJournalHeader`. */
  function EncodeHeader(meta: seq<Byte>, hash: seq<Byte> -> Digest): seq<Byte> {
    HEADER_MAGIC + BigEndian(|meta|, 4) + meta + hash(meta)
  }

  datatype Opened = Opened(meta: seq<Byte>, entries: seq<Gen>, valid: nat) | Unusable

  /**
   `readJournal`. `blocksOf` reads the metadata: the number of blocks of the
   volume it describes, or nothing when it is not valid.
   */
  function ReadJournal(file: seq<Byte>, hash: seq<Byte> -> Digest, blocksOf: seq<Byte> -> Option<nat>): Opened {
    if |file| < 12 || file[..8] != HEADER_MAGIC then Unusable
    else
      var size := Number(file[8..12]);
      if size == 0 || size > MAX_METADATA || |file| < size + 44 then Unusable
      else
        var meta := file[12..size + 12];
        if file[size + 12..size + 44] != hash(meta) || blocksOf(meta).None? then Unusable
        else
          match ReadAll(file[size + 44..], size + 44, 0, blocksOf(meta).value, hash)
          case Damaged => Unusable
          case Entries(entries, valid) => Opened(meta, entries, valid)
  }

  lemma {:induction false} HeaderFields(meta: seq<Byte>, more: seq<Byte>, hash: seq<Byte> -> Digest)
    requires |meta| <= MAX_METADATA
    ensures var file := EncodeHeader(meta, hash) + more;
            && |file| == |meta| + 44 + |more| && file[..8] == HEADER_MAGIC && Number(file[8..12]) == |meta|
            && file[12..|meta| + 12] == meta && file[|meta| + 12..|meta| + 44] == hash(meta) &&
                 file[|meta| + 44..] == more
  {
    var file := EncodeHeader(meta, hash) + more;
    Widths();
    assert file[8..12] == BigEndian(|meta|, 4);
    NumberOfBigEndian(|meta|, 4);
  }

  lemma {:induction false} HeaderRead(
    meta: seq<Byte>, more: seq<Byte>, hash: seq<Byte> -> Digest, blocksOf: seq<Byte> -> Option<nat>)
    requires 0 < |meta| <= MAX_METADATA && blocksOf(meta).Some?
    ensures ReadJournal(EncodeHeader(meta, hash) + more, hash, blocksOf) ==
            match ReadAll(more, |meta| + 44, 0, blocksOf(meta).value, hash)
            case Damaged => Unusable
            case Entries(entries, valid) => Opened(meta, entries, valid)
  {
    HeaderFields(meta, more, hash);
  }

  /**
   A journal that was cut anywhere behind its header is usable: it opens with
   exactly the records that lie wholly before the cut and with their end.
   */
  lemma {:induction false} CutJournalOpens(
    meta: seq<Byte>, gens: seq<Gen>, cut: nat, maxBlocks: nat,
    hash: seq<Byte> -> Digest, blocksOf: seq<Byte> -> Option<nat>)
    requires 0 < |meta| <= MAX_METADATA && blocksOf(meta) == Some(maxBlocks)
    requires GensOk(gens, 0, maxBlocks) && cut <= |EncodeAll(gens, hash)|
    ensures var k := Whole(gens, cut, hash);
            ReadJournal(EncodeHeader(meta, hash) + EncodeAll(gens, hash)[..cut], hash, blocksOf) ==
            Opened(meta, gens[..k], |meta| + 44 + |EncodeAll(gens[..k], hash)|)
  {
    var bytes := EncodeAll(gens, hash)[..cut];
    HeaderRead(meta, bytes, hash, blocksOf);
    TornTail(gens, bytes, cut, |meta| + 44, 0, maxBlocks, hash);
  }

  lemma {:induction false} EncodeAllAppend(gens: seq<Gen>, gen: Gen, hash: seq<Byte> -> Digest)
    ensures EncodeAll(gens + [gen], hash) == EncodeAll(gens, hash) + Encode(gen, hash)
  {
    if gens == [] {
      assert [gen][1..] == [] && [] + [gen] == [gen];
      assert Encode(gen, hash) + [] == Encode(gen, hash) == [] + Encode(gen, hash);
    } else {
      assert (gens + [gen])[1..] == gens[1..] + [gen] && (gens + [gen])[0] == gens[0];
      EncodeAllAppend(gens[1..], gen, hash);
      Regroup(Encode(gens[0], hash), EncodeAll(gens[1..], hash), Encode(gen, hash));
    }
  }

  lemma {:induction false} EncodeAllPrefix(gens: seq<Gen>, k: nat, hash: seq<Byte> -> Digest)
    requires k <= |gens|
    ensures |EncodeAll(gens[..k], hash)| <= |EncodeAll(gens, hash)|
    ensures EncodeAll(gens, hash)[..|EncodeAll(gens[..k], hash)|] == EncodeAll(gens[..k], hash)
  {
    if k > 0 {
      EncodeAllPrefix(gens[1..], k - 1, hash);
      assert gens[..k][0] == gens[0] && gens[..k][1..] == gens[1..][..k - 1];
    }
  }

  /** `OpenJournal` truncates a torn file to the valid length: what is left is the journal of the surviving records. */
  lemma {:induction false} RepairKeepsWholeRecords(meta: seq<Byte>, gens: seq<Gen>, cut: nat, hash: seq<Byte> -> Digest)
    requires |meta| <= MAX_METADATA && cut <= |EncodeAll(gens, hash)|
    ensures var kept := EncodeAll(gens[..Whole(gens, cut, hash)], hash);
            && |kept| <= cut
            && (EncodeHeader(meta, hash) + EncodeAll(gens, hash)[..cut])[..|meta| + 44 + |kept|] ==
                  EncodeHeader(meta, hash) + kept
  {
    var k := Whole(gens, cut, hash);
    WholeIsMaximal(gens, cut, hash);
    EncodeAllPrefix(gens, k, hash);
    HeaderFields(meta, [], hash);
    assert EncodeHeader(meta, hash) + [] == EncodeHeader(meta, hash);
    RepairedFile(EncodeHeader(meta, hash), EncodeAll(gens, hash), cut, EncodeAll(gens[..k], hash));
  }

  /** A record appended to an untorn journal reads back behind the records it held. */
  lemma {:induction false} AppendedRecordReadsBack(
    meta: seq<Byte>, gens: seq<Gen>, gen: Gen, maxBlocks: nat,
    hash: seq<Byte> -> Digest, blocksOf: seq<Byte> -> Option<nat>)
    requires 0 < |meta| <= MAX_METADATA && blocksOf(meta) == Some(maxBlocks) && GensOk(gens + [gen], 0, maxBlocks)
    ensures ReadJournal((EncodeHeader(meta, hash) + EncodeAll(gens, hash)) + Encode(gen, hash), hash, blocksOf) ==
            Opened(meta, gens + [gen], |meta| + 44 + |EncodeAll(gens + [gen], hash)|)
  {
    EncodeAllAppend(gens, gen, hash);
    Regroup(EncodeHeader(meta, hash), EncodeAll(gens, hash), Encode(gen, hash));
    HeaderRead(meta, EncodeAll(gens + [gen], hash), hash, blocksOf);
    JournalRoundTrip(gens + [gen], |meta| + 44, maxBlocks, hash);
  }

  lemma {:induction false} RepairedFile(header: seq<Byte>, all: seq<Byte>, cut: nat, kept: seq<Byte>)
    requires |kept| <= cut <= |all| && all[..|kept|] == kept
    ensures (header + all[..cut])[..|header| + |kept|] == header + kept
  {
    assert all[..cut][..|kept|] == all[..|kept|];
  }
}
