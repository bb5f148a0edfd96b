/** The GPT writer and the independent GPT reader: what `layout` writes is what
    the reader finds, where it says, intact or visibly damaged. Layout of the
    structures: UEFI 2.10 sections 5.2.3, 5.3.2 and 5.3.3. */
module Gpt {
  import opened Common
  import opened Buffers
  import Crc32

  // ------------------------------------------------ a CRC as stored

  function CrcBytes(c: bv32): (s: Bytes)
    ensures |s| == 4
  {
    [(c & 0xFF) as bv8, ((c >> 8) & 0xFF) as bv8, ((c >> 16) & 0xFF) as bv8, ((c >> 24) & 0xFF) as bv8]
  }

  lemma {:induction false} StoredCrc(c: bv32)
    ensures Crc32.Word(CrcBytes(c)) == c
  {
    StoredCrcWord(c);
    hide Crc32.Xor, Crc32.OfByte, Crc32.Raised;
    var s := CrcBytes(c);
    assert s[1..] == [s[1], s[2], s[3]] && s[1..][1..] == [s[2], s[3]] && s[1..][1..][1..] == [s[3]];
    assert s[1..][1..][1..][1..] == [];
    assert Crc32.Word([s[3]]) == Crc32.Xor(Crc32.OfByte(s[3]), Crc32.Raised(0));
    assert Crc32.Word([s[2], s[3]]) == Crc32.Xor(Crc32.OfByte(s[2]), Crc32.Raised(Crc32.Word([s[3]])));
  }

  lemma {:induction false} StoredCrcWord(c: bv32)
    ensures var s := CrcBytes(c);
      Crc32.Xor(Crc32.OfByte(s[0]), Crc32.Raised(Crc32.Xor(Crc32.OfByte(s[1]), Crc32.Raised(
        Crc32.Xor(Crc32.OfByte(s[2]), Crc32.Raised(Crc32.Xor(Crc32.OfByte(s[3]), Crc32.Raised(0)))))))) == c
  {
  }

  // ------------------------------------------------ the structures

  const ENTRIES: nat := 128
  const ENTRY_SIZE: nat := 128
  const ALIGN_BYTES: nat := 0x10_0000

  function Signature(): Bytes { [0x45, 0x46, 0x49, 0x20, 0x50, 0x41, 0x52, 0x54] }

  // The constants as they are stored; `Constants` says which numbers they are.

  function Revision(): Bytes { [0x00, 0x00, 0x01, 0x00] }

  function HeaderSize(): Bytes { [92, 0, 0, 0] }

  function Count(): Bytes { [128, 0, 0, 0] }

  function One(): Bytes { [1, 0, 0, 0] }

  lemma {:induction false} Constants()
    ensures FromLe(Revision()) == 0x1_0000 && FromLe(HeaderSize()) == 92 && FromLe(Count()) == ENTRIES == ENTRY_SIZE && FromLe(One()) == 1
  {
    Four(0, 0, 1, 0);
    Four(92, 0, 0, 0);
    Four(128, 0, 0, 0);
    Four(1, 0, 0, 0);
  }

  lemma {:induction false} Four(a: bv8, b: bv8, c: bv8, d: bv8)
    ensures FromLe([a, b, c, d]) == Val(a) + 256 * Val(b) + 0x1_0000 * Val(c) + 0x100_0000 * Val(d)
  {
    hide Val;
    var s := [a, b, c, d];
    assert s[1..] == [b, c, d] && [b, c, d][1..] == [c, d] && [c, d][1..] == [d] && [d][1..] == [];
    assert FromLe([d]) == Val(d);
    assert FromLe([c, d]) == Val(c) + 256 * FromLe([d]);
    assert FromLe([b, c, d]) == Val(b) + 256 * FromLe([c, d]);
  }

  /** The header up to its own CRC, and from it on, in the order of the fields. */
  function HeaderFront(): (s: Bytes)
    ensures |s| == 16
  {
    Signature() + Revision() + HeaderSize()
  }

  datatype HeaderFields = HeaderFields(
    myLba: nat, altLba: nat, firstUsable: nat, lastUsable: nat, diskGuid: Bytes, entriesLba: nat, entriesCrc: bv32)

  function Lbas(f: HeaderFields): (s: Bytes)
    ensures |s| == 32
  {
    Le(f.myLba, 8) + Le(f.altLba, 8) + Le(f.firstUsable, 8) + Le(f.lastUsable, 8)
  }

  function TableFields(f: HeaderFields): (s: Bytes)
    ensures |s| == 20
  {
    Le(f.entriesLba, 8) + Count() + Count() + CrcBytes(f.entriesCrc)
  }

  function HeaderBack(f: HeaderFields): (s: Bytes)
    requires |f.diskGuid| == 16
    ensures |s| == 72
  {
    Zeros(4) + Lbas(f) + f.diskGuid + TableFields(f)
  }

  /** A header block: its CRC is taken with its own field zero. */
  function HeaderBlock(f: HeaderFields, blockSize: nat): (s: Bytes)
    requires |f.diskGuid| == 16 && blockSize >= 92
    ensures |s| == blockSize
  {
    hide Le, Byte;
    var crc := Crc32.Crc(Unsealed(f));
    HeaderFront() + CrcBytes(crc) + HeaderBack(f) + Zeros(blockSize - 92)
  }

  /** A partition name as the entry keeps it: at most 36 units, zero-padded. */
  function NameBytes(units: seq<nat>): (s: Bytes)
    ensures |s| == 2 * |units|
  {
    if units == [] then [] else NameBytes(units[..|units| - 1]) + Le(units[|units| - 1], 2)
  }

  function Kept(units: seq<nat>): (k: seq<nat>)
    ensures |k| <= 36
  {
    if |units| <= 36 then units else units[..36]
  }

  function EntryBytes(typeGuid: Bytes, partGuid: Bytes, first: nat, last: nat, units: seq<nat>): (s: Bytes)
    requires |typeGuid| == 16 && |partGuid| == 16
    ensures |s| == ENTRY_SIZE
  {
    typeGuid + partGuid + Le(first, 8) + Le(last, 8) + Zeros(8) + NameBytes(Kept(units)) + Zeros(72 - 2 * |Kept(units)|)
  }

  function EntryTable(typeGuid: Bytes, partGuid: Bytes, first: nat, last: nat, units: seq<nat>): (s: Bytes)
    requires |typeGuid| == 16 && |partGuid| == 16
    ensures |s| == ENTRIES * ENTRY_SIZE
  {
    EntryBytes(typeGuid, partGuid, first, last, units) + Zeros(127 * ENTRY_SIZE)
  }

  /** One 0xEE partition over the whole disk, capped at 2^32 - 1 blocks. */
  function ProtectiveMbr(total: nat, blockSize: nat): (s: Bytes)
    requires total >= 1 && blockSize >= 512
    ensures |s| == blockSize
  {
    Zeros(446) + [0x00, 0x00, 0x02, 0x00, 0xEE, 0xFF, 0xFF, 0xFF] + One() + Le(Min(total - 1, 0xFFFF_FFFF), 4)
      + Zeros(48) + [0x55, 0xAA] + Zeros(blockSize - 512)
  }

  // ------------------------------------------------ where things go

  function DivCeil(a: nat, b: nat): nat
    requires b > 0
  {
    (a + b - 1) / b
  }

  function EntryLbas(blockSize: nat): nat
    requires blockSize > 0
  {
    DivCeil(ENTRIES * ENTRY_SIZE, blockSize)
  }

  datatype Geometry = Geometry(total: nat, entryLbas: nat, firstUsable: nat, lastUsable: nat, first: nat, last: nat)

  datatype Refusal = BlockSize | TooSmallForTable | TooSmallForPartition

  datatype Result<T> = Ok(value: T) | Err(why: Refusal)

  function GeometryOf(capacity: nat, blockSize: nat): Result<Geometry> {
    if blockSize != 512 && blockSize != 4096 then Err(BlockSize)
    else
      var total, entryLbas := capacity / blockSize, EntryLbas(blockSize);
      var firstUsable := 2 + entryLbas;
      if total < 2 + entryLbas then Err(TooSmallForTable)
      else
        var lastUsable := total - (2 + entryLbas);
        var align := ALIGN_BYTES / blockSize;
        var first := DivCeil(firstUsable, align) * align;
        var end := (lastUsable + 1) / align * align;
        if end <= first + align then Err(TooSmallForPartition)
        else Ok(Geometry(total, entryLbas, firstUsable, lastUsable, first, end - 1))
  }

  /** Everything lies on the disk and nothing overlaps: MBR, header and table,
      then the partition, then the backup table and header up to the last
      block; the partition starts and ends on 1 MiB and no other does with
      more, inside what the header calls usable. */
  lemma {:induction false} GeometrySound(capacity: nat, blockSize: nat)
    requires GeometryOf(capacity, blockSize).Ok?
    ensures var g := GeometryOf(capacity, blockSize).value;
      && 2 + g.entryLbas <= g.firstUsable <= g.first <= g.last <= g.lastUsable < g.total - 1 - g.entryLbas
      && g.entryLbas * blockSize == ENTRIES * ENTRY_SIZE
      && g.total * blockSize <= capacity < g.total * blockSize + blockSize
      && g.first * blockSize % ALIGN_BYTES == 0 && (g.last + 1) * blockSize % ALIGN_BYTES == 0
  {
    var align := ALIGN_BYTES / blockSize;
    var g := GeometryOf(capacity, blockSize).value;
    if blockSize == 512 {
      Aligned512(capacity);
    } else {
      Aligned4096(capacity);
    }
  }

  lemma {:induction false} Aligned512(capacity: nat)
    requires GeometryOf(capacity, 512).Ok?
    ensures var g := GeometryOf(capacity, 512).value;
      && g.entryLbas == 32 && g.firstUsable == 34 && g.first == 2048 && (g.last + 1) % 2048 == 0
      && g.lastUsable == g.total - 34 && g.first <= g.last <= g.lastUsable && g.total == capacity / 512
  {
  }

  lemma {:induction false} Aligned4096(capacity: nat)
    requires GeometryOf(capacity, 4096).Ok?
    ensures var g := GeometryOf(capacity, 4096).value;
      && g.entryLbas == 4 && g.firstUsable == 6 && g.first == 256 && (g.last + 1) % 256 == 0
      && g.lastUsable == g.total - 6 && g.first <= g.last <= g.lastUsable && g.total == capacity / 4096
  {
  }

  /** No aligned partition inside the usable range reaches outside this one. */
  lemma {:induction false} PartitionLargest(capacity: nat, blockSize: nat, a: nat, b: nat)
    requires GeometryOf(capacity, blockSize).Ok?
    requires var g := GeometryOf(capacity, blockSize).value;
      g.firstUsable <= a < b <= g.lastUsable + 1
    requires a % (ALIGN_BYTES / blockSize) == 0 && b % (ALIGN_BYTES / blockSize) == 0
    ensures var g := GeometryOf(capacity, blockSize).value;
      g.first <= a && b <= g.last + 1
  {
    if blockSize == 512 { Aligned512(capacity); } else { Aligned4096(capacity); }
  }

  /** Exactly when a drive is refused: a block size the kernel cannot use, no
      room for the two tables, or fewer than two whole aligned MiB between
      them. */
  lemma {:induction false} RefusedExactly(capacity: nat, blockSize: nat)
    ensures GeometryOf(capacity, blockSize).Ok? <==>
      (blockSize == 512 && (capacity / 512 - 33) / 2048 >= 3) || (blockSize == 4096 && (capacity / 4096 - 5) / 256 >= 3)
  {
  }

  /** A partition on whole aligned MiB within what the header calls usable. */
  ghost predicate AlignedFits(capacity: nat, blockSize: nat, a: nat, b: nat)
    requires blockSize == 512 || blockSize == 4096
  {
    && a % (ALIGN_BYTES / blockSize) == 0 && b % (ALIGN_BYTES / blockSize) == 0
    && 2 + EntryLbas(blockSize) <= a < b <= capacity / blockSize - (2 + EntryLbas(blockSize)) + 1
  }

  /** Where an aligned MiB would fit a drive is refused exactly when there is
      just one, and that one is the second MiB of the drive. */
  lemma {:induction false} RefusedThoughOneFits(capacity: nat, blockSize: nat)
    requires blockSize == 512 || blockSize == 4096
    ensures var align := ALIGN_BYTES / blockSize;
      var one := (capacity / blockSize - (1 + EntryLbas(blockSize))) / align == 2;
      && (GeometryOf(capacity, blockSize).Err? && (exists a, b :: AlignedFits(capacity, blockSize, a, b)) <==> one)
      && (one ==> forall a, b :: AlignedFits(capacity, blockSize, a, b) <==> a == align && b == 2 * align)
  {
    RefusedExactly(capacity, blockSize);
    if blockSize == 512 { OnlyMiB512(capacity); } else { OnlyMiB4096(capacity); }
  }

  lemma {:induction false} OnlyMiB512(capacity: nat)
    ensures (capacity / 512 - 33) / 2048 == 2 ==> forall a, b :: AlignedFits(capacity, 512, a, b) <==> a == 2048 && b == 4096
    ensures (capacity / 512 - 33) / 2048 < 2 ==> forall a, b :: !AlignedFits(capacity, 512, a, b)
    ensures (capacity / 512 - 33) / 2048 == 2 ==> AlignedFits(capacity, 512, 2048, 4096)
  {
    hide AlignedFits;
    forall a: nat, b: nat ensures AlignedFits(capacity, 512, a, b) <==> a % 2048 == 0 && b % 2048 == 0 && 34 <= a < b <= capacity / 512 - 33 {
      Fits512(capacity, a, b);
    }
  }

  lemma {:induction false} Fits512(capacity: nat, a: nat, b: nat)
    ensures AlignedFits(capacity, 512, a, b) <==> a % 2048 == 0 && b % 2048 == 0 && 34 <= a < b <= capacity / 512 - 33
  {
  }

  lemma {:induction false} OnlyMiB4096(capacity: nat)
    ensures (capacity / 4096 - 5) / 256 == 2 ==> forall a, b :: AlignedFits(capacity, 4096, a, b) <==> a == 256 && b == 512
    ensures (capacity / 4096 - 5) / 256 < 2 ==> forall a, b :: !AlignedFits(capacity, 4096, a, b)
    ensures (capacity / 4096 - 5) / 256 == 2 ==> AlignedFits(capacity, 4096, 256, 512)
  {
    hide AlignedFits;
    forall a: nat, b: nat ensures AlignedFits(capacity, 4096, a, b) <==> a % 256 == 0 && b % 256 == 0 && 6 <= a < b <= capacity / 4096 - 5 {
      Fits4096(capacity, a, b);
    }
  }

  lemma {:induction false} Fits4096(capacity: nat, a: nat, b: nat)
    ensures AlignedFits(capacity, 4096, a, b) <==> a % 256 == 0 && b % 256 == 0 && 6 <= a < b <= capacity / 4096 - 5
  {
  }

  /** The least such drive. */
  lemma {:induction false} LeastRefused()
    ensures GeometryOf(4129 * 512, 512) == Err(TooSmallForPartition) && AlignedFits(4129 * 512, 512, 2048, 4096)
    ensures forall c, a, b :: 0 <= c < 4129 * 512 ==> !AlignedFits(c, 512, a, b)
  {
    forall c: nat, a, b | c < 4129 * 512 ensures !AlignedFits(c, 512, a, b) { OnlyMiB512(c); }
  }

  // ------------------------------------------------ the writer

  method PutFront(buf: array<bv8>)
    requires buf.Length >= 92 && buf[..] == Zeros(buf.Length)
    modifies buf
    ensures buf[..] == Filled(HeaderFront() + Zeros(4) + Zeros(4), buf.Length)
  {
    hide Le;
    PutNext(buf, [], 0, Signature());
    assert [] + Signature() == Signature();
    PutNext(buf, Signature(), 8, Revision());
    PutNext(buf, Signature() + Revision(), 12, HeaderSize());
    ReservedZeros(HeaderFront());
    SkipZeros(HeaderFront(), 8, buf.Length);
  }

  method PutLbas(buf: array<bv8>, ghost front: Bytes, f: HeaderFields)
    requires |front| == 24 && buf.Length >= 92 && buf[..] == Filled(front, buf.Length)
    modifies buf
    ensures buf[..] == Filled(front + Lbas(f), buf.Length)
  {
    hide Le, Filled;
    ghost var b := front + Le(f.myLba, 8);
    PutNext(buf, front, 24, Le(f.myLba, 8));
    PutNext(buf, b, 32, Le(f.altLba, 8));
    b := b + Le(f.altLba, 8);
    PutNext(buf, b, 40, Le(f.firstUsable, 8));
    b := b + Le(f.firstUsable, 8);
    PutNext(buf, b, 48, Le(f.lastUsable, 8));
    assert b + Le(f.lastUsable, 8) == front + Lbas(f);
  }

  method PutTableFields(buf: array<bv8>, ghost front: Bytes, f: HeaderFields)
    requires |front| == 72 && buf.Length >= 92 && buf[..] == Filled(front, buf.Length)
    modifies buf
    ensures buf[..] == Filled(front + TableFields(f), buf.Length)
  {
    hide Le, CrcBytes, Filled;
    ghost var b := front + Le(f.entriesLba, 8);
    PutNext(buf, front, 72, Le(f.entriesLba, 8));
    PutNext(buf, b, 80, Count());
    b := b + Count();
    PutNext(buf, b, 84, Count());
    b := b + Count();
    PutNext(buf, b, 88, CrcBytes(f.entriesCrc));
    assert b + CrcBytes(f.entriesCrc) == front + TableFields(f);
  }

  /** The header less its CRC, which is still zero. */
  function Unsealed(f: HeaderFields): (s: Bytes)
    requires |f.diskGuid| == 16
    ensures |s| == 92
  {
    HeaderFront() + Zeros(4) + HeaderBack(f)
  }

  lemma {:induction false} Sealed(f: HeaderFields, n: nat, c: Bytes, b: Bytes)
    requires |f.diskGuid| == 16 && n >= 92 && |c| == 4 && b == Filled(Unsealed(f), n)
    ensures b[..16] + c + b[20..] == HeaderFront() + c + HeaderBack(f) + Zeros(n - 92)
  {
    hide HeaderFront, HeaderBack;
    assert b[..16] == HeaderFront();
    assert b[20..] == HeaderBack(f) + Zeros(n - 92);
  }

  method Header(f: HeaderFields, blockSize: nat) returns (h: Bytes)
    requires |f.diskGuid| == 16 && blockSize >= 92
    ensures h == HeaderBlock(f, blockSize)
  {
    hide Le, CrcBytes, Crc32.Crc, Filled, Lbas, TableFields, HeaderFront;
    var buf := ZeroBuffer(blockSize);
    PutFront(buf);
    ghost var b := HeaderFront() + Zeros(4) + Zeros(4);
    PutLbas(buf, b, f);
    b := b + Lbas(f);
    PutNext(buf, b, 56, f.diskGuid);
    b := b + f.diskGuid;
    PutTableFields(buf, b, f);
    assert b + TableFields(f) == Unsealed(f);
    FilledPrefix(Unsealed(f), blockSize);
    ghost var unsealed := buf[..];
    assert buf[..92] == unsealed[..92];
    var crc := Crc32.Compute(buf[..92]);
    assert buf[..16] == unsealed[..16] && buf[20..] == unsealed[20..];
    Put(buf, 16, CrcBytes(crc));
    Sealed(f, blockSize, CrcBytes(crc), unsealed);
    h := buf[..];
  }

  lemma {:induction false} ReservedZeros(front: Bytes)
    ensures front + Zeros(8) == front + Zeros(4) + Zeros(4)
  {
  }

  /** The UTF-16 units of the name, at most 36 of them, into the entry. */
  method PutName(buf: array<bv8>, ghost front: Bytes, units: seq<nat>)
    requires |front| == 56 && buf.Length >= 128 && buf[..] == Filled(front, buf.Length)
    modifies buf
    ensures buf[..] == Filled(front + NameBytes(Kept(units)), buf.Length)
  {
    hide Le, Filled;
    var name := Kept(units);
    assert front + NameBytes(name[..0]) == front;
    for i := 0 to |name|
      invariant buf[..] == Filled(front + NameBytes(name[..i]), buf.Length)
    {
      NameStep(name, i);
      PutNext(buf, front + NameBytes(name[..i]), 56 + 2 * i, Le(name[i], 2));
      assert front + NameBytes(name[..i]) + Le(name[i], 2) == front + NameBytes(name[..i + 1]);
    }
    assert name[..|name|] == name;
  }

  lemma {:induction false} NameStep(name: seq<nat>, i: nat)
    requires i < |name|
    ensures NameBytes(name[..i + 1]) == NameBytes(name[..i]) + Le(name[i], 2)
  {
    hide Le;
    assert name[..i + 1][..i] == name[..i];
  }

  method Entries(typeGuid: Bytes, partGuid: Bytes, first: nat, last: nat, units: seq<nat>) returns (t: Bytes)
    requires |typeGuid| == 16 && |partGuid| == 16
    ensures t == EntryTable(typeGuid, partGuid, first, last, units)
  {
    hide Le, Filled, NameBytes, Kept;
    var buf := ZeroBuffer(ENTRIES * ENTRY_SIZE);
    NothingFilled(ENTRIES * ENTRY_SIZE);
    PutNext(buf, [], 0, typeGuid);
    assert [] + typeGuid == typeGuid;
    ghost var b := typeGuid;
    PutNext(buf, b, 16, partGuid);
    b := b + partGuid;
    PutNext(buf, b, 32, Le(first, 8));
    b := b + Le(first, 8);
    PutNext(buf, b, 40, Le(last, 8));
    b := b + Le(last, 8);
    SkipZeros(b, 8, ENTRIES * ENTRY_SIZE);
    b := b + Zeros(8);
    PutName(buf, b, units);
    b := b + NameBytes(Kept(units));
    TableFilled(b, 72 - 2 * |Kept(units)|);
    t := buf[..];
  }

  lemma {:induction false} TableFilled(b: Bytes, gap: nat)
    requires |b| + gap == ENTRY_SIZE
    ensures Filled(b, ENTRIES * ENTRY_SIZE) == b + Zeros(gap) + Zeros(127 * ENTRY_SIZE)
  {
  }

  method Mbr(total: nat, blockSize: nat) returns (mbr: Bytes)
    requires total >= 1 && blockSize >= 512
    ensures mbr == ProtectiveMbr(total, blockSize)
  {
    hide Le, Filled;
    var buf := ZeroBuffer(blockSize);
    NothingFilled(blockSize);
    SkipZeros([], 447, blockSize);
    assert [] + Zeros(447) == Zeros(447);
    ghost var b: Bytes := Zeros(447);
    PutNext(buf, b, 447, [0x00, 0x02, 0x00]);
    b := b + [0x00, 0x02, 0x00];
    PutNext(buf, b, 450, [0xEE]);
    b := b + [0xEE];
    PutNext(buf, b, 451, [0xFF, 0xFF, 0xFF]);
    b := b + [0xFF, 0xFF, 0xFF];
    PutNext(buf, b, 454, One());
    b := b + One();
    PutNext(buf, b, 458, Le(Min(total - 1, 0xFFFF_FFFF), 4));
    b := b + Le(Min(total - 1, 0xFFFF_FFFF), 4);
    SkipZeros(b, 48, blockSize);
    b := b + Zeros(48);
    PutNext(buf, b, 510, [0x55]);
    b := b + [0x55];
    PutNext(buf, b, 511, [0xAA]);
    b := b + [0xAA];
    MbrParts(One(), Le(Min(total - 1, 0xFFFF_FFFF), 4), blockSize);
    mbr := buf[..];
  }

  lemma {:induction false} MbrParts(one: Bytes, size: Bytes, n: nat)
    requires n >= 512 && |one| == |size| == 4
    ensures var b: Bytes :=
        Zeros(447) + [0x00, 0x02, 0x00] + [0xEE] + [0xFF, 0xFF, 0xFF] + one + size + Zeros(48) + [0x55] + [0xAA];
      |b| == 512 && Filled(b, n) == Zeros(446) + [0x00, 0x00, 0x02, 0x00, 0xEE, 0xFF, 0xFF, 0xFF] + one + size
        + Zeros(48) + [0x55, 0xAA] + Zeros(n - 512)
  {
  }

  datatype Laid = Laid(primary: Bytes, backup: Bytes, backupOffset: nat, geometry: Geometry, blockSize: nat)

  function FieldsOf(g: Geometry, diskGuid: Bytes, crc: bv32, backup: bool): HeaderFields
    requires g.total >= 1 + g.entryLbas
  {
    if backup then
      HeaderFields(g.total - 1, 1, g.firstUsable, g.lastUsable, diskGuid, g.total - 1 - g.entryLbas, crc)
    else
      HeaderFields(1, g.total - 1, g.firstUsable, g.lastUsable, diskGuid, 2, crc)
  }

  /** What is to lie on the disk, for a drive that is not refused. */
  ghost function LaidOut(capacity: nat, blockSize: nat, typeGuid: Bytes, units: seq<nat>, diskGuid: Bytes, partGuid: Bytes): Laid
    requires |typeGuid| == |diskGuid| == |partGuid| == 16 && GeometryOf(capacity, blockSize).Ok?
  {
    GeometryFits(capacity, blockSize);
    var g := GeometryOf(capacity, blockSize).value;
    var table := EntryTable(typeGuid, partGuid, g.first, g.last, units);
    var crc := Crc32.Crc(table);
    Laid(
      ProtectiveMbr(g.total, blockSize) + HeaderBlock(FieldsOf(g, diskGuid, crc, false), blockSize) + table,
      table + HeaderBlock(FieldsOf(g, diskGuid, crc, true), blockSize),
      (g.total - 1 - g.entryLbas) * blockSize, g, blockSize)
  }

  method Layout(capacity: nat, blockSize: nat, typeGuid: Bytes, units: seq<nat>, diskGuid: Bytes, partGuid: Bytes)
    returns (r: Result<Laid>)
    requires |typeGuid| == |diskGuid| == |partGuid| == 16
    ensures r.Err? <==> GeometryOf(capacity, blockSize).Err?
    ensures r.Err? ==> r.why == GeometryOf(capacity, blockSize).why
    ensures r.Ok? ==> r.value == LaidOut(capacity, blockSize, typeGuid, units, diskGuid, partGuid)
  {
    hide HeaderBlock, EntryTable, ProtectiveMbr, Crc32.Crc;
    if blockSize != 512 && blockSize != 4096 { return Err(BlockSize); }
    var total, entryLbas := capacity / blockSize, DivCeil(ENTRIES * ENTRY_SIZE, blockSize);
    var firstUsable := 2 + entryLbas;
    if total < 2 + entryLbas { return Err(TooSmallForTable); }
    var lastUsable := total - (2 + entryLbas);
    var align := ALIGN_BYTES / blockSize;
    var first := DivCeil(firstUsable, align) * align;
    var last := (lastUsable + 1) / align * align;
    if last <= first + align { return Err(TooSmallForPartition); }
    last := last - 1;
    GeometryFits(capacity, blockSize);
    ghost var g := GeometryOf(capacity, blockSize).value;

    var entries := Entries(typeGuid, partGuid, first, last, units);
    var crc := Crc32.Compute(entries);
    var padded := entries + Zeros(entryLbas * blockSize - |entries|);
    assert padded == entries;
    var mbr := Mbr(total, blockSize);
    var backupEntriesLba := total - 1 - entryLbas;
    var head := Header(HeaderFields(1, total - 1, firstUsable, lastUsable, diskGuid, 2, crc), blockSize);
    var tail := Header(
      HeaderFields(total - 1, 1, firstUsable, lastUsable, diskGuid, backupEntriesLba, crc), blockSize);
    r := Ok(Laid(mbr + head + padded, padded + tail, backupEntriesLba * blockSize,
                 Geometry(total, entryLbas, firstUsable, lastUsable, first, last), blockSize));
  }

  lemma {:induction false} GeometryFits(capacity: nat, blockSize: nat)
    requires GeometryOf(capacity, blockSize).Ok?
    ensures blockSize >= 512
    ensures var g := GeometryOf(capacity, blockSize).value;
      g.total >= 1 + g.entryLbas && g.entryLbas * blockSize == ENTRIES * ENTRY_SIZE
  {
    GeometrySound(capacity, blockSize);
  }

  // ------------------------------------------------ the reader

  datatype GptHeader = GptHeader(entriesLba: nat, entries: nat, entrySize: nat)

  function ParseGptHeader(buf: Bytes): (h: Option<GptHeader>)
    ensures h.Some? ==> h.value.entriesLba >= 2 && 1 <= h.value.entries <= 1024 && 128 <= h.value.entrySize <= 4096
  {
    if |buf| < 92 || buf[..8] != Signature() then None
    else
      var h := GptHeader(FromLe(buf[72..80]), FromLe(buf[80..84]), FromLe(buf[84..88]));
      if h.entriesLba < 2 || h.entries == 0 || h.entries > 1024 then None
      else if h.entrySize < 128 || h.entrySize > 4096 || h.entrySize % 8 != 0 then None
      else Some(h)
  }

  datatype Partition = Partition(index: nat, firstLba: nat, name: seq<nat>, typeGuid: Bytes)

  function Units(bytes: Bytes): seq<nat> {
    if |bytes| < 2 then [] else [FromLe(bytes[..2])] + Units(bytes[2..])
  }

  function UntilZero(units: seq<nat>): seq<nat> {
    if units == [] || units[0] == 0 then [] else [units[0]] + UntilZero(units[1..])
  }

  function ParseEntry(e: Bytes, i: nat): Option<Partition>
    requires |e| >= 128
  {
    if forall k :: 0 <= k < 16 ==> e[k] == 0 then None
    else
      var first, last := FromLe(e[32..40]), FromLe(e[40..48]);
      if first == 0 || last < first then None
      else Some(Partition(i + 1, first, UntilZero(Units(e[56..128])), e[..16]))
  }

  /** Entries `i` on, of `n` of `size` bytes. */
  function EntriesFrom(buf: Bytes, size: nat, i: nat, n: nat): seq<Partition>
    requires size >= 128 && i <= n && n * size <= |buf|
    decreases n - i
  {
    if i == n then []
    else
      EntryInside(|buf|, size, i, n);
      var p := ParseEntry(buf[i * size..i * size + size], i);
      (if p.Some? then [p.value] else []) + EntriesFrom(buf, size, i + 1, n)
  }

  lemma {:induction false} EntryInside(len: nat, size: nat, i: nat, n: nat)
    requires i < n && n * size <= len
    ensures 0 <= i * size <= i * size + size <= len
  {
    assert i * size + size == (i + 1) * size;
    assert (i + 1) * size <= n * size by { Multiply(i + 1, n, size); }
  }

  function ParseGptEntries(buf: Bytes, h: GptHeader): seq<Partition>
    requires h.entrySize >= 128
  {
    var n := Min(h.entries, |buf| / h.entrySize);
    EntriesFrom(buf, h.entrySize, 0, n)
  }

  // ------------------------------------------------ the reader undoes the writer

  /** The three fields the reader wants, where it looks for them. */
  lemma {:induction false} HeaderSlices(f: HeaderFields, blockSize: nat)
    requires |f.diskGuid| == 16 && blockSize >= 92
    ensures var h := HeaderBlock(f, blockSize);
      && h[..8] == Signature()
      && h[72..80] == Le(f.entriesLba, 8) && h[80..84] == Count() && h[84..88] == Count()
      && h[88..92] == CrcBytes(f.entriesCrc)
  {
    hide Le, CrcBytes, Lbas, Crc32.Crc;
    var h := HeaderBlock(f, blockSize);
    var crc := CrcBytes(Crc32.Crc(Unsealed(f)));
    var a := HeaderFront() + crc + (Zeros(4) + Lbas(f) + f.diskGuid);
    assert h == a + TableFields(f) + Zeros(blockSize - 92);
    Middle(a, TableFields(f), Zeros(blockSize - 92));
    assert h[72..92] == TableFields(f);
    TableSlices(f);
    assert h[72..80] == h[72..92][..8] && h[80..84] == h[72..92][8..12] && h[84..88] == h[72..92][12..16];
    assert h[88..92] == h[72..92][16..20];
    assert h[..8] == HeaderFront()[..8] == Signature();
  }

  lemma {:induction false} TableSlices(f: HeaderFields)
    ensures var t := TableFields(f);
      && t[..8] == Le(f.entriesLba, 8) && t[8..12] == Count() && t[12..16] == Count()
      && t[16..20] == CrcBytes(f.entriesCrc)
  {
    hide Le, CrcBytes;
  }

  lemma {:induction false} HeadSlices(f: HeaderFields, blockSize: nat)
    requires |f.diskGuid| == 16 && blockSize >= 92
    ensures var h := HeaderBlock(f, blockSize);
      && h[8..12] == Revision() && h[12..16] == HeaderSize()
      && h[24..32] == Le(f.myLba, 8) && h[32..40] == Le(f.altLba, 8)
      && h[40..48] == Le(f.firstUsable, 8) && h[48..56] == Le(f.lastUsable, 8) && h[56..72] == f.diskGuid
  {
    hide Le, CrcBytes, TableFields, Lbas, Crc32.Crc;
    var h := HeaderBlock(f, blockSize);
    var front := HeaderFront() + CrcBytes(Crc32.Crc(Unsealed(f))) + Zeros(4);
    var rest := f.diskGuid + TableFields(f) + Zeros(blockSize - 92);
    assert h == front + Lbas(f) + rest;
    Middle(front, Lbas(f), rest);
    LbaSlices(f);
    assert h[24..32] == h[24..56][..8] && h[32..40] == h[24..56][8..16];
    assert h[40..48] == h[24..56][16..24] && h[48..56] == h[24..56][24..32];
    assert h[56..72] == rest[..16] == f.diskGuid;
    assert h[8..12] == HeaderFront()[8..12] && h[12..16] == HeaderFront()[12..16];
  }

  lemma {:induction false} LbaSlices(f: HeaderFields)
    ensures var l := Lbas(f);
      l[..8] == Le(f.myLba, 8) && l[8..16] == Le(f.altLba, 8) && l[16..24] == Le(f.firstUsable, 8) && l[24..32] == Le(f.lastUsable, 8)
  {
    hide Le;
  }

  /** A number as a reader takes it from these bytes. */
  function NumberAt(s: Bytes, at: nat, width: nat): nat
    requires at + width <= |s|
  {
    FromLe(s[at..at + width])
  }

  /** Every other field of UEFI 2.10 section 5.3.2 reads back: revision 1.0, size 92,
      this header's block and the other's, the usable range, the disk's GUID. */
  lemma {:induction false} HeaderFieldsRead(f: HeaderFields, blockSize: nat)
    requires |f.diskGuid| == 16 && blockSize >= 92
    requires f.myLba < Pow256(8) && f.altLba < Pow256(8) && f.firstUsable < Pow256(8) && f.lastUsable < Pow256(8)
    ensures var h := HeaderBlock(f, blockSize);
      && NumberAt(h, 8, 4) == 0x1_0000 && NumberAt(h, 12, 4) == 92
      && NumberAt(h, 24, 8) == f.myLba && NumberAt(h, 32, 8) == f.altLba
      && NumberAt(h, 40, 8) == f.firstUsable && NumberAt(h, 48, 8) == f.lastUsable && h[56..72] == f.diskGuid
  {
    hide HeaderBlock, Le, FromLe, Pow256;
    HeadSlices(f, blockSize);
    Widths();
    Constants();
    LeRoundTrip(f.myLba, 8);
    LeRoundTrip(f.altLba, 8);
    LeRoundTrip(f.firstUsable, 8);
    LeRoundTrip(f.lastUsable, 8);
  }

  /** The protective MBR of UEFI 2.10 section 5.2.3: one record of type 0xEE
      from block 1 over the rest of the disk, as far as 32 bits reach. */
  lemma {:induction false} MbrReads(total: nat, blockSize: nat)
    requires total >= 1 && blockSize >= 512
    ensures var m := ProtectiveMbr(total, blockSize);
      && m[510] == 0x55 && m[511] == 0xAA && m[450] == 0xEE
      && m[446..450] == [0x00, 0x00, 0x02, 0x00] && m[451..454] == [0xFF, 0xFF, 0xFF]
      && NumberAt(m, 454, 4) == 1 && NumberAt(m, 458, 4) == Min(total - 1, 0xFFFF_FFFF)
      && (forall k :: 0 <= k < 446 || 462 <= k < 510 || 512 <= k < blockSize ==> m[k] == 0)
  {
    hide Le, FromLe, Pow256;
    var one, size := One(), Le(Min(total - 1, 0xFFFF_FFFF), 4);
    var m := ProtectiveMbr(total, blockSize);
    var a: Bytes := Zeros(446) + [0x00, 0x00, 0x02, 0x00, 0xEE, 0xFF, 0xFF, 0xFF];
    var c: Bytes := Zeros(48) + [0x55, 0xAA] + Zeros(blockSize - 512);
    assert m == a + one + (size + c);
    Middle(a, one, size + c);
    assert m == (a + one) + size + c;
    Middle(a + one, size, c);
    Widths();
    Constants();
    LeRoundTrip(Min(total - 1, 0xFFFF_FFFF), 4);
  }

  lemma {:induction false} HeaderReads(f: HeaderFields, blockSize: nat)
    requires |f.diskGuid| == 16 && blockSize >= 92
    requires 2 <= f.entriesLba < Pow256(8)
    ensures ParseGptHeader(HeaderBlock(f, blockSize)) == Some(GptHeader(f.entriesLba, ENTRIES, ENTRY_SIZE))
  {
    hide HeaderBlock, Le, FromLe, Pow256;
    HeaderSlices(f, blockSize);
    Widths();
    LeRoundTrip(f.entriesLba, 8);
    Constants();
  }

  /** Names survive whatever their length: what was kept of them reads back. */
  lemma {:induction false} UnitsRead(units: seq<nat>, gap: nat)
    requires forall k :: 0 <= k < |units| ==> units[k] < 0x1_0000
    ensures Units(NameBytes(units) + Zeros(2 * gap)) == units + seq(gap, _ => 0)
    decreases |units|, gap
  {
    hide Le, FromLe, Pow256;
    if units == [] {
      assert NameBytes(units) + Zeros(2 * gap) == Zeros(2 * gap);
      ZeroUnits(gap);
      assert units + seq(gap, _ => 0) == seq(gap, _ => 0);
    } else {
      NameFront(units);
      var rest := NameBytes(units[1..]) + Zeros(2 * gap);
      assert NameBytes(units) + Zeros(2 * gap) == Le(units[0], 2) + rest;
      UnitsRead(units[1..], gap);
      assert (Le(units[0], 2) + rest)[..2] == Le(units[0], 2) && (Le(units[0], 2) + rest)[2..] == rest;
      Widths();
      LeRoundTrip(units[0], 2);
      assert units + seq(gap, _ => 0) == [units[0]] + (units[1..] + seq(gap, _ => 0));
    }
  }

  lemma {:induction false} ZeroUnits(gap: nat)
    ensures Units(Zeros(2 * gap)) == seq(gap, _ => 0)
    decreases gap
  {
    if gap > 0 {
      ZeroUnits(gap - 1);
      assert Zeros(2 * gap)[2..] == Zeros(2 * (gap - 1)) && Zeros(2 * gap)[..2] == Zeros(2);
      ZeroPair();
      assert seq(gap, _ => 0) == [0] + seq(gap - 1, _ => 0);
    }
  }

  lemma {:induction false} ZeroPair()
    ensures FromLe(Zeros(2)) == 0
  {
    hide Le, Pow256;
    ZeroLe(2);
    Widths();
    LeRoundTrip(0, 2);
  }

  lemma {:induction false} NameFront(units: seq<nat>)
    requires units != []
    ensures NameBytes(units) == Le(units[0], 2) + NameBytes(units[1..])
    decreases |units|
  {
    hide Le;
    var n := |units| - 1;
    if n == 0 {
      assert units[..0] == [] && units[1..] == [];
    } else {
      NameFront(units[..n]);
      assert units[..n][1..] == units[1..][..n - 1] && units[1..][n - 1] == units[n];
    }
  }

  lemma {:induction false} StopsAtPadding(units: seq<nat>, gap: nat)
    ensures UntilZero(units + seq(gap, _ => 0)) == UntilZero(units)
    decreases |units|
  {
    if units == [] {
      assert units + seq(gap, _ => 0) == seq(gap, _ => 0);
    } else {
      StopsAtPadding(units[1..], gap);
      assert (units + seq(gap, _ => 0))[1..] == units[1..] + seq(gap, _ => 0);
    }
  }

  lemma {:induction false} WholeName(units: seq<nat>)
    ensures |UntilZero(units)| <= |units|
    ensures UntilZero(units) == units <==> forall k :: 0 <= k < |units| ==> units[k] != 0
    decreases |units|
  {
    if units != [] {
      WholeName(units[1..]);
      if units[0] != 0 {
        assert units == [units[0]] + units[1..];
        assert UntilZero(units) == units <==> UntilZero(units)[1..] == units[1..];
      }
    }
  }

  /** The name found is the name given exactly when it is at most 36 units
      long and has no NUL in it. */
  lemma {:induction false} NameSurvives(units: seq<nat>)
    ensures UntilZero(Kept(units)) == units <==> |units| <= 36 && forall k :: 0 <= k < |units| ==> units[k] != 0
  {
    hide UntilZero;
    WholeName(Kept(units));
  }

  lemma {:induction false} EntrySlices(typeGuid: Bytes, partGuid: Bytes, first: nat, last: nat, units: seq<nat>)
    requires |typeGuid| == 16 && |partGuid| == 16
    ensures var e := EntryBytes(typeGuid, partGuid, first, last, units);
      && e[..16] == typeGuid && e[16..32] == partGuid && e[32..40] == Le(first, 8) && e[40..48] == Le(last, 8)
      && e[56..128] == NameBytes(Kept(units)) + Zeros(72 - 2 * |Kept(units)|)
  {
    hide Le, NameBytes, Kept;
    var e := EntryBytes(typeGuid, partGuid, first, last, units);
    var n := NameBytes(Kept(units)) + Zeros(72 - 2 * |Kept(units)|);
    var a := typeGuid + partGuid + Le(first, 8) + Le(last, 8) + Zeros(8);
    assert e == a + n;
    assert e[56..128] == n;
  }

  ghost predicate AllZero(s: Bytes) { forall k :: 0 <= k < |s| ==> s[k] == 0 }

  lemma {:induction false} EntryReads(typeGuid: Bytes, partGuid: Bytes, first: nat, last: nat, units: seq<nat>)
    requires |typeGuid| == 16 && |partGuid| == 16 && !AllZero(typeGuid)
    requires 0 < first <= last < Pow256(8)
    requires forall k :: 0 <= k < |units| ==> units[k] < 0x1_0000
    ensures ParseEntry(EntryBytes(typeGuid, partGuid, first, last, units), 0)
      == Some(Partition(1, first, UntilZero(Kept(units)), typeGuid))
  {
    hide EntryBytes, Le, FromLe, Pow256, NameBytes, Units, UntilZero;
    var e := EntryBytes(typeGuid, partGuid, first, last, units);
    EntrySlices(typeGuid, partGuid, first, last, units);
    LeRoundTrip(first, 8);
    LeRoundTrip(last, 8);
    var gap := 36 - |Kept(units)|;
    UnitsRead(Kept(units), gap);
    StopsAtPadding(Kept(units), gap);
    var k :| 0 <= k < |typeGuid| && typeGuid[k] != 0;
    assert e[..16][k] == e[k];
  }

  lemma {:induction false} NoneAfter(t: Bytes, i: nat)
    requires |t| == ENTRIES * ENTRY_SIZE && 1 <= i <= ENTRIES
    requires forall k :: ENTRY_SIZE <= k < |t| ==> t[k] == 0
    ensures EntriesFrom(t, ENTRY_SIZE, i, ENTRIES) == []
    decreases ENTRIES - i
  {
    if i < ENTRIES {
      EntryInside(|t|, ENTRY_SIZE, i, ENTRIES);
      var e := t[i * ENTRY_SIZE..i * ENTRY_SIZE + ENTRY_SIZE];
      assert forall k :: 0 <= k < 16 ==> e[k] == 0;
      NoneAfter(t, i + 1);
    }
  }

  /** The table holds exactly the one partition. */
  lemma {:induction false} TableReads(typeGuid: Bytes, partGuid: Bytes, first: nat, last: nat, units: seq<nat>, lba: nat)
    requires |typeGuid| == 16 && |partGuid| == 16 && !AllZero(typeGuid)
    requires 0 < first <= last < Pow256(8)
    requires forall k :: 0 <= k < |units| ==> units[k] < 0x1_0000
    ensures ParseGptEntries(EntryTable(typeGuid, partGuid, first, last, units), GptHeader(lba, ENTRIES, ENTRY_SIZE))
      == [Partition(1, first, UntilZero(Kept(units)), typeGuid)]
  {
    hide EntryBytes, ParseEntry, UntilZero, Pow256;
    var t := EntryTable(typeGuid, partGuid, first, last, units);
    var e := EntryBytes(typeGuid, partGuid, first, last, units);
    NoneAfter(t, 1);
    assert t[0 * ENTRY_SIZE..0 * ENTRY_SIZE + ENTRY_SIZE] == e;
    EntryReads(typeGuid, partGuid, first, last, units);
  }

  /** With a type of all zeros the entry reads as unused: nothing is found. */
  lemma {:induction false} UnusedType(partGuid: Bytes, first: nat, last: nat, units: seq<nat>, lba: nat)
    requires |partGuid| == 16
    ensures ParseGptEntries(EntryTable(Zeros(16), partGuid, first, last, units), GptHeader(lba, ENTRIES, ENTRY_SIZE)) == []
  {
    hide EntryBytes;
    var t := EntryTable(Zeros(16), partGuid, first, last, units);
    var e := EntryBytes(Zeros(16), partGuid, first, last, units);
    NoneAfter(t, 1);
    assert t[0 * ENTRY_SIZE..0 * ENTRY_SIZE + ENTRY_SIZE] == e;
    EntrySlices(Zeros(16), partGuid, first, last, units);
    assert forall k :: 0 <= k < 16 ==> e[k] == e[..16][k];
  }

  // ------------------------------------------------ the disk as written

  /** Two headers that name each other's blocks and the same usable range. */
  ghost predicate Twins(p: Bytes, b: Bytes, g: Geometry)
    requires |p| >= 92 && |b| >= 92
  {
    && NumberAt(p, 24, 8) == 1 == NumberAt(b, 32, 8) && NumberAt(b, 24, 8) == g.total - 1 == NumberAt(p, 32, 8)
    && NumberAt(p, 40, 8) == NumberAt(b, 40, 8) == g.firstUsable
    && NumberAt(p, 48, 8) == NumberAt(b, 48, 8) == g.lastUsable
  }

  lemma {:induction false} TwinHeaders(g: Geometry, blockSize: nat, diskGuid: Bytes, crc: bv32)
    requires |diskGuid| == 16 && blockSize >= 92 && g.total >= 2 + g.entryLbas
    requires g.total < Pow256(8) && g.firstUsable < Pow256(8) && g.lastUsable < Pow256(8)
    ensures Twins(HeaderBlock(FieldsOf(g, diskGuid, crc, false), blockSize), HeaderBlock(FieldsOf(g, diskGuid, crc, true), blockSize), g)
  {
    hide HeaderBlock, NumberAt;
    Widths();
    hide Pow256;
    HeaderFieldsRead(FieldsOf(g, diskGuid, crc, false), blockSize);
    HeaderFieldsRead(FieldsOf(g, diskGuid, crc, true), blockSize);
  }

  lemma {:induction false} CopiesPointAtEachOther(capacity: nat, blockSize: nat, typeGuid: Bytes, units: seq<nat>, diskGuid: Bytes, partGuid: Bytes)
    requires |typeGuid| == |diskGuid| == |partGuid| == 16
    requires capacity < Pow256(8) && GeometryOf(capacity, blockSize).Ok?
    ensures var l := LaidOut(capacity, blockSize, typeGuid, units, diskGuid, partGuid);
      && |l.primary| >= 2 * blockSize && |l.backup| >= blockSize >= 512
      && Twins(l.primary[blockSize..2 * blockSize], l.backup[|l.backup| - blockSize..], l.geometry)
  {
    hide HeaderBlock, Crc32.Crc, Pow256, GeometryOf, Twins, FieldsOf;
    GeometrySound(capacity, blockSize);
    GeometryFits(capacity, blockSize);
    var g := GeometryOf(capacity, blockSize).value;
    BlocksFit(g, blockSize, capacity);
    HeadersAre(capacity, blockSize, typeGuid, units, diskGuid, partGuid);
    hide LaidOut;
    TwinHeaders(g, blockSize, diskGuid, Crc32.Crc(EntryTable(typeGuid, partGuid, g.first, g.last, units)));
  }

  lemma {:induction false} HeadersAre(capacity: nat, blockSize: nat, typeGuid: Bytes, units: seq<nat>, diskGuid: Bytes, partGuid: Bytes)
    requires |typeGuid| == |diskGuid| == |partGuid| == 16 && GeometryOf(capacity, blockSize).Ok?
    ensures GeometryOf(capacity, blockSize).value.total >= 1 + GeometryOf(capacity, blockSize).value.entryLbas && blockSize >= 512
    ensures var l, g := LaidOut(capacity, blockSize, typeGuid, units, diskGuid, partGuid), GeometryOf(capacity, blockSize).value;
      var crc := Crc32.Crc(EntryTable(typeGuid, partGuid, g.first, g.last, units));
      && l.geometry == g && |l.primary| >= 2 * blockSize && |l.backup| >= blockSize
      && l.primary[blockSize..2 * blockSize] == HeaderBlock(FieldsOf(g, diskGuid, crc, false), blockSize)
      && l.backup[|l.backup| - blockSize..] == HeaderBlock(FieldsOf(g, diskGuid, crc, true), blockSize)
  {
    hide HeaderBlock, EntryTable, ProtectiveMbr, Crc32.Crc, GeometryOf;
    GeometryFits(capacity, blockSize);
    var l := LaidOut(capacity, blockSize, typeGuid, units, diskGuid, partGuid);
    var g := GeometryOf(capacity, blockSize).value;
    var table := EntryTable(typeGuid, partGuid, g.first, g.last, units);
    Middle(ProtectiveMbr(g.total, blockSize), HeaderBlock(FieldsOf(g, diskGuid, Crc32.Crc(table), false), blockSize), table);
    EndOf(table, HeaderBlock(FieldsOf(g, diskGuid, Crc32.Crc(table), true), blockSize));
  }

  lemma {:induction false} EndOf(a: Bytes, b: Bytes)
    ensures (a + b)[|a + b| - |b|..] == b
  {
  }

  /** A region of the disk the writer wrote, in bytes from its start. */
  function Region(start: nat, bytes: Bytes, from: nat, size: nat): Option<Bytes> {
    if start <= from && from + size <= start + |bytes| then Some(bytes[from - start..from - start + size]) else None
  }

  function TableBytes(h: GptHeader): nat { h.entries * h.entrySize }

  function Offset(lba: nat, blockSize: nat): nat { lba * blockSize }

  /** What a reader of one of the two copies finds: the header at its block,
      the entries where that header says they are. */
  function Found(l: Laid, backup: bool): Option<seq<Partition>>
    requires l.geometry.total >= 1
  {
    var start, bytes := if backup then l.backupOffset else 0, if backup then l.backup else l.primary;
    var head := Region(start, bytes, Offset(if backup then l.geometry.total - 1 else 1, l.blockSize), l.blockSize);
    if head.None? then None
    else
      var h := ParseGptHeader(head.value);
      if h.None? then None
      else
        var table := Region(start, bytes, Offset(h.value.entriesLba, l.blockSize), TableBytes(h.value));
        if table.None? then None else Some(ParseGptEntries(table.value, h.value))
  }

  /** The geometry a reader would have to find, and that nothing overlaps. */
  lemma {:induction false} RegionsApart(capacity: nat, blockSize: nat, typeGuid: Bytes, units: seq<nat>, diskGuid: Bytes, partGuid: Bytes)
    requires |typeGuid| == |diskGuid| == |partGuid| == 16
    requires GeometryOf(capacity, blockSize).Ok?
    ensures var g := GeometryOf(capacity, blockSize).value;
      var l := LaidOut(capacity, blockSize, typeGuid, units, diskGuid, partGuid);
      && |l.primary| == g.firstUsable * blockSize <= g.first * blockSize
      && (g.last + 1) * blockSize <= (g.lastUsable + 1) * blockSize == l.backupOffset
      && l.backupOffset + |l.backup| == g.total * blockSize <= capacity
  {
    hide HeaderBlock, EntryTable, ProtectiveMbr, Crc32.Crc;
    GeometrySound(capacity, blockSize);
    if blockSize == 512 { Aligned512(capacity); } else { Aligned4096(capacity); }
  }

  /** Reading either copy: the header at its block, then the table where the
      header says it is, gives exactly the one partition. */
  lemma {:induction false} LayoutReads(capacity: nat, blockSize: nat, typeGuid: Bytes, units: seq<nat>, diskGuid: Bytes, partGuid: Bytes, backup: bool)
    requires |typeGuid| == |diskGuid| == |partGuid| == 16 && !AllZero(typeGuid)
    requires forall k :: 0 <= k < |units| ==> units[k] < 0x1_0000
    requires capacity < Pow256(8) && GeometryOf(capacity, blockSize).Ok?
    ensures var l := LaidOut(capacity, blockSize, typeGuid, units, diskGuid, partGuid);
      l.geometry.total >= 1 && Found(l, backup) == Some([Partition(1, l.geometry.first, UntilZero(Kept(units)), typeGuid)])
  {
    hide HeaderBlock, EntryTable, ProtectiveMbr, Crc32.Crc, ParseGptHeader, ParseGptEntries, Pow256, UntilZero, GeometryOf, Kept, Region;
    GeometrySound(capacity, blockSize);
    GeometryFits(capacity, blockSize);
    var l := LaidOut(capacity, blockSize, typeGuid, units, diskGuid, partGuid);
    var g := l.geometry;
    var table := EntryTable(typeGuid, partGuid, g.first, g.last, units);
    var f := FieldsOf(g, diskGuid, Crc32.Crc(table), backup);
    BlocksFit(g, blockSize, capacity);
    HeaderReads(f, blockSize);
    TableReads(typeGuid, partGuid, g.first, g.last, units, f.entriesLba);
    if backup {
      BackupRegions(g, blockSize, table, HeaderBlock(f, blockSize), l.backup);
    } else {
      PrimaryRegions(blockSize, ProtectiveMbr(g.total, blockSize), HeaderBlock(f, blockSize), table, l.primary);
    }
  }

  lemma {:induction false} BlocksFit(g: Geometry, blockSize: nat, capacity: nat)
    requires g.total * blockSize <= capacity && blockSize >= 1 && capacity < Pow256(8)
    requires 2 + g.entryLbas <= g.first <= g.last < g.total - 1 - g.entryLbas
    ensures g.total < Pow256(8) && 2 <= g.total - 1 - g.entryLbas < Pow256(8) && 0 < g.first <= g.last < Pow256(8)
  {
    hide Pow256;
    Multiply(1, blockSize, g.total);
  }

  lemma {:induction false} Slice(a: Bytes, b: Bytes, c: Bytes, all: Bytes, start: nat, from: nat)
    requires all == a + b + c && from == start + |a|
    ensures Region(start, all, from, |b|) == Some(b)
  {
    Middle(a, b, c);
  }

  lemma {:induction false} PrimaryRegions(blockSize: nat, mbr: Bytes, head: Bytes, table: Bytes, primary: Bytes)
    requires |mbr| == |head| == blockSize && |table| == ENTRIES * ENTRY_SIZE && primary == mbr + head + table
    ensures Region(0, primary, 1 * blockSize, blockSize) == Some(head)
    ensures Region(0, primary, 2 * blockSize, ENTRIES * ENTRY_SIZE) == Some(table)
  {
    hide Region;
    Slice(mbr, head, table, primary, 0, blockSize);
    assert primary == (mbr + head) + table + [];
    Slice(mbr + head, table, [], primary, 0, 2 * blockSize);
  }

  lemma {:induction false} BackupRegions(g: Geometry, blockSize: nat, table: Bytes, head: Bytes, backup: Bytes)
    requires g.total >= 1 + g.entryLbas && g.entryLbas * blockSize == ENTRIES * ENTRY_SIZE
    requires |head| == blockSize && |table| == ENTRIES * ENTRY_SIZE && backup == table + head
    ensures var start := (g.total - 1 - g.entryLbas) * blockSize;
      && Region(start, backup, (g.total - 1) * blockSize, blockSize) == Some(head)
      && Region(start, backup, start, ENTRIES * ENTRY_SIZE) == Some(table)
  {
    hide Region;
    Distribute(g.total - 1, g.entryLbas, blockSize);
    var start := (g.total - 1 - g.entryLbas) * blockSize;
    assert backup == table + head + [];
    Slice(table, head, [], backup, start, (g.total - 1) * blockSize);
    assert backup == [] + table + head;
    Slice([], table, head, backup, start, start);
  }

  lemma {:induction false} Distribute(a: nat, b: nat, c: nat)
    requires b <= a
    ensures (a - b) * c == a * c - b * c && a * c >= b * c
  {
    Multiply(b, a, c);
  }

  // ------------------------------------------------ checks stored in the header

  /** The little-endian word at an offset: what a reader compares a CRC with. */
  function WordAt(s: Bytes, at: nat): bv32
    requires at + 4 <= |s|
  {
    Crc32.Word(s[at..at + 4])
  }

  /** The header with its own CRC field taken as zero. */
  function Covered(h: Bytes): Bytes
    requires |h| >= 92
  {
    h[..16] + Zeros(4) + h[20..92]
  }

  /** The header check of UEFI 2.10 section 5.3.2, over the first 92 bytes. */
  ghost predicate HeaderChecks(h: Bytes)
    requires |h| >= 92
  {
    Crc32.Crc(Covered(h)) == WordAt(h, 16)
  }

  ghost predicate TableChecks(h: Bytes, table: Bytes)
    requires |h| >= 92
  {
    Crc32.Crc(table) == WordAt(h, 88)
  }

  /** What was written passes both checks. */
  lemma {:induction false} ChecksHold(f: HeaderFields, blockSize: nat, table: Bytes)
    requires |f.diskGuid| == 16 && blockSize >= 92
    ensures HeaderChecks(HeaderBlock(f, blockSize))
    ensures f.entriesCrc == Crc32.Crc(table) ==> TableChecks(HeaderBlock(f, blockSize), table)
  {
    hide CrcBytes, Crc32.Crc, Crc32.Word, HeaderFront, HeaderBack, Le, Byte;
    var h := HeaderBlock(f, blockSize);
    var crc := Crc32.Crc(Unsealed(f));
    HeaderSlices(f, blockSize);
    StoredCrc(f.entriesCrc);
    StoredCrc(crc);
    assert h[16..20] == CrcBytes(crc);
    assert Covered(h) == Unsealed(f);
  }

  /** The bytes of `h` with those from `at` on replaced. */
  function Damaged(h: Bytes, at: nat, bytes: Bytes): (d: Bytes)
    requires at + |bytes| <= |h|
    ensures |d| == |h|
  {
    h[..at] + bytes + h[at + |bytes|..]
  }

  lemma {:induction false} FrontDamage(h: Bytes, at: nat, bytes: Bytes)
    requires |h| >= 92 && at + |bytes| <= 16
    ensures var d, end := Damaged(h, at, bytes), at + |bytes|;
      var after := h[end..16] + Zeros(4) + h[20..92];
      Covered(h) == h[..at] + h[at..end] + after && Covered(d) == h[..at] + bytes + after && d[16..20] == h[16..20]
  {
    var d, end := Damaged(h, at, bytes), at + |bytes|;
    assert d[..16] == h[..at] + bytes + h[end..16];
    assert d[16..] == h[16..] by { TailKept(h, at, bytes, 16); }
    assert d[20..92] == d[16..][4..76] && h[20..92] == h[16..][4..76];
    assert d[16..20] == d[16..][..4] && h[16..20] == h[16..][..4];
    assert h[..16] == h[..at] + h[at..end] + h[end..16];
  }

  lemma {:induction false} TailKept(h: Bytes, at: nat, bytes: Bytes, k: nat)
    requires at + |bytes| <= k <= |h|
    ensures Damaged(h, at, bytes)[k..] == h[k..]
  {
  }

  lemma {:induction false} BackDamage(h: Bytes, at: nat, bytes: Bytes)
    requires |h| >= 92 && 20 <= at && at + |bytes| <= 92
    ensures var d, end := Damaged(h, at, bytes), at + |bytes|;
      var before, after := h[..16] + Zeros(4) + h[20..at], h[end..92];
      Covered(h) == before + h[at..end] + after && Covered(d) == before + bytes + after && d[16..20] == h[16..20]
  {
    var d, end := Damaged(h, at, bytes), at + |bytes|;
    assert d[..20] == h[..20];
    assert d[..16] == d[..20][..16] && h[..16] == h[..20][..16];
    assert d[16..20] == d[..20][16..] && h[16..20] == h[..20][16..];
    assert d[20..92] == h[20..at] + bytes + h[end..92];
    assert h[20..92] == h[20..at] + h[at..end] + h[end..92];
  }

  lemma {:induction false} Inner(s: Bytes, a: nat, b: nat, c: nat, d: nat)
    requires a <= c <= d <= b <= |s|
    ensures s[a..b][c - a..d - a] == s[c..d]
  {
    var x, y := s[a..b][c - a..d - a], s[c..d];
    assert |x| == |y|;
    forall k | 0 <= k < |x| ensures x[k] == y[k] {
      assert x[k] == s[a..b][c - a + k] == s[c + k];
    }
  }

  lemma {:induction false} FieldDamage(h: Bytes, at: nat, bytes: Bytes)
    requires |h| >= 92 && 16 <= at && at + |bytes| <= 20 && bytes != h[at..at + |bytes|]
    ensures Covered(Damaged(h, at, bytes)) == Covered(h) && Damaged(h, at, bytes)[16..20] != h[16..20]
  {
    var d := Damaged(h, at, bytes);
    assert d[..16] == h[..16];
    TailKept(h, at, bytes, 20);
    assert d[20..92] == d[20..][..72] && h[20..92] == h[20..][..72];
    Inner(d, 16, 20, at, at + |bytes|);
    Inner(h, 16, 20, at, at + |bytes|);
    Middle(h[..at], bytes, h[at + |bytes|..]);
  }

  /** Any change of up to four neighbouring bytes inside what the header CRC
      covers, or inside the stored CRC itself, breaks the header check. */
  lemma {:induction false} HeaderDamageShows(h: Bytes, at: nat, bytes: Bytes)
    requires |h| >= 92 && HeaderChecks(h) && |bytes| <= 4
    requires at + |bytes| <= 16 || (20 <= at && at + |bytes| <= 92) || (16 <= at && at + |bytes| <= 20)
    requires bytes != h[at..at + |bytes|]
    ensures !HeaderChecks(Damaged(h, at, bytes))
  {
    hide Crc32.Crc, Crc32.Word, Covered, Damaged;
    var was, end := h[at..at + |bytes|], at + |bytes|;
    if end <= 16 {
      FrontDamage(h, at, bytes);
      Crc32.BurstDetected(h[..at], was, bytes, h[end..16] + Zeros(4) + h[20..92]);
    } else if at >= 20 {
      BackDamage(h, at, bytes);
      Crc32.BurstDetected(h[..16] + Zeros(4) + h[20..at], was, bytes, h[end..92]);
    } else {
      FieldDamage(h, at, bytes);
      Crc32.WordInjective(Damaged(h, at, bytes)[16..20], h[16..20]);
    }
  }

  /** Any change of up to four neighbouring bytes of the table breaks its check. */
  lemma {:induction false} TableDamageShows(h: Bytes, table: Bytes, at: nat, bytes: Bytes)
    requires |h| >= 92 && TableChecks(h, table) && |bytes| <= 4 && at + |bytes| <= |table|
    requires bytes != table[at..at + |bytes|]
    ensures !TableChecks(h, Damaged(table, at, bytes))
  {
    hide Crc32.Crc, Crc32.Word;
    var was, after := table[at..at + |bytes|], table[at + |bytes|..];
    Crc32.BurstDetected(table[..at], was, bytes, after);
    assert table == table[..at] + was + after;
  }

  // ------------------------------------------------ a copy, byte for byte

  /** The block the header of a copy is in. */
  function HeadBlock(l: Laid, backup: bool): Option<Bytes>
    requires l.geometry.total >= 1
  {
    Region(if backup then l.backupOffset else 0, if backup then l.backup else l.primary,
           Offset(if backup then l.geometry.total - 1 else 1, l.blockSize), l.blockSize)
  }

  /** The 16 KiB at the block that header names. */
  function NamedTable(l: Laid, backup: bool, head: Bytes): Option<Bytes>
    requires |head| >= 92
  {
    Region(if backup then l.backupOffset else 0, if backup then l.backup else l.primary,
           Offset(NumberAt(head, 72, 8), l.blockSize), 16384)
  }

  /** A header of UEFI 2.10 section 5.3.2: every byte of its block. */
  ghost predicate HeadIs(h: Bytes, own: nat, other: nat, first: nat, last: nat, diskGuid: Bytes, table: nat) {
    && |h| >= 92 && h[..8] == [0x45, 0x46, 0x49, 0x20, 0x50, 0x41, 0x52, 0x54]
    && NumberAt(h, 8, 4) == 0x1_0000 && NumberAt(h, 12, 4) == 92 && AllZero(h[20..24])
    && NumberAt(h, 24, 8) == own && NumberAt(h, 32, 8) == other
    && NumberAt(h, 40, 8) == first && NumberAt(h, 48, 8) == last && h[56..72] == diskGuid
    && NumberAt(h, 72, 8) == table && NumberAt(h, 80, 4) == 128 && NumberAt(h, 84, 4) == 128
    && AllZero(h[92..])
  }

  /** A table with the one entry: every byte of it. */
  ghost predicate TableIs(t: Bytes, typeGuid: Bytes, partGuid: Bytes, first: nat, last: nat, units: seq<nat>) {
    && |t| == 16384 && t[..16] == typeGuid && t[16..32] == partGuid
    && NumberAt(t, 32, 8) == first && NumberAt(t, 40, 8) == last && AllZero(t[48..56])
    && NameIs(t[56..128], units) && AllZero(t[128..])
  }

  /** The name's first 36 units, the rest of the field zero. */
  ghost predicate NameIs(bytes: Bytes, units: seq<nat>) {
    var n, read := Min(|units|, 36), Units(bytes);
    |read| == 36 && read[..n] == units[..n] && forall k :: n <= k < 36 ==> read[k] == 0
  }

  lemma {:induction false} HeaderZeros(f: HeaderFields, blockSize: nat)
    requires |f.diskGuid| == 16 && blockSize >= 92
    ensures var h := HeaderBlock(f, blockSize); AllZero(h[20..24]) && AllZero(h[92..])
  {
    hide Le, CrcBytes, TableFields, Lbas, Crc32.Crc;
    var h := HeaderBlock(f, blockSize);
    var crc := CrcBytes(Crc32.Crc(Unsealed(f)));
    var rest := Lbas(f) + f.diskGuid + TableFields(f) + Zeros(blockSize - 92);
    assert h == (HeaderFront() + crc) + Zeros(4) + rest;
    Middle(HeaderFront() + crc, Zeros(4), rest);
    var front := HeaderFront() + crc + HeaderBack(f);
    assert h == front + Zeros(blockSize - 92);
    assert h[92..] == Zeros(blockSize - 92);
  }

  lemma {:induction false} HeaderIs(f: HeaderFields, blockSize: nat)
    requires |f.diskGuid| == 16 && blockSize >= 92
    requires f.myLba < Pow256(8) && f.altLba < Pow256(8) && f.firstUsable < Pow256(8) && f.lastUsable < Pow256(8) && f.entriesLba < Pow256(8)
    ensures HeadIs(HeaderBlock(f, blockSize), f.myLba, f.altLba, f.firstUsable, f.lastUsable, f.diskGuid, f.entriesLba)
  {
    hide HeaderBlock, Le, FromLe, Pow256, AllZero;
    HeaderFieldsRead(f, blockSize);
    HeaderSlices(f, blockSize);
    HeaderZeros(f, blockSize);
    Widths();
    Constants();
    LeRoundTrip(f.entriesLba, 8);
  }

  lemma {:induction false} EntryZeros(typeGuid: Bytes, partGuid: Bytes, first: nat, last: nat, units: seq<nat>)
    requires |typeGuid| == 16 && |partGuid| == 16
    ensures AllZero(EntryBytes(typeGuid, partGuid, first, last, units)[48..56])
  {
    hide Le, NameBytes, Kept;
    var e := EntryBytes(typeGuid, partGuid, first, last, units);
    var a := typeGuid + partGuid + Le(first, 8) + Le(last, 8);
    var n := NameBytes(Kept(units)) + Zeros(72 - 2 * |Kept(units)|);
    assert e == a + Zeros(8) + n;
    Middle(a, Zeros(8), n);
  }

  lemma {:induction false} NameReads(units: seq<nat>)
    requires forall k :: 0 <= k < |units| ==> units[k] < 0x1_0000
    ensures NameIs(NameBytes(Kept(units)) + Zeros(72 - 2 * |Kept(units)|), units)
  {
    KeptIs(units);
    var kept := Kept(units);
    hide NameBytes, Units, Kept;
    var gap := 36 - |kept|;
    UnitsRead(kept, gap);
    var read := kept + seq(gap, _ => 0);
    assert read[..|kept|] == kept;
  }

  lemma {:induction false} EntryTableIs(typeGuid: Bytes, partGuid: Bytes, first: nat, last: nat, units: seq<nat>)
    requires |typeGuid| == 16 && |partGuid| == 16 && first < Pow256(8) && last < Pow256(8)
    requires forall k :: 0 <= k < |units| ==> units[k] < 0x1_0000
    ensures TableIs(EntryTable(typeGuid, partGuid, first, last, units), typeGuid, partGuid, first, last, units)
  {
    var t := EntryTable(typeGuid, partGuid, first, last, units);
    var e := EntryBytes(typeGuid, partGuid, first, last, units);
    EntrySlices(typeGuid, partGuid, first, last, units);
    EntryZeros(typeGuid, partGuid, first, last, units);
    LeRoundTrip(first, 8);
    LeRoundTrip(last, 8);
    NameReads(units);
    assert t[..128] == e && t[128..] == Zeros(127 * 128);
    hide EntryBytes, EntryTable, Le, FromLe, Pow256, NameBytes, Units, Kept, NameIs;
    TableParts(t, e);
  }

  lemma {:induction false} KeptIs(units: seq<nat>)
    ensures Kept(units) == units[..Min(|units|, 36)]
  {
  }

  lemma {:induction false} TableParts(t: Bytes, e: Bytes)
    requires |t| >= 128 && t[..128] == e
    ensures t[..16] == e[..16] && t[16..32] == e[16..32] && t[32..40] == e[32..40] && t[40..48] == e[40..48]
    ensures t[48..56] == e[48..56] && t[56..128] == e[56..128]
  {
  }

  /** Where a copy lies: its header in its block, the table where that says. */
  lemma {:induction false} CopyAt(capacity: nat, blockSize: nat, typeGuid: Bytes, units: seq<nat>, diskGuid: Bytes, partGuid: Bytes, backup: bool)
    requires |typeGuid| == |diskGuid| == |partGuid| == 16
    requires capacity < Pow256(8) && GeometryOf(capacity, blockSize).Ok?
    ensures var l, g := LaidOut(capacity, blockSize, typeGuid, units, diskGuid, partGuid), GeometryOf(capacity, blockSize).value;
      && l.geometry == g && l.blockSize == blockSize >= 512 && g.total >= 2 + g.entryLbas
      && var table := EntryTable(typeGuid, partGuid, g.first, g.last, units);
      && var head := HeaderBlock(FieldsOf(g, diskGuid, Crc32.Crc(table), backup), blockSize);
      && HeadBlock(l, backup) == Some(head)
      && HeadIs(head, if backup then g.total - 1 else 1, if backup then 1 else g.total - 1, g.firstUsable, g.lastUsable, diskGuid,
                if backup then g.total - 1 - g.entryLbas else 2)
      && NamedTable(l, backup, head) == Some(table)
  {
    hide HeaderBlock, EntryTable, ProtectiveMbr, Crc32.Crc, Pow256, GeometryOf, Region, HeadIs, NumberAt;
    GeometrySound(capacity, blockSize);
    GeometryFits(capacity, blockSize);
    var l := LaidOut(capacity, blockSize, typeGuid, units, diskGuid, partGuid);
    var g := l.geometry;
    var table := EntryTable(typeGuid, partGuid, g.first, g.last, units);
    var f := FieldsOf(g, diskGuid, Crc32.Crc(table), backup);
    var head := HeaderBlock(f, blockSize);
    BlocksFit(g, blockSize, capacity);
    HeaderIs(f, blockSize);
    NamedIn(head, f);
    if backup {
      BackupRegions(g, blockSize, table, head, l.backup);
    } else {
      PrimaryRegions(blockSize, ProtectiveMbr(g.total, blockSize), head, table, l.primary);
    }
  }

  lemma {:induction false} NamedIn(head: Bytes, f: HeaderFields)
    requires HeadIs(head, f.myLba, f.altLba, f.firstUsable, f.lastUsable, f.diskGuid, f.entriesLba)
    ensures |head| >= 92 && NumberAt(head, 72, 8) == f.entriesLba
  {
  }

  /** At its block a header whose own check and whose check of the table hold,
      and at the block it names that table, with the partition, its GUIDs, its
      blocks and its name. */
  ghost predicate WholeCopy(l: Laid, backup: bool, typeGuid: Bytes, units: seq<nat>, diskGuid: Bytes, partGuid: Bytes) {
    var g := l.geometry;
    && g.total >= 2 + g.entryLbas && HeadBlock(l, backup).Some?
    && var head := HeadBlock(l, backup).value;
    && HeadIs(head, if backup then g.total - 1 else 1, if backup then 1 else g.total - 1, g.firstUsable, g.lastUsable, diskGuid,
              if backup then g.total - 1 - g.entryLbas else 2)
    && NamedTable(l, backup, head).Some?
    && var table := NamedTable(l, backup, head).value;
    && HeaderChecks(head) && TableChecks(head, table)
    && TableIs(table, typeGuid, partGuid, g.first, g.last, units)
  }

  /** What lies on the disk in either copy, byte for byte. */
  lemma {:induction false} CopyIsWhole(capacity: nat, blockSize: nat, typeGuid: Bytes, units: seq<nat>, diskGuid: Bytes, partGuid: Bytes, backup: bool)
    requires |typeGuid| == |diskGuid| == |partGuid| == 16
    requires forall k :: 0 <= k < |units| ==> units[k] < 0x1_0000
    requires capacity < Pow256(8) && GeometryOf(capacity, blockSize).Ok?
    ensures LaidOut(capacity, blockSize, typeGuid, units, diskGuid, partGuid).geometry == GeometryOf(capacity, blockSize).value
    ensures WholeCopy(LaidOut(capacity, blockSize, typeGuid, units, diskGuid, partGuid), backup, typeGuid, units, diskGuid, partGuid)
  {
    hide LaidOut, HeaderBlock, EntryTable, HeadBlock, NamedTable, Crc32.Crc, GeometryOf, HeadIs, TableIs, HeaderChecks, TableChecks, FieldsOf;
    CopyAt(capacity, blockSize, typeGuid, units, diskGuid, partGuid, backup);
    var l, g := LaidOut(capacity, blockSize, typeGuid, units, diskGuid, partGuid), GeometryOf(capacity, blockSize).value;
    var table := EntryTable(typeGuid, partGuid, g.first, g.last, units);
    GeometrySound(capacity, blockSize);
    BlocksFit(g, blockSize, capacity);
    hide Pow256;
    EntryTableIs(typeGuid, partGuid, g.first, g.last, units);
    FieldsHold(g, diskGuid, table, backup, blockSize);
  }

  lemma {:induction false} FieldsHold(g: Geometry, diskGuid: Bytes, table: Bytes, backup: bool, blockSize: nat)
    requires |diskGuid| == 16 && blockSize >= 92 && g.total >= 1 + g.entryLbas
    ensures var head := HeaderBlock(FieldsOf(g, diskGuid, Crc32.Crc(table), backup), blockSize);
      HeaderChecks(head) && TableChecks(head, table)
  {
    hide HeaderBlock, Crc32.Crc, HeaderChecks, TableChecks;
    ChecksHold(FieldsOf(g, diskGuid, Crc32.Crc(table), backup), blockSize, table);
  }

  /** And the first block is the protective MBR, which `MbrReads` reads. */
  lemma {:induction false} FirstBlock(capacity: nat, blockSize: nat, typeGuid: Bytes, units: seq<nat>, diskGuid: Bytes, partGuid: Bytes)
    requires |typeGuid| == |diskGuid| == |partGuid| == 16 && GeometryOf(capacity, blockSize).Ok?
    ensures var l := LaidOut(capacity, blockSize, typeGuid, units, diskGuid, partGuid);
      && l.geometry.total == capacity / blockSize >= 1 && |l.primary| >= blockSize >= 512
      && l.primary[..blockSize] == ProtectiveMbr(capacity / blockSize, blockSize)
  {
    hide HeaderBlock, EntryTable, ProtectiveMbr, Crc32.Crc;
    GeometryFits(capacity, blockSize);
  }
}
