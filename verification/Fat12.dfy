/** The FAT12 reader of the boot loader: the 12-bit table packed into bytes, LBA to
    cylinder/head/sector, the root directory search and the loading of a cluster chain into the
    64 KB segment of the kernel. Memory is one array of physical bytes. */
module Fat12 {
  import opened Numbers
  import opened Sequences

  // BPB fields and derived constants of the boot sector
  const BPB_BYTS_PER_SEC := 512
  const BPB_SEC_PER_TRK := 18
  const BPB_NUM_HEADS := 2
  const BPB_TOT_SEC := 2880
  const ROOT_DIR_SECTORS := 14
  const SEC_NO_OF_ROOT_DIR := 19
  const SEC_NO_OF_FAT1 := 1
  const DELTA_SEC_NO := 17
  const END_OF_FILE := 0xfff

  // where things are loaded: BaseOfKernel * 16, and 0x1000 bytes below it for the FAT
  const KERNEL_BASE := 0x80000
  const FAT_BUFFER := 0x7f000
  const MEMORY_SIZE := 0x100000
  const SEGMENT := 0x10000

  type Disk = d: seq<Byte> | |d| == BPB_TOT_SEC * BPB_BYTS_PER_SEC witness seq(BPB_TOT_SEC * BPB_BYTS_PER_SEC, _ => 0)

  function Sector(disk: Disk, lba: nat): (s: seq<Byte>)
    requires lba < BPB_TOT_SEC
    ensures |s| == BPB_BYTS_PER_SEC
  {
    disk[lba * BPB_BYTS_PER_SEC..(lba + 1) * BPB_BYTS_PER_SEC]
  }

  // ---------------------------------------------------------------- LBA to CHS

  datatype Chs = Chs(cylinder: nat, head: nat, sector: nat)

  /** What `ReadSector` puts into ch, dh and cl. */
  function ToChs(lba: nat): Chs {
    var y, z := lba / BPB_SEC_PER_TRK, lba % BPB_SEC_PER_TRK;
    Chs(y / 2, y % 2, z + 1)
  }

  /** The sector the drive finds at a cylinder, head and (1-based) sector number. */
  function FromChs(a: Chs): int {
    (a.cylinder * BPB_NUM_HEADS + a.head) * BPB_SEC_PER_TRK + a.sector - 1
  }

  /** The conversion is inverted by the drive's geometry, stays inside it, and its one-byte
      division cannot overflow for any sector of the disk. */
  lemma ChsInverts(lba: nat)
    ensures FromChs(ToChs(lba)) == lba
    ensures 1 <= ToChs(lba).sector <= BPB_SEC_PER_TRK && ToChs(lba).head < BPB_NUM_HEADS
    ensures lba < BPB_TOT_SEC ==> lba / BPB_SEC_PER_TRK < 256 && ToChs(lba).cylinder < 80
  {
  }

  /** And no two sectors share an address. */
  lemma ChsUnique(a: Chs)
    requires 1 <= a.sector <= BPB_SEC_PER_TRK && a.head < BPB_NUM_HEADS
    ensures FromChs(a) >= 0 && ToChs(FromChs(a)) == a
  {
    var lba := FromChs(a);
    assert lba == (a.cylinder * 2 + a.head) * 18 + (a.sector - 1);
    assert lba / 18 == a.cylinder * 2 + a.head;
  }

  /** int 0x13, function 2: `count` consecutive sectors of one track into memory. */
  method BiosRead(disk: Disk, a: Chs, count: nat, mem: array<Byte>, at: nat)
    requires 1 <= a.sector && a.sector - 1 + count <= BPB_SEC_PER_TRK
    requires 0 <= FromChs(a) && FromChs(a) + count <= BPB_TOT_SEC
    requires at + count * BPB_BYTS_PER_SEC <= mem.Length
    modifies mem
    ensures forall j :: at <= j < at + count * BPB_BYTS_PER_SEC ==> mem[j] == disk[FromChs(a) * BPB_BYTS_PER_SEC + (j - at)]
    ensures forall i :: 0 <= i < mem.Length && !(at <= i < at + count * BPB_BYTS_PER_SEC) ==> mem[i] == old(mem[i])
  {
    forall j | at <= j < at + count * BPB_BYTS_PER_SEC {
      mem[j] := disk[FromChs(a) * BPB_BYTS_PER_SEC + (j - at)];
    }
  }

  method ReadSector(disk: Disk, lba: nat, count: nat, mem: array<Byte>, at: nat)
    requires lba + count <= BPB_TOT_SEC && lba % BPB_SEC_PER_TRK + count <= BPB_SEC_PER_TRK
    requires at + count * BPB_BYTS_PER_SEC <= mem.Length
    modifies mem
    ensures forall j :: at <= j < at + count * BPB_BYTS_PER_SEC ==> mem[j] == disk[lba * BPB_BYTS_PER_SEC + (j - at)]
    ensures forall i :: 0 <= i < mem.Length && !(at <= i < at + count * BPB_BYTS_PER_SEC) ==> mem[i] == old(mem[i])
  {
    ChsInverts(lba);
    BiosRead(disk, ToChs(lba), count, mem, at);
  }

  // ---------------------------------------------------------------- the table

  type Entry = e: int | 0 <= e < 4096

  /** Two 12-bit entries packed into three bytes, lower nibbles first. */
  function Pack(table: seq<Entry>): (bytes: seq<Byte>)
    requires |table| % 2 == 0
    ensures 2 * |bytes| == 3 * |table|
  {
    if table == [] then []
    else
      var a, b := table[0], table[1];
      [a % 256, a / 256 + b % 16 * 16, b / 16] + Pack(table[2..])
  }

  /** The entry the loader computes for n from the word at offset n*3/2 of the table. */
  function Unpack(low: Byte, high: Byte, odd: bool): Entry {
    var word: int := low + 256 * high;
    (if odd then word / 16 else word) % 4096
  }

  /** Unpacking entry n of a packed table gives back entry n. */
  lemma {:induction false} UnpackPacked(table: seq<Entry>, n: nat)
    requires |table| % 2 == 0 && n < |table|
    ensures var at := n * 3 / 2; var bytes := Pack(table);
      at + 1 < |bytes| && Unpack(bytes[at], bytes[at + 1], n * 3 % 2 == 1) == table[n]
  {
    if n >= 2 {
      UnpackPacked(table[2..], n - 2);
      assert n * 3 / 2 == (n - 2) * 3 / 2 + 3 && n * 3 % 2 == (n - 2) * 3 % 2;
      PackTail(table, (n - 2) * 3 / 2);
      PackTail(table, (n - 2) * 3 / 2 + 1);
    } else {
      UnpackPair(table[0], table[1]);
    }
  }

  lemma PackTail(table: seq<Entry>, i: nat)
    requires |table| % 2 == 0 && table != [] && i < |Pack(table[2..])|
    ensures i + 3 < |Pack(table)| && Pack(table)[i + 3] == Pack(table[2..])[i]
  {
  }

  /** Three bytes hold two entries. */
  lemma UnpackPair(a: int, b: int)
    requires 0 <= a < 4096 && 0 <= b < 4096
    ensures (a % 256 + 256 * (a / 256 + b % 16 * 16)) % 4096 == a
    ensures ((a / 256 + b % 16 * 16) + 256 * (b / 16)) / 16 % 4096 == b
  {
    assert a % 256 + 256 * (a / 256 + b % 16 * 16) == a + 4096 * (b % 16);
    assert (a / 256 + b % 16 * 16) + 256 * (b / 16) == a / 256 + 16 * b;
  }

  /** The value of entry n as the bytes of FAT1 say it. */
  function FatEntry(disk: Disk, n: nat): Entry
    requires n < 4096
  {
    var at := SEC_NO_OF_FAT1 * BPB_BYTS_PER_SEC + n * 3 / 2;
    Unpack(disk[at], disk[at + 1], n * 3 % 2 == 1)
  }

  /** FAT1 of the disk holds the packed table. */
  ghost predicate HoldsTable(disk: Disk, table: seq<Entry>) {
    && |table| % 2 == 0 && |table| <= 4096
    && (forall i :: 0 <= i < |Pack(table)| ==> disk[SEC_NO_OF_FAT1 * BPB_BYTS_PER_SEC + i] == Pack(table)[i])
  }

  lemma FatEntryIsTable(disk: Disk, table: seq<Entry>, n: nat)
    requires HoldsTable(disk, table) && n < |table|
    ensures FatEntry(disk, n) == table[n]
  {
    UnpackPacked(table, n);
  }

  /** `GetFATEntry`: two sectors are read because the entry may straddle them. */
  method GetFatEntry(disk: Disk, n: nat, mem: array<Byte>) returns (entry: Entry)
    requires n < 4096 && mem.Length == MEMORY_SIZE
    modifies mem
    ensures entry == FatEntry(disk, n)
    ensures forall i :: 0 <= i < mem.Length && !(FAT_BUFFER <= i < FAT_BUFFER + 2 * BPB_BYTS_PER_SEC) ==> mem[i] == old(mem[i])
  {
    var odd := n * 3 % 2;
    var offset := n * 3 / 2;
    var sector := offset / BPB_BYTS_PER_SEC;
    var bx := offset % BPB_BYTS_PER_SEC;
    ReadSector(disk, sector + SEC_NO_OF_FAT1, 2, mem, FAT_BUFFER);
    assert mem[FAT_BUFFER + bx] == disk[SEC_NO_OF_FAT1 * BPB_BYTS_PER_SEC + offset];
    assert mem[FAT_BUFFER + bx + 1] == disk[SEC_NO_OF_FAT1 * BPB_BYTS_PER_SEC + offset + 1];
    var low: int, high: int := mem[FAT_BUFFER + bx], mem[FAT_BUFFER + bx + 1];
    var word := low + 256 * high;
    if odd != 0 {
      word := word / 16;
    }
    entry := word % 4096;
  }

  // ---------------------------------------------------------------- loading a chain

  /** The first sector of a cluster (one sector per cluster). */
  function SectorOf(cluster: nat): nat {
    cluster + ROOT_DIR_SECTORS + DELTA_SEC_NO
  }

  predicate LinksTo(disk: Disk, a: nat, b: nat) {
    a < 4096 && FatEntry(disk, a) == b && b != END_OF_FILE
  }

  /** The file's clusters in order: linked through the table, the last one marked 0xFFF. */
  ghost predicate IsChain(disk: Disk, c: seq<nat>) {
    && |c| > 0
    && (forall i :: 0 <= i < |c| ==> SectorOf(c[i]) < BPB_TOT_SEC)
    && (forall i :: 0 <= i < |c| - 1 ==> LinksTo(disk, c[i], c[i + 1]))
    && FatEntry(disk, c[|c| - 1]) == END_OF_FILE
  }

  /** With k sectors loaded, the number of the last one that went to block b of the segment. */
  function LastInBlock(k: nat, b: nat): (j: nat)
    requires b < k && b < 128
    ensures j < k && j % 128 == b
  {
    b + 128 * ((k - 1 - b) / 128)
  }

  lemma LastInBlockStep(k: nat, b: nat)
    requires b < 128
    ensures k % 128 == b ==> b <= k && LastInBlock(k + 1, b) == k
    ensures b < k && k % 128 != b ==> LastInBlock(k + 1, b) == LastInBlock(k, b)
    ensures b == k ==> k % 128 == b
  {
    if b < k {
      Rounds(k - b);
      Division(k - b, 128);
      Division(k, 128);
      DivMod(k / 128, 0, 128);
      DivMod((k - b) / 128, b, 128);
    }
  }

  /** Only a full round begins a new one. */
  lemma Rounds(d: nat)
    requires d > 0
    ensures d % 128 != 0 ==> d / 128 == (d - 1) / 128
  {
    Division(d, 128);
    if d % 128 != 0 { DivMod(d / 128, d % 128 - 1, 128); }
  }

  /** Block b of the kernel segment. */
  function Block(m: seq<Byte>, b: nat): (s: seq<Byte>)
    requires |m| == MEMORY_SIZE && b < 128
    ensures |s| == BPB_BYTS_PER_SEC
  {
    m[KERNEL_BASE + b * BPB_BYTS_PER_SEC..KERNEL_BASE + (b + 1) * BPB_BYTS_PER_SEC]
  }

  /** After k sectors of the chain, each block of the kernel segment holds the last sector that
      was loaded into it. */
  ghost predicate Loaded(disk: Disk, c: seq<nat>, k: nat, m: seq<Byte>, before: seq<Byte>)
    requires |m| == |before| == MEMORY_SIZE && k <= |c|
    requires forall i :: 0 <= i < |c| ==> SectorOf(c[i]) < BPB_TOT_SEC
  {
    forall b :: 0 <= b < 128 ==>
      Block(m, b) == if b < k then Sector(disk, SectorOf(c[LastInBlock(k, b)])) else Block(before, b)
  }

  /** Writing sector k of the chain to its block keeps the picture. */
  lemma LoadedStep(disk: Disk, c: seq<nat>, k: nat, m: seq<Byte>, m': seq<Byte>, before: seq<Byte>)
    requires |m| == |m'| == |before| == MEMORY_SIZE && k < |c|
    requires forall i :: 0 <= i < |c| ==> SectorOf(c[i]) < BPB_TOT_SEC
    requires Loaded(disk, c, k, m, before)
    requires forall b :: 0 <= b < 128 ==>
      Block(m', b) == if b == k % 128 then Sector(disk, SectorOf(c[k])) else Block(m, b)
    ensures Loaded(disk, c, k + 1, m', before)
  {
    forall b | 0 <= b < 128
      ensures Block(m', b) == if b < k + 1 then Sector(disk, SectorOf(c[LastInBlock(k + 1, b)])) else Block(before, b)
    {
      LastInBlockStep(k, b);
      assert Block(m, b) == if b < k then Sector(disk, SectorOf(c[LastInBlock(k, b)])) else Block(before, b);
    }
  }

  /** The memory the loader may write: the FAT buffer and the kernel segment. */
  predicate InLoadArea(i: int) {
    FAT_BUFFER <= i < FAT_BUFFER + 2 * BPB_BYTS_PER_SEC || KERNEL_BASE <= i < KERNEL_BASE + SEGMENT
  }

  /** `loading_file`: read the cluster's sector, look up the next cluster, until 0xFFF. The offset
      wraps at the end of the 64 KB segment. */
  method LoadFile(disk: Disk, first: nat, ghost c: seq<nat>, mem: array<Byte>)
    requires mem.Length == MEMORY_SIZE && IsChain(disk, c) && c[0] == first
    modifies mem
    ensures Loaded(disk, c, |c|, mem[..], old(mem[..]))
    ensures forall i :: 0 <= i < mem.Length && !InLoadArea(i) ==> mem[i] == old(mem[i])
  {
    ghost var before := mem[..];
    var bx := 0;
    var cluster := first;
    ghost var k := 0;
    while true
      invariant 0 <= k < |c| && cluster == c[k] && bx == k % 128 * BPB_BYTS_PER_SEC
      invariant Loaded(disk, c, k, mem[..], before)
      invariant forall i :: 0 <= i < mem.Length && !InLoadArea(i) ==> mem[i] == before[i]
      decreases |c| - k
    {
      var entry := LoadCluster(disk, cluster, bx, mem, c, k, before);
      NextInChain(disk, c, k);
      if entry == END_OF_FILE {
        break;
      }
      cluster := entry;
      NextOffset(k);
      bx := (bx + BPB_BYTS_PER_SEC) % SEGMENT;
      k := k + 1;
    }
  }

  lemma NextInChain(disk: Disk, c: seq<nat>, k: nat)
    requires IsChain(disk, c) && k < |c|
    ensures FatEntry(disk, c[k]) == END_OF_FILE <==> k == |c| - 1
    ensures k < |c| - 1 ==> c[k + 1] == FatEntry(disk, c[k])
  {
    assert k < |c| - 1 ==> LinksTo(disk, c[k], c[k + 1]);
  }

  lemma NextOffset(k: nat)
    ensures (k % 128 * BPB_BYTS_PER_SEC + BPB_BYTS_PER_SEC) % SEGMENT == (k + 1) % 128 * BPB_BYTS_PER_SEC
  {
    assert (k + 1) % 128 == if k % 128 == 127 then 0 else k % 128 + 1;
  }

  /** One round: the cluster's sector to its place, and the cluster behind it. */
  method LoadCluster(disk: Disk, cluster: nat, bx: nat, mem: array<Byte>,
                     ghost c: seq<nat>, ghost k: nat, ghost before: seq<Byte>) returns (entry: nat)
    requires mem.Length == MEMORY_SIZE == |before| && IsChain(disk, c)
    requires k < |c| && cluster == c[k] && bx == k % 128 * BPB_BYTS_PER_SEC
    requires Loaded(disk, c, k, mem[..], before)
    modifies mem
    ensures entry == FatEntry(disk, cluster)
    ensures Loaded(disk, c, k + 1, mem[..], before)
    ensures forall i :: 0 <= i < mem.Length && !InLoadArea(i) ==> mem[i] == old(mem[i])
  {
    ghost var m := mem[..];
    NextInChain(disk, c, k);
    ReadSector(disk, SectorOf(cluster), 1, mem, KERNEL_BASE + bx);
    entry := GetFatEntry(disk, cluster, mem);
    BlockWritten(disk, SectorOf(cluster), k % 128, m, mem[..]);
    LoadedStep(disk, c, k, m, mem[..], before);
  }

  /** One sector written at block j, seen block by block. */
  lemma BlockWritten(disk: Disk, lba: nat, j: nat, m: seq<Byte>, m': seq<Byte>)
    requires lba < BPB_TOT_SEC && j < 128 && |m| == |m'| == MEMORY_SIZE
    requires var at := KERNEL_BASE + j * BPB_BYTS_PER_SEC;
      && (forall a :: at <= a < at + BPB_BYTS_PER_SEC ==> m'[a] == disk[lba * BPB_BYTS_PER_SEC + (a - at)])
      && (forall a :: KERNEL_BASE <= a < KERNEL_BASE + SEGMENT && !(at <= a < at + BPB_BYTS_PER_SEC) ==> m'[a] == m[a])
    ensures forall b :: 0 <= b < 128 ==> Block(m', b) == if b == j then Sector(disk, lba) else Block(m, b)
  {
    forall b | 0 <= b < 128 && b != j ensures Block(m', b) == Block(m, b) {
      forall i | 0 <= i < BPB_BYTS_PER_SEC ensures Block(m', b)[i] == Block(m, b)[i] {
        var a := KERNEL_BASE + b * BPB_BYTS_PER_SEC + i;
        assert m'[a] == m[a];
      }
    }
    assert Block(m', j) == Sector(disk, lba);
  }

  // ---------------------------------------------------------------- what is loaded

  /** The whole file: its sectors one after another. */
  function Contents(disk: Disk, c: seq<nat>): seq<Byte>
    requires forall i :: 0 <= i < |c| ==> SectorOf(c[i]) < BPB_TOT_SEC
  {
    if c == [] then [] else Contents(disk, c[..|c| - 1]) + Sector(disk, SectorOf(c[|c| - 1]))
  }

  lemma {:induction false} ContentsFromBlocks(disk: Disk, c: seq<nat>, m: seq<Byte>, k: nat)
    requires |m| == MEMORY_SIZE && k <= |c| && k <= 128
    requires forall i :: 0 <= i < |c| ==> SectorOf(c[i]) < BPB_TOT_SEC
    requires forall b :: 0 <= b < k ==> Block(m, b) == Sector(disk, SectorOf(c[b]))
    ensures Contents(disk, c[..k]) == m[KERNEL_BASE..KERNEL_BASE + k * BPB_BYTS_PER_SEC]
  {
    if k > 0 {
      ContentsFromBlocks(disk, c, m, k - 1);
      assert c[..k][..k - 1] == c[..k - 1];
      assert m[KERNEL_BASE..KERNEL_BASE + k * BPB_BYTS_PER_SEC] ==
        m[KERNEL_BASE..KERNEL_BASE + (k - 1) * BPB_BYTS_PER_SEC] + Block(m, k - 1);
    }
  }

  lemma FirstRound(k: nat, b: nat)
    requires b < k <= 128
    ensures LastInBlock(k, b) == b
  {
  }

  /** A file that fits the segment (at most 128 clusters) is in memory in order, from its start. */
  lemma WhenItFits(disk: Disk, c: seq<nat>, m: seq<Byte>, before: seq<Byte>)
    requires IsChain(disk, c) && |m| == |before| == MEMORY_SIZE && Loaded(disk, c, |c|, m, before)
    requires |c| <= 128
    ensures m[KERNEL_BASE..KERNEL_BASE + |c| * BPB_BYTS_PER_SEC] == Contents(disk, c)
  {
    forall b | 0 <= b < |c| ensures Block(m, b) == Sector(disk, SectorOf(c[b])) {
      FirstRound(|c|, b);
    }
    ContentsFromBlocks(disk, c, m, |c|);
    assert c[..|c|] == c;
  }

  lemma {:induction false} ContentsAt(disk: Disk, c: seq<nat>, b: nat)
    requires forall i :: 0 <= i < |c| ==> SectorOf(c[i]) < BPB_TOT_SEC
    requires b < |c|
    ensures |Contents(disk, c)| == |c| * BPB_BYTS_PER_SEC
    ensures Contents(disk, c)[b * BPB_BYTS_PER_SEC..(b + 1) * BPB_BYTS_PER_SEC] == Sector(disk, SectorOf(c[b]))
  {
    var front := c[..|c| - 1];
    if b < |front| {
      ContentsAt(disk, front, b);
      BlockOfFront(Contents(disk, front), Sector(disk, SectorOf(c[|c| - 1])), b);
    } else if front != [] {
      ContentsAt(disk, front, 0);
    }
  }

  lemma BlockOfFront(s: seq<Byte>, t: seq<Byte>, b: nat)
    requires (b + 1) * BPB_BYTS_PER_SEC <= |s|
    ensures (s + t)[b * BPB_BYTS_PER_SEC..(b + 1) * BPB_BYTS_PER_SEC] == s[b * BPB_BYTS_PER_SEC..(b + 1) * BPB_BYTS_PER_SEC]
  {
  }

  lemma SegmentByBlocks(s: seq<Byte>, t: seq<Byte>)
    requires |s| == |t| == SEGMENT
    ensures s == t <==> forall b :: 0 <= b < 128 ==> BlockOf(s, b) == BlockOf(t, b)
  {
    if forall b :: 0 <= b < 128 ==> BlockOf(s, b) == BlockOf(t, b) {
      forall i | 0 <= i < SEGMENT ensures s[i] == t[i] {
        var b, k := i / BPB_BYTS_PER_SEC, i % BPB_BYTS_PER_SEC;
        assert BlockOf(s, b)[k] == BlockOf(t, b)[k];
      }
    }
  }

  function BlockOf(s: seq<Byte>, b: nat): (r: seq<Byte>)
    requires |s| == SEGMENT && b < 128
    ensures |r| == BPB_BYTS_PER_SEC
  {
    s[b * BPB_BYTS_PER_SEC..(b + 1) * BPB_BYTS_PER_SEC]
  }

  /** Of a file that does not fit, the segment holds the first 64 KB exactly when every sector that
      was loaded over another equals the one it replaced. */
  lemma WhenItDoesNot(disk: Disk, c: seq<nat>, m: seq<Byte>, before: seq<Byte>)
    requires IsChain(disk, c) && |m| == |before| == MEMORY_SIZE && Loaded(disk, c, |c|, m, before)
    requires |c| > 128
    ensures |Contents(disk, c)| == |c| * BPB_BYTS_PER_SEC
    ensures m[KERNEL_BASE..KERNEL_BASE + SEGMENT] == Contents(disk, c)[..SEGMENT] <==>
      forall b :: 0 <= b < 128 ==>
        Sector(disk, SectorOf(c[LastInBlock(|c|, b)])) == Sector(disk, SectorOf(c[b]))
  {
    ContentsAt(disk, c, 0);
    var segment, start := m[KERNEL_BASE..KERNEL_BASE + SEGMENT], Contents(disk, c)[..SEGMENT];
    SegmentByBlocks(segment, start);
    forall b | 0 <= b < 128
      ensures BlockOf(segment, b) == Sector(disk, SectorOf(c[LastInBlock(|c|, b)]))
      ensures BlockOf(start, b) == Sector(disk, SectorOf(c[b]))
    {
      BlockOfSegment(m, b);
      BlockOfContents(disk, c, b);
      assert Block(m, b) == Sector(disk, SectorOf(c[LastInBlock(|c|, b)]));
    }
  }

  lemma BlockOfSegment(m: seq<Byte>, b: nat)
    requires |m| == MEMORY_SIZE && b < 128
    ensures BlockOf(m[KERNEL_BASE..KERNEL_BASE + SEGMENT], b) == Block(m, b)
  {
    SliceOfSlice(m, KERNEL_BASE, KERNEL_BASE + SEGMENT, b * BPB_BYTS_PER_SEC, (b + 1) * BPB_BYTS_PER_SEC);
  }

  lemma BlockOfContents(disk: Disk, c: seq<nat>, b: nat)
    requires (forall i :: 0 <= i < |c| ==> SectorOf(c[i]) < BPB_TOT_SEC) && |c| > 128 && b < 128
    ensures |Contents(disk, c)| >= SEGMENT
    ensures BlockOf(Contents(disk, c)[..SEGMENT], b) == Sector(disk, SectorOf(c[b]))
  {
    ContentsAt(disk, c, b);
    SliceOfSlice(Contents(disk, c), 0, SEGMENT, b * BPB_BYTS_PER_SEC, (b + 1) * BPB_BYTS_PER_SEC);
  }

  /** The same chain by the table that FAT1 holds packed. */
  ghost predicate TableChain(table: seq<Entry>, c: seq<nat>) {
    && |c| > 0
    && (forall i :: 0 <= i < |c| ==> SectorOf(c[i]) < BPB_TOT_SEC && c[i] < |table|)
    && (forall i {:trigger c[i]} :: 0 <= i < |c| - 1 ==> table[c[i]] == c[i + 1] && table[c[i]] != END_OF_FILE)
    && table[c[|c| - 1]] == END_OF_FILE
  }

  /** What the loader reads out of the packed bytes is what the table says: its chains are the
      table's. */
  lemma ChainOfTable(disk: Disk, table: seq<Entry>, c: seq<nat>)
    requires HoldsTable(disk, table) && forall i :: 0 <= i < |c| ==> c[i] < |table|
    ensures IsChain(disk, c) <==> TableChain(table, c)
  {
    forall i | 0 <= i < |c| ensures FatEntry(disk, c[i]) == table[c[i]] {
      FatEntryIsTable(disk, table, c[i]);
    }
    if IsChain(disk, c) {
      forall i {:trigger c[i]} | 0 <= i < |c| - 1 ensures table[c[i]] == c[i + 1] && table[c[i]] != END_OF_FILE {
        assert LinksTo(disk, c[i], c[i + 1]);
      }
    }
    if TableChain(table, c) {
      forall i | 0 <= i < |c| - 1 ensures LinksTo(disk, c[i], c[i + 1]) {
        assert table[c[i]] == c[i + 1];
      }
    }
  }

  /** So the kernel that LoadKernel loads is the file the table lays out from the first cluster of
      the first entry with its name. */
  lemma KernelOfTable(disk: Disk, table: seq<Entry>, e: nat, c: seq<nat>)
    requires HoldsTable(disk, table) && FirstNamed(disk, e) && TableChain(table, c) && c[0] == FirstCluster(disk, e)
    ensures forall d: nat :: FirstNamed(disk, d) ==> d == e && IsChain(disk, c) && c[0] == FirstCluster(disk, d)
  {
    ChainOfTable(disk, table, c);
    forall d: nat | FirstNamed(disk, d) ensures d == e {
    }
  }

  /** The chain from a cluster is unique, so what is loaded depends on the disk alone. */
  lemma {:induction false} ChainUnique(disk: Disk, c: seq<nat>, d: seq<nat>)
    requires IsChain(disk, c) && IsChain(disk, d) && c[0] == d[0]
    ensures c == d
    decreases |c|
  {
    if |c| == 1 {
      assert |d| > 1 ==> LinksTo(disk, d[0], d[1]);
    } else {
      assert LinksTo(disk, c[0], c[1]);
      assert |d| > 1 ==> LinksTo(disk, d[0], d[1]);
      ChainTail(disk, c);
      ChainTail(disk, d);
      ChainUnique(disk, c[1..], d[1..]);
      assert c == [c[0]] + c[1..] && d == [d[0]] + d[1..];
    }
  }

  lemma ChainTail(disk: Disk, c: seq<nat>)
    requires IsChain(disk, c) && |c| > 1
    ensures IsChain(disk, c[1..])
  {
    var t := c[1..];
    forall i | 0 <= i < |t| - 1 ensures LinksTo(disk, t[i], t[i + 1]) {
      assert LinksTo(disk, c[i + 1], c[i + 2]);
    }
  }

  // ---------------------------------------------------------------- the root directory

  const ENTRY_SIZE := 32
  const ENTRIES_PER_SECTOR := 16
  const DIR_FST_CLUS := 0x1a

  /** "KERNEL  BIN" in ASCII. */
  const KERNEL_NAME: seq<Byte> := [75, 69, 82, 78, 69, 76, 32, 32, 66, 73, 78]

  /** Byte i of directory entry e. */
  function DirByte(disk: Disk, e: nat, i: nat): Byte
    requires e < ROOT_DIR_SECTORS * ENTRIES_PER_SECTOR && i < ENTRY_SIZE
  {
    disk[SEC_NO_OF_ROOT_DIR * BPB_BYTS_PER_SEC + e * ENTRY_SIZE + i]
  }

  ghost predicate Named(disk: Disk, e: nat)
    requires e < ROOT_DIR_SECTORS * ENTRIES_PER_SECTOR
  {
    forall i :: 0 <= i < 11 ==> DirByte(disk, e, i) == KERNEL_NAME[i]
  }

  /** e is the first directory entry with the kernel's name. */
  ghost predicate FirstNamed(disk: Disk, e: nat) {
    && e < ROOT_DIR_SECTORS * ENTRIES_PER_SECTOR && Named(disk, e)
    && (forall d :: 0 <= d < e ==> !Named(disk, d))
  }

  function FirstCluster(disk: Disk, e: nat): nat
    requires e < ROOT_DIR_SECTORS * ENTRIES_PER_SECTOR
  {
    DirByte(disk, e, DIR_FST_CLUS) as int + 256 * DirByte(disk, e, DIR_FST_CLUS + 1) as int
  }

  /** The buffer holds sector k of the root directory. */
  ghost predicate HoldsDir(mem: array<Byte>, disk: Disk, k: nat)
    requires mem.Length == MEMORY_SIZE && k < ROOT_DIR_SECTORS
    reads mem
  {
    forall d, i :: 0 <= d < ENTRIES_PER_SECTOR && 0 <= i < ENTRY_SIZE ==>
      mem[KERNEL_BASE + DirAt(d, i)] == DirByte(disk, k * ENTRIES_PER_SECTOR + d, i)
  }

  function DirAt(d: nat, i: nat): nat { d * ENTRY_SIZE + i }

  /** `compare_file_name`: compare from di on; di is left past the last byte that matched. */
  method CompareName(mem: array<Byte>, start: nat) returns (same: bool, di: nat)
    requires mem.Length == MEMORY_SIZE && start + ENTRY_SIZE <= BPB_BYTS_PER_SEC
    ensures start <= di <= start + 11
    ensures same <==> (forall i :: 0 <= i < 11 ==> mem[KERNEL_BASE + start + i] == KERNEL_NAME[i])
  {
    di := start;
    var si := 0;
    while si < 11
      invariant 0 <= si <= 11 && di == start + si
      invariant forall i :: 0 <= i < si ==> mem[KERNEL_BASE + start + i] == KERNEL_NAME[i]
    {
      if mem[KERNEL_BASE + di] != KERNEL_NAME[si] {
        assert mem[KERNEL_BASE + start + si] != KERNEL_NAME[si];
        return false, di;
      }
      si := si + 1;
      di := di + 1;
    }
    same := true;
  }

  /** `search_kernel_in_root_dir`: the 14 sectors of the root directory, 16 entries each, in order;
      the first cluster of the first entry with the name. */
  method FindKernel(disk: Disk, mem: array<Byte>) returns (found: bool, cluster: nat, ghost e: nat)
    requires mem.Length == MEMORY_SIZE
    modifies mem
    ensures found ==> FirstNamed(disk, e) && cluster == FirstCluster(disk, e)
    ensures !found ==> forall d :: 0 <= d < ROOT_DIR_SECTORS * ENTRIES_PER_SECTOR ==> !Named(disk, d)
    ensures forall i :: 0 <= i < mem.Length && !InLoadArea(i) ==> mem[i] == old(mem[i])
  {
    var sector := SEC_NO_OF_ROOT_DIR;
    var left := ROOT_DIR_SECTORS;
    e := 0;
    while left != 0
      invariant 0 <= left <= ROOT_DIR_SECTORS && sector == SEC_NO_OF_ROOT_DIR + (ROOT_DIR_SECTORS - left)
      invariant forall d :: 0 <= d < (ROOT_DIR_SECTORS - left) * ENTRIES_PER_SECTOR ==> !Named(disk, d)
      invariant forall i :: 0 <= i < mem.Length && !InLoadArea(i) ==> mem[i] == old(mem[i])
    {
      ghost var k := ROOT_DIR_SECTORS - left;
      left := left - 1;
      ReadSector(disk, sector, 1, mem, KERNEL_BASE);
      assert HoldsDir(mem, disk, k);
      found, cluster, e := SearchSector(disk, k, mem);
      if found {
        return;
      }
      sector := sector + 1;
    }
    found, cluster := false, 0;
  }

  /** `search_for_kernel_bin`: the entries of the sector in the buffer. */
  method SearchSector(disk: Disk, ghost k: nat, mem: array<Byte>) returns (found: bool, cluster: nat, ghost e: nat)
    requires mem.Length == MEMORY_SIZE && k < ROOT_DIR_SECTORS && HoldsDir(mem, disk, k)
    requires forall d :: 0 <= d < k * ENTRIES_PER_SECTOR ==> !Named(disk, d)
    ensures found ==> FirstNamed(disk, e) && cluster == FirstCluster(disk, e)
    ensures !found ==> forall d :: 0 <= d < (k + 1) * ENTRIES_PER_SECTOR ==> !Named(disk, d)
  {
    var di := 0;
    var dx := ENTRIES_PER_SECTOR;
    ghost var n := 0;
    while dx != 0
      invariant 0 <= dx <= ENTRIES_PER_SECTOR && n == ENTRIES_PER_SECTOR - dx && di == n * ENTRY_SIZE
      invariant forall d :: 0 <= d < k * ENTRIES_PER_SECTOR + n ==> !Named(disk, d)
    {
      dx := dx - 1;
      var same, past := CompareName(mem, di);
      EntryNamed(mem, disk, k, n);
      di := past / ENTRY_SIZE * ENTRY_SIZE;
      if same {
        var low: int := mem[KERNEL_BASE + di + DIR_FST_CLUS];
        var high: int := mem[KERNEL_BASE + di + DIR_FST_CLUS + 1];
        e := k * ENTRIES_PER_SECTOR + n;
        assert low == mem[KERNEL_BASE + DirAt(n, DIR_FST_CLUS)];
        assert high == mem[KERNEL_BASE + DirAt(n, DIR_FST_CLUS + 1)];
        return true, low + 256 * high, e;
      }
      di := di + ENTRY_SIZE;
      n := n + 1;
    }
    found, cluster, e := false, 0, 0;
  }

  /** The bytes compared are the name of the directory entry. */
  lemma EntryNamed(mem: array<Byte>, disk: Disk, k: nat, n: nat)
    requires mem.Length == MEMORY_SIZE && k < ROOT_DIR_SECTORS && n < ENTRIES_PER_SECTOR && HoldsDir(mem, disk, k)
    ensures Named(disk, k * ENTRIES_PER_SECTOR + n) <==>
      (forall i :: 0 <= i < 11 ==> mem[KERNEL_BASE + n * ENTRY_SIZE + i] == KERNEL_NAME[i])
  {
    var e := k * ENTRIES_PER_SECTOR + n;
    forall i | 0 <= i < 11 ensures mem[KERNEL_BASE + n * ENTRY_SIZE + i] == DirByte(disk, e, i) {
      assert mem[KERNEL_BASE + DirAt(n, i)] == DirByte(disk, e, i);
    }
  }

  /** The loader from the disk to the kernel in memory: nothing is loaded when no entry has the
      name; otherwise the chain of the first one that does. */
  method LoadKernel(disk: Disk, ghost c: seq<nat>, mem: array<Byte>) returns (found: bool, ghost e: nat)
    requires mem.Length == MEMORY_SIZE
    requires forall d: nat :: FirstNamed(disk, d) ==> IsChain(disk, c) && c[0] == FirstCluster(disk, d)
    modifies mem
    ensures found <==> exists d: nat :: FirstNamed(disk, d)
    ensures found ==> FirstNamed(disk, e) && IsChain(disk, c) && c[0] == FirstCluster(disk, e)
    ensures found && |c| <= 128 ==>
      mem[KERNEL_BASE..KERNEL_BASE + |c| * BPB_BYTS_PER_SEC] == Contents(disk, c)
    ensures forall i :: 0 <= i < mem.Length && !InLoadArea(i) ==> mem[i] == old(mem[i])
  {
    var cluster;
    found, cluster, e := FindKernel(disk, mem);
    if found {
      ghost var before := mem[..];
      LoadFile(disk, cluster, c, mem);
      if |c| <= 128 {
        WhenItFits(disk, c, mem[..], before);
      }
    }
  }
}
