/** The first hard disk: its partition tables read into the driver's slots, and the sector address
    a request is sent out with. */
module Partition {
  import opened Numbers

  const NR_PART := 4
  const NR_SUB := 16
  const LOGICALS := NR_SUB * NR_PART
  const MAX_PRIM := 9
  const MINOR_HD1A := 0x10
  const SECTOR_SIZE := 512
  const TABLE_OFFSET := 0x1BE
  const NO_PART := 0
  const EXT_PART := 5

  // ---------------------------------------------------------------- the command registers

  datatype Cmd = Cmd(nSector: Byte, lbaLow: Byte, lbaMid: Byte, lbaHigh: Byte, device: Byte)

  /** The bytes for a sector: 24 bits in three registers, four in the device register beside the
      fixed bits and the LBA bit; drive 0. */
  function Command(sector: Word, n: Byte): Cmd {
    Cmd(n, sector % 256, sector / 256 % 256, sector / 65536 % 256, 0xE0 + sector / 0x100_0000 % 16)
  }

  /** The sector the drive takes the registers to mean. */
  function Lba(cmd: Cmd): nat {
    cmd.lbaLow + 256 * cmd.lbaMid + 65536 * cmd.lbaHigh + 0x100_0000 * (cmd.device % 16)
  }

  /** The device byte: bits 5 and 7 are always set, bit 6 asks for sector numbers instead of
      cylinders and heads, and bit 4 names the drive. */
  predicate SectorsOfDriveZero(device: Byte) {
    device / 32 % 2 == 1 && device / 128 == 1 && device / 64 % 2 == 1 && device / 16 % 2 == 0
  }

  /** The registers hold the low 28 bits, and the upper bits are lost; they ask drive 0 for n
      sectors by number. */
  lemma CommandNames(sector: Word, n: Byte)
    ensures SectorsOfDriveZero(Command(sector, n).device) && Command(sector, n).nSector == n
    ensures Lba(Command(sector, n)) == sector % TWO28
    ensures Lba(Command(sector, n)) == sector <==> sector < TWO28
  {
    var a := sector / 256;
    var b := a / 256;
    var c := b / 256;
    assert sector / 65536 == b && sector / 0x100_0000 == c;
    assert sector == sector % 256 + 256 * (a % 256) + 65536 * (b % 256) + 0x100_0000 * c;
    assert c == 16 * (c / 16) + c % 16;
    assert sector == TWO28 * (c / 16) + Lba(Command(sector, n));
  }

  // ---------------------------------------------------------------- tables on the disk

  type Sector = s: seq<Byte> | |s| == SECTOR_SIZE witness seq(SECTOR_SIZE, _ => 0)

  type Disk = nat -> Sector

  datatype Entry = Entry(system: Byte, start: Word, count: Word)

  datatype Part = Part(base: Word, count: Word)

  function WordAt(s: Sector, at: nat): Word
    requires at + 4 <= SECTOR_SIZE
  {
    s[at] as int + 0x100 * s[at + 1] as int + 0x1_0000 * s[at + 2] as int + 0x100_0000 * s[at + 3] as int
  }

  /** The k-th of the four 16-byte entries of a boot record. */
  function EntryOf(s: Sector, k: nat): Entry
    requires k < NR_PART
  {
    var at := TABLE_OFFSET + 16 * k;
    Entry(s[at + 4], WordAt(s, at + 8), WordAt(s, at + 12))
  }

  function Table(disk: Disk, sector: Word): (t: seq<Entry>)
    ensures |t| == NR_PART
  {
    var s := disk(sector % TWO28);
    [EntryOf(s, 0), EntryOf(s, 1), EntryOf(s, 2), EntryOf(s, 3)]
  }

  // ---------------------------------------------------------------- the chain of an extended partition

  /** A chain of boot records: the first at the start of the extended partition, each next one
      where the second entry of the one before says, counted from that same start; it goes on as
      long as there is a second entry, up to 16 records. */
  predicate IsWalk(disk: Disk, ext: Word, r: seq<Word>) {
    && 0 < |r| <= NR_SUB && r[0] == ext
    && (forall k :: 1 <= k < |r| ==> Follows(disk, ext, r[k - 1], r[k]))
    && (|r| == NR_SUB || Table(disk, r[|r| - 1])[1].system == NO_PART)
  }

  predicate Follows(disk: Disk, ext: Word, at: Word, next: Word) {
    Table(disk, at)[1].system != NO_PART && next == Link(ext, Table(disk, at)[1])
  }

  function Link(ext: Word, link: Entry): Word {
    (ext + link.start) % TWO32
  }

  /** A logical partition starts where the first entry says, counted from its own record. */
  function Logical(disk: Disk, at: Word): Part {
    Part((at + Table(disk, at)[0].start) % TWO32, Table(disk, at)[0].count)
  }

  function Logicals(disk: Disk, r: seq<Word>): (parts: seq<Part>)
    ensures |parts| == |r| && forall k :: 0 <= k < |r| ==> parts[k] == Logical(disk, r[k])
  {
    seq(|r|, k requires 0 <= k < |r| => Logical(disk, r[k]))
  }

  function Walk(disk: Disk, ext: Word, at: Word, n: nat): (r: seq<Word>)
    requires 0 < n
    ensures 0 < |r| <= n && r[0] == at
    decreases n, at
  {
    var link := Table(disk, at)[1];
    if n == 1 || link.system == NO_PART then [at]
    else [at] + Walk(disk, ext, Link(ext, link), n - 1)
  }

  lemma {:induction false} WalkFollows(disk: Disk, ext: Word, at: Word, n: nat)
    requires 0 < n
    ensures var r := Walk(disk, ext, at, n);
      && (forall k :: 1 <= k < |r| ==> Follows(disk, ext, r[k - 1], r[k]))
      && (|r| == n || Table(disk, r[|r| - 1])[1].system == NO_PART)
    decreases n
  {
    var link := Table(disk, at)[1];
    if n > 1 && link.system != NO_PART {
      var next := Link(ext, link);
      WalkFollows(disk, ext, next, n - 1);
      var rest := Walk(disk, ext, next, n - 1);
      var r := [at] + rest;
      forall k | 1 <= k < |r| ensures Follows(disk, ext, r[k - 1], r[k]) {
        if k > 1 { assert r[k - 1] == rest[k - 2] && r[k] == rest[k - 1]; }
      }
    }
  }

  /** There is one chain only, and it is the one that is walked. */
  lemma WalkIsTheChain(disk: Disk, ext: Word, r: seq<Word>)
    ensures IsWalk(disk, ext, r) <==> r == Walk(disk, ext, ext, NR_SUB)
  {
    WalkFollows(disk, ext, ext, NR_SUB);
    if IsWalk(disk, ext, r) {
      SameWalk(disk, ext, r, 0);
    }
  }

  lemma {:induction false} SameWalk(disk: Disk, ext: Word, r: seq<Word>, k: nat)
    requires IsWalk(disk, ext, r) && k < |r|
    ensures r[k..] == Walk(disk, ext, r[k], NR_SUB - k)
    decreases |r| - k
  {
    if k + 1 < |r| {
      assert Follows(disk, ext, r[k + 1 - 1], r[k + 1]);
      SameWalk(disk, ext, r, k + 1);
      assert r[k..] == [r[k]] + r[k + 1..];
    }
  }

  // ---------------------------------------------------------------- the driver's slots

  /** The sixteen logical slots of primary slot j. */
  function Group(slots: seq<Part>, j: nat): (g: seq<Part>)
    requires |slots| == LOGICALS && 1 <= j <= NR_PART
    ensures |g| == NR_SUB
  {
    slots[(j - 1) * NR_SUB..j * NR_SUB]
  }

  /** What reading the disk leaves in primary slot j and its logical slots, given what was there. */
  ghost predicate SlotRead(disk: Disk, j: nat, prim: Part, group: seq<Part>, prim': Part, group': seq<Part>)
    requires 1 <= j <= NR_PART && |group| == |group'| == NR_SUB
  {
    var e := Table(disk, 0)[j - 1];
    if e.system == NO_PART then prim' == prim && group' == group
    else
      && prim' == Part(e.start, e.count)
      && (e.system != EXT_PART ==> group' == group)
      && (e.system == EXT_PART ==> GroupRead(disk, e.start, group, group'))
  }

  /** The logical partitions of the chain, in order, and behind them what was there. */
  ghost predicate GroupRead(disk: Disk, ext: Word, group: seq<Part>, group': seq<Part>)
    requires |group| == |group'| == NR_SUB
  {
    var r := Walk(disk, ext, ext, NR_SUB);
    group' == Logicals(disk, r) + group[|r|..]
  }

  lemma FilledGroups(was: seq<Part>, slots: seq<Part>, disk: Disk, j: nat, r: seq<Word>)
    requires |was| == |slots| == LOGICALS && 1 <= j <= NR_PART && |r| <= NR_SUB
    requires forall k :: 0 <= k < LOGICALS && !((j - 1) * NR_SUB <= k < (j - 1) * NR_SUB + |r|) ==> slots[k] == was[k]
    requires forall k :: (j - 1) * NR_SUB <= k < (j - 1) * NR_SUB + |r| ==>
      slots[k] == Logical(disk, r[k - (j - 1) * NR_SUB])
    ensures Group(slots, j) == Logicals(disk, r) + Group(was, j)[|r|..]
    ensures forall k :: 1 <= k <= NR_PART && k != j ==> Group(slots, k) == Group(was, k)
  {
    var sub := (j - 1) * NR_SUB;
    var group := Logicals(disk, r) + Group(was, j)[|r|..];
    forall i | 0 <= i < NR_SUB ensures Group(slots, j)[i] == group[i] {
      assert Group(slots, j)[i] == slots[sub + i] && Group(was, j)[i] == was[sub + i];
    }
    forall k | 1 <= k <= NR_PART && k != j ensures Group(slots, k) == Group(was, k) {
      forall i | 0 <= i < NR_SUB ensures Group(slots, k)[i] == Group(was, k)[i] {
        assert Group(slots, k)[i] == slots[(k - 1) * NR_SUB + i] && Group(was, k)[i] == was[(k - 1) * NR_SUB + i];
      }
    }
  }

  /** A minor number of this drive: 0 is the whole disk, 1 to 4 are the primary slots, and from
      MINOR_HD1A on the logical ones. */
  predicate Minor(dev: nat) {
    dev <= NR_PART || MINOR_HD1A <= dev < MINOR_HD1A + LOGICALS
  }

  class Drive {
    var openCnt: int
    const primary: array<Part>
    const logical: array<Part>
    const disk: Disk
    // the words 60 and 61 of the drive's identity
    const sectors: Word

    ghost predicate Shaped() {
      primary.Length == NR_PART + 1 && logical.Length == LOGICALS && primary != logical
    }

    constructor (disk: Disk, sectors: Word)
      ensures Shaped() && fresh(primary) && fresh(logical) && openCnt == 0
      ensures this.disk == disk && this.sectors == sectors
      ensures (forall i :: 0 <= i <= NR_PART ==> primary[i] == Part(0, 0))
      ensures (forall i :: 0 <= i < LOGICALS ==> logical[i] == Part(0, 0))
    {
      openCnt := 0;
      primary := new Part[NR_PART + 1](_ => Part(0, 0));
      logical := new Part[LOGICALS](_ => Part(0, 0));
      this.disk, this.sectors := disk, sectors;
    }

    /** `get_partition_table`: the drive answers with the sector the registers name. */
    method GetPartitionTable(sector: Word) returns (table: seq<Entry>)
      ensures table == Table(disk, sector)
    {
      var cmd := Command(sector, 1);
      CommandNames(sector, 1);
      var data := disk(Lba(cmd));
      table := [EntryOf(data, 0), EntryOf(data, 1), EntryOf(data, 2), EntryOf(data, 3)];
    }

    /** One round of the extended walk. */
    method ReadRecord(slot: nat, at: Word) returns (link: Entry)
      requires Shaped() && slot < LOGICALS
      modifies logical
      ensures logical[slot] == Logical(disk, at)
      ensures forall k :: 0 <= k < LOGICALS && k != slot ==> logical[k] == old(logical[k])
      ensures link == Table(disk, at)[1]
    {
      var table := GetPartitionTable(at);
      logical[slot] := Part((at + table[0].start) % TWO32, table[0].count);
      link := table[1];
    }

    /** The loop of the extended walk: the records visited are the chain. */
    method WalkRecords(ext: Word, sub: nat) returns (ghost visited: seq<Word>)
      requires Shaped() && sub + NR_SUB <= LOGICALS
      modifies logical
      ensures IsWalk(disk, ext, visited)
      ensures forall k :: 0 <= k < LOGICALS && !(sub <= k < sub + |visited|) ==> logical[k] == old(logical[k])
      ensures forall k :: sub <= k < sub + |visited| ==> logical[k] == Logical(disk, visited[k - sub])
    {
      var next: Word := ext;
      visited := [];
      var i := 0;
      while i < NR_SUB
        invariant 0 <= i == |visited| <= NR_SUB
        invariant if i == 0 then next == ext else visited[0] == ext && Follows(disk, ext, visited[i - 1], next)
        invariant forall k :: 1 <= k < i ==> Follows(disk, ext, visited[k - 1], visited[k])
        invariant forall k :: 0 <= k < LOGICALS && !(sub <= k < sub + i) ==> logical[k] == old(logical[k])
        invariant forall k :: sub <= k < sub + i ==> logical[k] == Logical(disk, visited[k - sub])
      {
        visited := visited + [next];
        var link := ReadRecord(sub + i, next);
        i := i + 1;
        next := Link(ext, link);
        if link.system == NO_PART {
          break;
        }
      }
    }

    /** `handle_partition`, extended. */
    method ReadExtended(j: nat)
      requires Shaped() && 1 <= j <= NR_PART
      modifies logical
      ensures GroupRead(disk, primary[j].base, Group(old(logical[..]), j), Group(logical[..], j))
      ensures forall k :: 1 <= k <= NR_PART && k != j ==> Group(logical[..], k) == Group(old(logical[..]), k)
    {
      ghost var was := logical[..];
      ghost var visited := WalkRecords(primary[j].base, (j - 1) * NR_SUB);
      WalkIsTheChain(disk, primary[j].base, visited);
      FilledGroups(was, logical[..], disk, j, visited);
    }

    method ReadSlot(j: nat, e: Entry)
      requires Shaped() && 1 <= j <= NR_PART && e == Table(disk, 0)[j - 1]
      modifies primary, logical
      ensures SlotRead(disk, j, old(primary[j]), Group(old(logical[..]), j), primary[j], Group(logical[..], j))
      ensures forall k :: 0 <= k <= NR_PART && k != j ==> primary[k] == old(primary[k])
      ensures forall k :: 1 <= k <= NR_PART && k != j ==> Group(logical[..], k) == Group(old(logical[..]), k)
    {
      if e.system != NO_PART {
        primary[j] := Part(e.start, e.count);
        if e.system == EXT_PART {
          ReadExtended(j);
        }
      }
    }

    /** `handle_partition`, primary: every slot is read on its own. */
    method ReadPrimary()
      requires Shaped()
      modifies primary, logical
      ensures primary[0] == old(primary[0])
      ensures forall j :: 1 <= j <= NR_PART ==>
        SlotRead(disk, j, old(primary[j]), Group(old(logical[..]), j), primary[j], Group(logical[..], j))
    {
      var table := GetPartitionTable(0);
      ghost var was := logical[..];
      var i := 0;
      while i < NR_PART
        invariant 0 <= i <= NR_PART && primary[0] == old(primary[0])
        invariant forall j :: 1 <= j <= i ==>
          SlotRead(disk, j, old(primary[j]), Group(was, j), primary[j], Group(logical[..], j))
        invariant forall j :: i < j <= NR_PART ==>
          primary[j] == old(primary[j]) && Group(logical[..], j) == Group(was, j)
      {
        ReadSlot(i + 1, table[i]);
        i := i + 1;
      }
    }

    /** `hdd_open`: the first open after the last close reads the tables. */
    method Open()
      requires Shaped()
      modifies this`openCnt, primary, logical
      ensures openCnt == old(openCnt) + 1 && primary[0] == Part(0, sectors)
      ensures forall j :: 1 <= j <= NR_PART ==>
        if old(openCnt) == 0
        then SlotRead(disk, j, old(primary[j]), Group(old(logical[..]), j), primary[j], Group(logical[..], j))
        else primary[j] == old(primary[j]) && Group(logical[..], j) == Group(old(logical[..]), j)
    {
      primary[0] := Part(0, sectors);
      openCnt := openCnt + 1;
      if openCnt - 1 == 0 {
        ReadPrimary();
      }
    }

    method Close()
      modifies this`openCnt
      ensures openCnt == old(openCnt) - 1
    {
      openCnt := openCnt - 1;
    }

    /** The partition a request for a minor number means. */
    function PartOf(dev: nat): Part
      requires Shaped() && Minor(dev)
      reads primary, logical
    {
      if dev <= NR_PART then primary[dev] else logical[dev - MINOR_HD1A]
    }

    method BaseOf(dev: nat) returns (base: Word)
      requires Shaped() && Minor(dev)
      ensures base == PartOf(dev).base
    {
      if dev < MAX_PRIM {
        base := primary[dev].base;
      } else {
        LogicalIndex(dev);
        base := logical[(dev - MINOR_HD1A) % LOGICALS].base;
      }
    }

    /** The command of `hdd_read_write`. */
    method ReadWriteCommand(dev: nat, pos: nat, cnt: nat) returns (cmd: Cmd)
      requires Shaped() && Minor(dev) && pos < TWO32 * TWO32
      ensures Lba(cmd) == (PartOf(dev).base + pos / SECTOR_SIZE) % TWO28
      ensures PartOf(dev).base + pos / SECTOR_SIZE < TWO28 ==> Lba(cmd) == PartOf(dev).base + pos / SECTOR_SIZE
      ensures cnt <= 255 * SECTOR_SIZE ==> Covers(cmd.nSector, cnt)
      ensures SectorsOfDriveZero(cmd.device)
    {
      var base := BaseOf(dev);
      cmd := Request(base, pos, cnt);
      RequestNames(base, pos, cnt);
    }
  }

  lemma LogicalIndex(dev: nat)
    requires MINOR_HD1A <= dev < MINOR_HD1A + LOGICALS
    ensures (dev - MINOR_HD1A) % LOGICALS == dev - MINOR_HD1A
  {
  }

  /** `DEV_TO_DRV`, which counts minor number 9 with the primary slots. */
  function DevToDrv(dev: nat): int {
    if dev <= MAX_PRIM then dev / (NR_PART + 1) else CDiv(dev - MINOR_HD1A, LOGICALS)
  }

  /** The slot `hdd_read_write` looks up for a minor number exists; it counts 9 with the logical ones. */
  predicate HasSlot(dev: nat) {
    if dev < MAX_PRIM then dev <= NR_PART else 0 <= CRem(dev - MINOR_HD1A, LOGICALS)
  }

  /** The driver's two computations find drive 0 and a slot of it for exactly the minor numbers that
      mean one. */
  lemma MinorIsExact(dev: nat)
    ensures DevToDrv(dev) == 0 && HasSlot(dev) <==> Minor(dev)
  {
    if dev >= MINOR_HD1A {
      Division(dev - MINOR_HD1A, LOGICALS);
    }
  }

  function Request(base: Word, pos: nat, cnt: nat): Cmd {
    Command(SectorFor(base, pos), SectorCount(cnt))
  }

  function SectorFor(base: Word, pos: nat): Word {
    (pos / SECTOR_SIZE % TWO32 + base) % TWO32
  }

  function SectorCount(cnt: nat): Byte {
    (cnt + SECTOR_SIZE - 1) / SECTOR_SIZE % 256
  }

  /** So many sectors, and no fewer, hold so many bytes. */
  predicate Covers(sectors: nat, cnt: nat) {
    sectors * SECTOR_SIZE - SECTOR_SIZE < cnt <= sectors * SECTOR_SIZE
  }

  /** A request names the sector it means, as far as 28 bits hold it. */
  lemma RequestNames(base: Word, pos: nat, cnt: nat)
    ensures Lba(Request(base, pos, cnt)) == (base + pos / SECTOR_SIZE) % TWO28
    ensures base + pos / SECTOR_SIZE < TWO28 ==> Lba(Request(base, pos, cnt)) == base + pos / SECTOR_SIZE
    ensures cnt <= 255 * SECTOR_SIZE ==> Covers(Request(base, pos, cnt).nSector, cnt)
    ensures SectorsOfDriveZero(Request(base, pos, cnt).device)
  {
    CommandNames(SectorFor(base, pos), SectorCount(cnt));
    SectorForMod(base, pos);
    SectorCountCovers(cnt);
  }

  lemma SectorForMod(base: Word, pos: nat)
    ensures SectorFor(base, pos) % TWO28 == (base + pos / SECTOR_SIZE) % TWO28
    ensures base + pos / SECTOR_SIZE < TWO28 ==> (base + pos / SECTOR_SIZE) % TWO28 == base + pos / SECTOR_SIZE
  {
    SumMod(pos / SECTOR_SIZE, base);
  }

  lemma SectorCountCovers(cnt: nat)
    ensures cnt <= 255 * SECTOR_SIZE ==> Covers(SectorCount(cnt), cnt)
  {
    var up := cnt + SECTOR_SIZE - 1;
    Division(up, SECTOR_SIZE);
  }

  lemma SumMod(a: nat, b: nat)
    ensures (a % TWO32 + b) % TWO32 % TWO28 == (b + a) % TWO28
  {
    var c := a % TWO32 + b;
    var u := c % TWO32;
    Division(a, TWO32);
    Division(c, TWO32);
    Division(u, TWO28);
    DivMod(16 * (a / TWO32) + 16 * (c / TWO32) + u / TWO28, u % TWO28, TWO28);
  }
}
