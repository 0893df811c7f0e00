/** A disk with partition tables written on it, and what the driver's slots hold once they are read. */
module PartitionImage {
  import opened Numbers
  import opened Partition

  /** Four bytes from `at` on, lowest first. */
  predicate Written(s: Sector, at: nat, w: Word)
    requires at + 4 <= SECTOR_SIZE
  {
    && s[at] == w % 256 && s[at + 1] == w / 256 % 256
    && s[at + 2] == w / 65536 % 256 && s[at + 3] == w / 0x100_0000
  }

  lemma WordReadsBack(s: Sector, at: nat, w: Word)
    requires at + 4 <= SECTOR_SIZE && Written(s, at, w)
    ensures WordAt(s, at) == w
  {
    var a := w / 256;
    var b := a / 256;
    assert w / 65536 == b && w / 0x100_0000 == b / 256;
  }

  /** Entry k of a boot record as the format has it: 16 bytes each from 446 on, the system in byte
      4, the first sector in bytes 8 to 11, the number of sectors in bytes 12 to 15. */
  predicate HasEntry(s: Sector, k: nat, system: Byte, start: Word, count: Word)
    requires k < 4
  {
    var at := 446 + 16 * k;
    s[at + 4] == system && Written(s, at + 8, start) && Written(s, at + 12, count)
  }

  /** What is written in an entry is what is read from it. */
  lemma EntryReadsBack(disk: Disk, sector: Word, k: nat, system: Byte, start: Word, count: Word)
    requires k < 4 && sector < TWO28 && HasEntry(disk(sector), k, system, start, count)
    ensures var e := Table(disk, sector)[k]; e.system == system && e.start == start && e.count == count
  {
    var s := disk(sector);
    WordReadsBack(s, 446 + 16 * k + 8, start);
    WordReadsBack(s, 446 + 16 * k + 12, count);
    assert Table(disk, sector)[k] == EntryOf(s, k);
  }

  /** A logical partition: the sector of its record, and its first sector and length. */
  datatype Volume = Volume(record: nat, first: nat, count: Word)

  /** The extended partition at ext holds these volumes: each has a record, at ext the first, that
      gives the volume's start counted from the record, and where the next record is, counted from
      ext; the last record gives none. */
  ghost predicate HoldsVolumes(disk: Disk, ext: Word, volumes: seq<Volume>) {
    && volumes != [] && volumes[0].record == ext
    && (forall k :: 0 <= k < |volumes| ==> HasRecord(disk, volumes[k]))
    && (forall k :: 0 <= k < |volumes| - 1 ==> LinksTo(disk, ext, volumes[k].record, volumes[k + 1].record))
    && LinksNowhere(disk, volumes[|volumes| - 1].record)
  }

  ghost predicate HasRecord(disk: Disk, v: Volume) {
    && v.record < TWO28 && v.record <= v.first < TWO32
    && exists system: Byte :: Describes(disk(v.record), system, v)
  }

  predicate Describes(s: Sector, system: Byte, v: Volume)
    requires v.record <= v.first < TWO32
  {
    HasEntry(s, 0, system, v.first - v.record, v.count)
  }

  ghost predicate LinksTo(disk: Disk, ext: Word, at: nat, next: nat) {
    ext <= next < TWO28 && exists system: Byte, count: Word :: Links(disk(at), ext, next, system, count)
  }

  predicate Links(s: Sector, ext: Word, next: nat, system: Byte, count: Word)
    requires ext <= next < TWO28
  {
    system != 0 && HasEntry(s, 1, system, next - ext, count)
  }

  ghost predicate LinksNowhere(disk: Disk, at: nat) {
    exists start: Word, count: Word :: HasEntry(disk(at), 1, 0, start, count)
  }

  lemma LinkFollows(disk: Disk, ext: Word, at: Word, next: Word)
    requires at < TWO28 && LinksTo(disk, ext, at, next)
    ensures Follows(disk, ext, at, next)
  {
    var system: Byte, count: Word :| Links(disk(at), ext, next, system, count);
    EntryReadsBack(disk, at, 1, system, next - ext, count);
  }

  lemma RecordIsRead(disk: Disk, v: Volume)
    requires HasRecord(disk, v)
    ensures Logical(disk, v.record) == Part(v.first, v.count)
  {
    var system: Byte :| Describes(disk(v.record), system, v);
    EntryReadsBack(disk, v.record, 0, system, v.first - v.record, v.count);
  }

  lemma LastRecord(disk: Disk, at: Word)
    requires at < TWO28 && LinksNowhere(disk, at)
    ensures Table(disk, at)[1].system == NO_PART
  {
    var start: Word, count: Word :| HasEntry(disk(at), 1, 0, start, count);
    EntryReadsBack(disk, at, 1, 0, start, count);
  }

  function Read(volumes: seq<Volume>): nat {
    if |volumes| < NR_SUB then |volumes| else NR_SUB
  }

  /** The records of the first sixteen volumes. */
  ghost function Records(disk: Disk, ext: Word, volumes: seq<Volume>): (r: seq<Word>)
    requires HoldsVolumes(disk, ext, volumes)
    ensures |r| == Read(volumes) && forall k :: 0 <= k < |r| ==> r[k] == volumes[k].record
  {
    seq(Read(volumes), k requires 0 <= k < Read(volumes) => (assert HasRecord(disk, volumes[k]); volumes[k].record))
  }

  lemma RecordsAreWalked(disk: Disk, ext: Word, volumes: seq<Volume>)
    requires HoldsVolumes(disk, ext, volumes)
    ensures Records(disk, ext, volumes) == Walk(disk, ext, ext, NR_SUB)
  {
    var r := Records(disk, ext, volumes);
    forall k | 1 <= k < |r| ensures Follows(disk, ext, r[k - 1], r[k]) {
      assert HasRecord(disk, volumes[k - 1]) && HasRecord(disk, volumes[k]);
      assert LinksTo(disk, ext, volumes[k - 1].record, volumes[k - 1 + 1].record);
      LinkFollows(disk, ext, r[k - 1], r[k]);
    }
    if |r| < NR_SUB {
      assert HasRecord(disk, volumes[|r| - 1]);
      LastRecord(disk, r[|r| - 1]);
    }
    WalkIsTheChain(disk, ext, r);
  }

  /** Reading an extended partition fills its slots with its volumes, the first sixteen, in order,
      and leaves the other slots. */
  lemma VolumesAreRead(disk: Disk, ext: Word, volumes: seq<Volume>, group: seq<Part>, group': seq<Part>)
    requires HoldsVolumes(disk, ext, volumes) && |group| == |group'| == NR_SUB
    requires GroupRead(disk, ext, group, group')
    ensures forall k :: 0 <= k < 16 ==>
      group'[k] == if k < |volumes| then Part(volumes[k].first, volumes[k].count) else group[k]
  {
    RecordsAreWalked(disk, ext, volumes);
    var r := Records(disk, ext, volumes);
    forall k | 0 <= k < |r| ensures Logicals(disk, r)[k] == Part(volumes[k].first, volumes[k].count) {
      assert HasRecord(disk, volumes[k]);
      RecordIsRead(disk, volumes[k]);
    }
  }

  lemma SlotIsRead(disk: Disk, j: nat, system: Byte, start: Word, count: Word, volumes: seq<Volume>,
                   prim: Part, group: seq<Part>, prim': Part, group': seq<Part>)
    requires 1 <= j <= NR_PART && HasEntry(disk(0), j - 1, system, start, count)
    requires system == 5 ==> HoldsVolumes(disk, start, volumes)
    requires |group| == |group'| == NR_SUB && SlotRead(disk, j, prim, group, prim', group')
    ensures prim' == if system == 0 then prim else Part(start, count)
    ensures system != 5 ==> group' == group
    ensures system == 5 ==> forall k :: 0 <= k < 16 ==>
      group'[k] == if k < |volumes| then Part(volumes[k].first, volumes[k].count) else group[k]
  {
    EntryReadsBack(disk, 0, j - 1, system, start, count);
    if system == 5 {
      VolumesAreRead(disk, start, volumes, group, group');
    }
  }

  lemma SlotOfGroup(logical: seq<Part>, j: nat, k: nat)
    requires |logical| == LOGICALS && 1 <= j <= NR_PART && k < 16
    ensures Group(logical, j)[k] == logical[16 * (j - 1) + k]
  {
  }

  /** Opening the drive for the first time leaves in every primary slot what its entry says, if there
      is one, and in its logical slots the volumes of an extended partition. Requests find them
      under minor numbers 1 to 4, and from 16 on sixteen for each primary slot. */
  method OpenWritten(drive: Drive, j: nat, system: Byte, start: Word, count: Word, ghost volumes: seq<Volume>)
    requires drive.Shaped() && drive.openCnt == 0 && 1 <= j <= NR_PART
    requires HasEntry(drive.disk(0), j - 1, system, start, count)
    requires system == 5 ==> HoldsVolumes(drive.disk, start, volumes)
    modifies drive`openCnt, drive.primary, drive.logical
    ensures drive.PartOf(0) == Part(0, drive.sectors)
    ensures drive.PartOf(j) == if system == 0 then old(drive.primary[j]) else Part(start, count)
    ensures system != 5 ==> Group(drive.logical[..], j) == Group(old(drive.logical[..]), j)
    ensures system == 5 ==> forall k: nat :: k < 16 ==>
      drive.PartOf(16 * j + k) ==
        if k < |volumes| then Part(volumes[k].first, volumes[k].count) else Group(old(drive.logical[..]), j)[k]
  {
    ghost var prim, was := drive.primary[j], Group(drive.logical[..], j);
    drive.Open();
    SlotIsRead(drive.disk, j, system, start, count, volumes, prim, was, drive.primary[j], Group(drive.logical[..], j));
    forall k: nat | k < 16
      ensures drive.PartOf(16 * j + k) == Group(drive.logical[..], j)[k]
    {
      SlotOfGroup(drive.logical[..], j, k);
    }
  }
}
