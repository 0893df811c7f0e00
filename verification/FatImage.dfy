/** A floppy laid out as the boot sector's fields say: reserved sector, two tables, root directory,
    and then the clusters, numbered from 2. What the loader reads is read off that layout. */
module FatImage {
  import opened Numbers
  import opened Sequences
  import opened Fat12

  // the fields of the boot sector
  const RESVD_SEC_CNT := 1
  const NUM_FATS := 2
  const FAT_SZ := 9
  const ROOT_ENT_CNT := 224

  datatype Image = Image(boot: seq<Byte>, fat: seq<Byte>, copy: seq<Byte>, root: seq<Byte>, data: seq<seq<Byte>>)
  {
    predicate Shaped() {
      && |boot| == RESVD_SEC_CNT * 512
      && NUM_FATS == 2 && |fat| == |copy| == FAT_SZ * 512
      && |root| == ROOT_ENT_CNT * 32
      && (forall k :: 0 <= k < |data| ==> |data[k]| == 512)
      && |boot| + |fat| + |copy| + |root| + 512 * |data| == 2880 * 512
    }
  }

  function Flat(data: seq<seq<Byte>>): seq<Byte> {
    if data == [] then [] else data[0] + Flat(data[1..])
  }

  ghost predicate LaidOut(disk: Disk, im: Image) {
    im.Shaped() && disk == im.boot + im.fat + im.copy + im.root + Flat(im.data)
  }

  lemma {:induction false} FlatAt(data: seq<seq<Byte>>, k: nat)
    requires k <= |data| && forall i :: 0 <= i < |data| ==> |data[i]| == 512
    ensures |Flat(data)| == 512 * |data|
    ensures k < |data| ==> Flat(data)[512 * k..512 * (k + 1)] == data[k]
  {
    if data != [] {
      FlatAt(data[1..], if k == 0 then 0 else k - 1);
      if 0 < k < |data| {
        var rest := Flat(data[1..]);
        Behind(data[0], rest, 512 * (k - 1), 512 * k);
      } else if k == 0 {
        assert Flat(data)[..512] == data[0];
      }
    }
  }

  lemma Behind(a: seq<Byte>, b: seq<Byte>, i: nat, j: nat)
    requires i <= j <= |b|
    ensures (a + b)[|a| + i..|a| + j] == b[i..j]
  {
  }

  /** Cluster n is where the layout puts it. */
  lemma ClusterSector(disk: Disk, im: Image, n: nat)
    requires LaidOut(disk, im) && 2 <= n < 2 + |im.data|
    ensures SectorOf(n) < BPB_TOT_SEC && Sector(disk, SectorOf(n)) == im.data[n - 2]
  {
    FlatAt(im.data, n - 2);
    var front := im.boot + im.fat + im.copy + im.root;
    assert disk == front + Flat(im.data);
    assert |front| == 33 * 512;
    Behind(front, Flat(im.data), 512 * (n - 2), 512 * (n - 1));
  }

  /** The clusters of a chain one after the other. */
  function FileOf(im: Image, c: seq<nat>): seq<Byte>
    requires forall i :: 0 <= i < |c| ==> 2 <= c[i] < 2 + |im.data|
  {
    if c == [] then [] else FileOf(im, c[..|c| - 1]) + im.data[c[|c| - 1] - 2]
  }

  lemma {:induction false} ContentsAreClusters(disk: Disk, im: Image, c: seq<nat>)
    requires LaidOut(disk, im) && forall i :: 0 <= i < |c| ==> 2 <= c[i] < 2 + |im.data|
    ensures forall i :: 0 <= i < |c| ==> SectorOf(c[i]) < BPB_TOT_SEC
    ensures Contents(disk, c) == FileOf(im, c)
  {
    forall i | 0 <= i < |c| ensures SectorOf(c[i]) < BPB_TOT_SEC {
      ClusterSector(disk, im, c[i]);
    }
    if c != [] {
      ContentsAreClusters(disk, im, c[..|c| - 1]);
      ClusterSector(disk, im, c[|c| - 1]);
    }
  }

  /** The first table of the image is the one the loader reads. */
  lemma TableOfImage(disk: Disk, im: Image, table: seq<Entry>)
    requires LaidOut(disk, im) && |table| % 2 == 0 && |Pack(table)| <= |im.fat| && im.fat[..|Pack(table)|] == Pack(table)
    ensures HoldsTable(disk, table)
  {
    forall i | 0 <= i < |Pack(table)| ensures disk[SEC_NO_OF_FAT1 * BPB_BYTS_PER_SEC + i] == Pack(table)[i] {
      assert disk[512 + i] == im.fat[i] == im.fat[..|Pack(table)|][i];
    }
  }

  /** A directory entry as it is written: name, attributes and times, first cluster, size. */
  function EntryBytes(name: seq<Byte>, other: seq<Byte>, cluster: nat, size: seq<Byte>): (b: seq<Byte>)
    requires |name| == 11 && |other| == 15 && cluster < 0x10000 && |size| == 4
    ensures |b| == 32
  {
    name + other + [cluster % 256, cluster / 256] + size
  }

  lemma RootByte(disk: Disk, im: Image, e: nat, i: nat)
    requires LaidOut(disk, im) && e < ROOT_ENT_CNT && i < 32
    ensures DirByte(disk, e, i) == im.root[e * 32 + i]
  {
    assert disk[19 * 512 + (e * 32 + i)] == (im.root + Flat(im.data))[e * 32 + i];
  }

  /** The loader reads name and first cluster of an entry where they were written. */
  lemma EntryReadsBack(disk: Disk, im: Image, e: nat, name: seq<Byte>, other: seq<Byte>, cluster: nat, size: seq<Byte>)
    requires LaidOut(disk, im) && e < ROOT_ENT_CNT
    requires |name| == 11 && |other| == 15 && cluster < 0x10000 && |size| == 4
    requires im.root[e * 32..(e + 1) * 32] == EntryBytes(name, other, cluster, size)
    ensures FirstCluster(disk, e) == cluster
    ensures Named(disk, e) <==> name == KERNEL_NAME
  {
    var b := EntryBytes(name, other, cluster, size);
    forall i: nat | i < 32 ensures DirByte(disk, e, i) == b[i] {
      RootByte(disk, im, e, i);
      assert im.root[e * 32..(e + 1) * 32][i] == im.root[e * 32 + i];
    }
    assert b[26] == cluster % 256 && b[27] == cluster / 256;
    assert forall i :: 0 <= i < 11 ==> b[i] == name[i];
  }

  /** The name the loader looks for. */
  lemma KernelName()
    ensures |KERNEL_NAME| == 11 && forall i :: 0 <= i < 11 ==> KERNEL_NAME[i] == "KERNEL  BIN"[i] as int
  {
  }

  /** A file of the image: its clusters linked in the table, from its directory entry on. */
  ghost predicate IsFile(im: Image, table: seq<Entry>, first: nat, c: seq<nat>) {
    && c != [] && c[0] == first
    && (forall i :: 0 <= i < |c| ==> 2 <= c[i] < 2 + |im.data| && c[i] < |table|)
    && (forall i {:trigger c[i]} :: 0 <= i < |c| - 1 ==> table[c[i]] == c[i + 1] && table[c[i]] != 0xfff)
    && table[c[|c| - 1]] == 0xfff
  }

  lemma FileIsChain(disk: Disk, im: Image, table: seq<Entry>, c: seq<nat>)
    requires LaidOut(disk, im) && HoldsTable(disk, table) && c != [] && IsFile(im, table, c[0], c)
    ensures TableChain(table, c)
  {
    ContentsAreClusters(disk, im, c);
  }

  /** From the floppy to the kernel in memory: when entry e of the root directory is the first with
      the kernel's name, and c are the clusters of its file, at most 128 of them, then the loader
      leaves exactly those clusters, in order, at the kernel's base, and writes nothing but its
      buffers. */
  method LoadFromImage(disk: Disk, ghost im: Image, ghost table: seq<Entry>, ghost e: nat, ghost c: seq<nat>, mem: array<Byte>)
      returns (found: bool)
    requires mem.Length == MEMORY_SIZE && LaidOut(disk, im)
    requires |table| % 2 == 0 && |Pack(table)| <= |im.fat| && im.fat[..|Pack(table)|] == Pack(table)
    requires FirstNamed(disk, e) && IsFile(im, table, FirstCluster(disk, e), c) && |c| <= 128
    modifies mem
    ensures found && mem[KERNEL_BASE..KERNEL_BASE + 512 * |c|] == FileOf(im, c)
    ensures forall i :: 0 <= i < mem.Length && !InLoadArea(i) ==> mem[i] == old(mem[i])
  {
    TableOfImage(disk, im, table);
    FileIsChain(disk, im, table, c);
    KernelOfTable(disk, table, e, c);
    ContentsAreClusters(disk, im, c);
    ghost var at;
    found, at := LoadKernel(disk, c, mem);
  }
}
