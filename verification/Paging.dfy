/** The identity page tables the loader builds, and the two-level translation of 32-bit paging
    with 4 KB pages (Intel SDM, Volume 3A, section 4.3) that reads them. Physical memory is an
    array of 32-bit words: words[a / 4] is the word at address a. */
module Paging {
  import opened Wrappers
  import opened Numbers

  const PAGE_DIR_BASE := 0x100000
  const PAGE_TBL_BASE := 0x101000
  const FLAGS := 7                 // PG_P | PG_RWW | PG_USU
  const PAGE := 4096
  const TABLE_SPAN := 0x400000     // what one page table maps

  /** What a translation yields: the physical address and the flag bits of both entries. */
  datatype Translation = Translation(physical: int, dirFlags: int, tableFlags: int)

  function WordAt(m: seq<int>, address: int): Option<int> {
    if 0 <= address / 4 < |m| then Some(m[address / 4]) else None
  }

  /** The two-level walk from the directory at cr3. */
  function Translate(m: seq<int>, cr3: int, linear: nat): Option<Translation> {
    match WordAt(m, cr3 + 4 * (linear / TABLE_SPAN))
    case None => None
    case Some(pde) =>
      if pde % 2 == 0 then None
      else
        match WordAt(m, pde - pde % PAGE + 4 * (linear / PAGE % 1024))
        case None => None
        case Some(pte) =>
          if pte % 2 == 0 then None
          else Some(Translation(pte - pte % PAGE + linear % PAGE, pde % PAGE, pte % PAGE))
  }

  /** How many page tables it takes to map memSize bytes. */
  function TableCount(memSize: nat): nat {
    memSize / TABLE_SPAN + if memSize % TABLE_SPAN == 0 then 0 else 1
  }

  /** The fewest tables that cover the memory, and they fit one directory. */
  lemma TableCountCovers(memSize: nat)
    requires 0 < memSize < TWO32
    ensures 1 <= TableCount(memSize) <= 1024
    ensures memSize <= TableCount(memSize) * TABLE_SPAN < memSize + TABLE_SPAN
  {
  }

  /** Entry i of the directory points to table i; entry j of the tables, numbered through, maps
      page j to itself. */
  ghost predicate Identity(m: seq<int>, count: nat) {
    && (PAGE_TBL_BASE + count * PAGE) / 4 <= |m|
    && (forall i :: 0 <= i < count ==> m[PAGE_DIR_BASE / 4 + i] == PAGE_TBL_BASE + i * PAGE + FLAGS)
    && (forall j :: 0 <= j < count * 1024 ==> m[PAGE_TBL_BASE / 4 + j] == j * PAGE + FLAGS)
  }

  /** Bits 0 to 2 of an entry: present, writable, for users. */
  predicate OpenToAll(flags: int) {
    flags % 2 == 1 && flags / 2 % 2 == 1 && flags / 4 % 2 == 1 && flags / 8 == 0
  }

  /** The tables translate every address they cover to itself, present, writable and for users, with
      no other bit set. */
  lemma IdentityTranslates(m: seq<int>, count: nat, linear: nat)
    requires count <= 1024 && Identity(m, count) && linear < count * TABLE_SPAN
    ensures Translate(m, PAGE_DIR_BASE, linear) == Some(Translation(linear, FLAGS, FLAGS)) && OpenToAll(FLAGS)
  {
    var i, k := linear / TABLE_SPAN, linear / PAGE % 1024;
    AddressParts(linear);
    var j := i * 1024 + k;
    var pde := m[PAGE_DIR_BASE / 4 + i];
    EntryParts(0x101 + i);
    assert WordAt(m, PAGE_DIR_BASE + 4 * i) == Some(pde);
    var pte := m[PAGE_TBL_BASE / 4 + j];
    EntryParts(j);
    assert WordAt(m, PAGE_TBL_BASE + i * PAGE + 4 * k) == Some(pte);
  }

  lemma AddressParts(linear: nat)
    ensures linear / PAGE == linear / TABLE_SPAN * 1024 + linear / PAGE % 1024
    ensures linear == linear / PAGE * PAGE + linear % PAGE
  {
    var pages := linear / PAGE;
    assert pages / 1024 == linear / TABLE_SPAN;
  }

  lemma EntryParts(page: nat)
    ensures var e := page * PAGE + FLAGS; e % PAGE == FLAGS && e - e % PAGE == page * PAGE && e % 2 == 1
  {
  }

  /** Word i belongs to the directory entries or the tables in use. */
  predicate InTables(i: int, count: nat) {
    || PAGE_DIR_BASE / 4 <= i < PAGE_DIR_BASE / 4 + count
    || PAGE_TBL_BASE / 4 <= i < PAGE_TBL_BASE / 4 + count * 1024
  }

  /** `SetupPageMechanism`. A memory of size 0 would make the first `loop` run 2^32 times. */
  method SetupPageMechanism(memSize: nat, words: array<int>) returns (cr3: int)
    requires 0 < memSize < TWO32
    requires (PAGE_TBL_BASE + TableCount(memSize) * PAGE) / 4 <= words.Length
    modifies words
    ensures cr3 == PAGE_DIR_BASE && Identity(words[..], TableCount(memSize))
    ensures forall linear: nat :: linear < TableCount(memSize) * TABLE_SPAN ==>
      Translate(words[..], cr3, linear) == Some(Translation(linear, FLAGS, FLAGS))
    ensures forall i :: 0 <= i < words.Length && !InTables(i, TableCount(memSize)) ==> words[i] == old(words[i])
  {
    TableCountCovers(memSize);
    var count := memSize / TABLE_SPAN;
    if memSize % TABLE_SPAN != 0 {
      count := count + 1;
    }
    StoreRun(words, PAGE_DIR_BASE, PAGE_TBL_BASE + FLAGS, count);
    StoreRun(words, PAGE_TBL_BASE, FLAGS, count * 1024);
    cr3 := PAGE_DIR_BASE;
    AllTranslate(words[..], count);
  }

  lemma AllTranslate(m: seq<int>, count: nat)
    requires count <= 1024 && Identity(m, count)
    ensures forall linear: nat :: linear < count * TABLE_SPAN ==>
      Translate(m, PAGE_DIR_BASE, linear) == Some(Translation(linear, FLAGS, FLAGS))
  {
    forall linear: nat | linear < count * TABLE_SPAN
      ensures Translate(m, PAGE_DIR_BASE, linear) == Some(Translation(linear, FLAGS, FLAGS))
    {
      IdentityTranslates(m, count, linear);
    }
  }

  /** `stosl; add $4096, %eax; loop`: n words from address edi on, each one page further, in
      32-bit arithmetic. */
  method StoreRun(words: array<int>, edi: nat, eax: nat, n: nat)
    requires edi % 4 == 0 && edi / 4 + n <= words.Length
    requires 0 < n && eax + (n - 1) * PAGE < TWO32
    modifies words
    ensures forall i :: 0 <= i < words.Length ==>
      words[i] == if edi / 4 <= i < edi / 4 + n then eax + (i - edi / 4) * PAGE else old(words[i])
  {
    var at, value, ecx := edi, eax, n;
    while true
      invariant 0 < ecx <= n && at == edi + 4 * (n - ecx) && value == eax + (n - ecx) * PAGE
      invariant forall i :: 0 <= i < words.Length ==>
        words[i] == if edi / 4 <= i < edi / 4 + (n - ecx) then eax + (i - edi / 4) * PAGE else old(words[i])
      decreases ecx
    {
      words[at / 4] := value;
      at := at + 4;
      value := (value + PAGE) % TWO32;
      ecx := ecx - 1;
      if ecx == 0 {
        break;
      }
      assert eax + (n - ecx) * PAGE < TWO32;
    }
  }
}
