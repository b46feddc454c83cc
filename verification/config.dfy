/**
  The S5JS100's static configuration: its memory map and the descriptor of the
  flash algorithm bound to its flash region, with the layout rules that make
  them usable.
 */
module S5JS100Config {

  /**
    A flash algorithm descriptor. The instruction words are opaque machine
    code; only how many there are matters here.
   */
  datatype FlashAlgo = FlashAlgo(
    loadAddress: nat,
    instructionWords: nat,
    pcInit: nat,
    pcEraseAll: nat,
    pcEraseSector: nat,
    pcProgramPage: nat,
    staticBase: nat,
    beginData: nat,
    pageBuffers: seq<nat>,
    beginStack: nat,
    analyzerSupported: bool,
    analyzerAddress: nat
  )

  /** First address past the loaded instruction words. */
  function PayloadEnd(a: FlashAlgo): nat {
    a.loadAddress + 4 * a.instructionWords
  }

  function EntryPoints(a: FlashAlgo): seq<nat> {
    [a.pcInit, a.pcEraseAll, a.pcEraseSector, a.pcProgramPage]
  }

  /** A Thumb entry point (odd address) inside the loaded payload. */
  predicate ThumbEntry(a: FlashAlgo, pc: nat) {
    pc % 2 == 1 && a.loadAddress <= pc < PayloadEnd(a)
  }

  /**
    Page buffers of `size` bytes each, at least one, in ascending order without
    overlap, the first at or above `floor` and the last ending at or below `top`.
   */
  predicate Stacked(buffers: seq<nat>, size: nat, floor: nat, top: nat) {
    && |buffers| > 0
    && floor <= buffers[0]
    && (forall i :: 0 <= i < |buffers| - 1 ==> buffers[i] + size <= buffers[i + 1])
    && buffers[|buffers| - 1] + size <= top
  }

  /**
    The layout a flash algorithm needs: every entry point is a Thumb address
    inside the payload, and the page buffers lie above the payload and below
    the stack.
   */
  predicate AlgoWellFormed(a: FlashAlgo, pageSize: nat) {
    && pageSize > 0
    && (forall i :: 0 <= i < |EntryPoints(a)| ==> ThumbEntry(a, EntryPoints(a)[i]))
    && Stacked(a.pageBuffers, pageSize, PayloadEnd(a), a.beginStack)
  }

  /** Buffer-by-buffer check of `Stacked`, raising the floor past each buffer. */
  function CheckBuffers(buffers: seq<nat>, size: nat, floor: nat, top: nat): (ok: bool)
    ensures ok <==> Stacked(buffers, size, floor, top)
  {
    if |buffers| == 0 then false
    else if floor > buffers[0] then false
    else if |buffers| == 1 then buffers[0] + size <= top
    else
      var ok := CheckBuffers(buffers[1..], size, buffers[0] + size, top);
      assert forall i :: 1 <= i < |buffers| ==> buffers[i] == buffers[1..][i - 1];
      ok
  }

  function CheckAlgo(a: FlashAlgo, pageSize: nat): (ok: bool)
    ensures ok <==> AlgoWellFormed(a, pageSize)
  {
    var e := EntryPoints(a);
    assert e[0] == a.pcInit && e[1] == a.pcEraseAll && e[2] == a.pcEraseSector && e[3] == a.pcProgramPage;
    && pageSize > 0
    && ThumbEntry(a, a.pcInit) && ThumbEntry(a, a.pcEraseAll)
    && ThumbEntry(a, a.pcEraseSector) && ThumbEntry(a, a.pcProgramPage)
    && CheckBuffers(a.pageBuffers, pageSize, PayloadEnd(a), a.beginStack)
  }

  /** A memory-map entry; a flash region carries the algorithm that programs it. */
  datatype Region =
    | FlashRegion(start: nat, length: nat, blockSize: nat, isBootMemory: bool, algo: FlashAlgo)
    | RamRegion(start: nat, length: nat)

  function End(r: Region): nat {
    r.start + r.length
  }

  predicate Disjoint(a: Region, b: Region) {
    End(a) <= b.start || End(b) <= a.start
  }

  /**
    A region is non-empty; a flash region is a whole number of blocks and its
    algorithm is laid out for pages of one block.
   */
  predicate RegionWellFormed(r: Region) {
    && r.length > 0
    && (r.FlashRegion? ==>
          r.blockSize > 0 && r.length % r.blockSize == 0 && AlgoWellFormed(r.algo, r.blockSize))
  }

  /** Every region is well formed and no two regions overlap. */
  predicate MapWellFormed(m: seq<Region>) {
    && (forall i :: 0 <= i < |m| ==> RegionWellFormed(m[i]))
    && (forall i, j :: 0 <= i < j < |m| ==> Disjoint(m[i], m[j]))
  }

  function DisjointFromAll(r: Region, rest: seq<Region>): (ok: bool)
    ensures ok <==> forall j :: 0 <= j < |rest| ==> Disjoint(r, rest[j])
  {
    if |rest| == 0 then true
    else
      var ok := DisjointFromAll(r, rest[1..]);
      assert forall j :: 1 <= j < |rest| ==> rest[j] == rest[1..][j - 1];
      Disjoint(r, rest[0]) && ok
  }

  function CheckRegion(r: Region): (ok: bool)
    ensures ok <==> RegionWellFormed(r)
  {
    && r.length > 0
    && (r.FlashRegion? ==>
          r.blockSize > 0 && r.length % r.blockSize == 0 && CheckAlgo(r.algo, r.blockSize))
  }

  /** Region-by-region check of `MapWellFormed`. */
  function CheckMap(m: seq<Region>): (ok: bool)
    ensures ok <==> MapWellFormed(m)
  {
    if |m| == 0 then true
    else
      var ok := CheckMap(m[1..]);
      assert forall i :: 1 <= i < |m| ==> m[i] == m[1..][i - 1];
      CheckRegion(m[0]) && DisjointFromAll(m[0], m[1..]) && ok
  }

  /** FLASH_ALGO: 499 instruction words loaded at 0x0010_0000. */
  const S5JS100FlashAlgo := FlashAlgo(
    loadAddress := 0x0010_0000,
    instructionWords := 499,
    pcInit := 0x0010_04F9,
    pcEraseAll := 0x0010_0667,
    pcEraseSector := 0x0010_067F,
    pcProgramPage := 0x0010_06C3,
    staticBase := 0x0010_0001,
    beginData := 0x0010_0000,
    pageBuffers := [0x0010_1000, 0x0010_1800],
    beginStack := 0x0010_2800,
    analyzerSupported := false,
    analyzerAddress := 0
  )

  /** S5JS100.memoryMap: 128 KiB of boot flash at 0 and 16 KiB of RAM at 0x2000_0000. */
  const S5JS100MemoryMap := [
    FlashRegion(0, 0x2_0000, 0x100, true, S5JS100FlashAlgo),
    RamRegion(0x2000_0000, 0x4000)
  ]

  /**
    The S5JS100 configuration is well formed: flash [0, 0x2_0000) and RAM
    [0x2000_0000, 0x2000_4000) do not overlap, every entry point is an odd
    address inside [0x0010_0000, 0x0010_07CC), and the page buffers sit between
    the payload and the stack.
   */
  lemma S5JS100ConfigWellFormed()
    ensures MapWellFormed(S5JS100MemoryMap)
    ensures AlgoWellFormed(S5JS100FlashAlgo, 0x100)
    ensures PayloadEnd(S5JS100FlashAlgo) == 0x0010_07CC
  {
    assert CheckMap(S5JS100MemoryMap);
  }

  /**
    The RAM the flash algorithm occupies, from its load address up to its
    stack, is not part of any region of the memory map.
   */
  lemma AlgoWorkspaceOutsideMemoryMap()
    ensures var a := S5JS100FlashAlgo;
            forall i :: 0 <= i < |S5JS100MemoryMap| ==>
              Disjoint(RamRegion(a.loadAddress, a.beginStack - a.loadAddress), S5JS100MemoryMap[i])
  {
  }

}
