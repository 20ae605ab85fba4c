/**
 * The MCUboot slot inspection of the `uart_boot` application: the image-header magic
 * check, the confirm-or-inspect decision taken at start-up, the classification of the
 * primary and secondary slots, the flash-area inventory and the swap-mechanism
 * heuristic of `check_swap_state`.
 */
module UartBoot {
  import opened Basics
  import opened FixedWidth
  import opened Flash

  /** Flash-area ids the application hard-codes for the two image slots. */
  const PRIMARY_ID: int := 1
  const SECONDARY_ID: int := 2

  /** MCUboot's `IMAGE_MAGIC`, the first word of every image header. */
  const IMAGE_MAGIC: int := 0x96F3B83D

  /** Size of the header buffer of the slot analysis (`uint8_t buf[32]`). */
  const HEADER_READ: nat := 32
  /** Size of the header buffer of the start-up check (`uint8_t buf[4]`). */
  const MAGIC_READ: nat := 4

  // ------------------------------------------------------------ image magic

  /**
   * The byte test the application writes out, 3D B8 F3 96: exactly "the first word,
   * read little-endian, is IMAGE_MAGIC".
   */
  function HasImageMagic(b: seq<uint8>): (r: bool)
    requires |b| >= 4
    ensures r <==> LittleEndian32(b) == IMAGE_MAGIC
  {
    LittleEndian32Bytes(b);
    b[0] == 0x3d && b[1] == 0xb8 && b[2] == 0xf3 && b[3] == 0x96
  }

  function LittleEndian32(b: seq<uint8>): nat
    requires |b| >= 4
  {
    b[0] as int + (b[1] as int) * 0x100 + (b[2] as int) * 0x1_0000 + (b[3] as int) * 0x100_0000
  }

  /** The four bytes are recovered from the little-endian word. */
  lemma LittleEndian32Bytes(b: seq<uint8>)
    requires |b| >= 4
    ensures var w := LittleEndian32(b);
      && w % 0x100 == b[0] && (w / 0x100) % 0x100 == b[1]
      && (w / 0x1_0000) % 0x100 == b[2] && w / 0x100_0000 == b[3]
  {
  }

  /**
   * Whether a slot probe reports an image: the area opens, a `len`-byte read at
   * offset 0 succeeds, and the bytes read carry the magic.
   */
  predicate SlotVerdict(L: Layout, id: int, len: nat)
    requires len >= 4
  {
    L.CanOpen(id) && L.CanRead(id, 0, len) && HasImageMagic(L.areas[id].bytes[..len])
  }

  /** A slot is reported as holding an image iff it is accessible and its bytes 0..3 are 3D B8 F3 96. */
  lemma VerdictIffMagicBytes(L: Layout, id: int, len: nat)
    requires len >= 4
    ensures SlotVerdict(L, id, len) <==>
              L.CanOpen(id) && L.CanRead(id, 0, len) && L.areas[id].bytes[..4] == [0x3d, 0xb8, 0xf3, 0x96]
  {
    if L.CanOpen(id) && L.CanRead(id, 0, len) {
      var b := L.areas[id].bytes;
      assert b[..len][..4] == b[..4];
      if b[..4] == [0x3d, 0xb8, 0xf3, 0x96] {
        assert b[..len][0] == b[..4][0] && b[..len][1] == b[..4][1];
        assert b[..len][2] == b[..4][2] && b[..len][3] == b[..4][3];
      }
    }
  }

  /** Bytes 4 onward of the header read never change the verdict. */
  lemma VerdictIgnoresTail(L1: Layout, L2: Layout, id: int, len: nat)
    requires len >= 4
    requires L1.CanOpen(id) == L2.CanOpen(id) && L1.CanRead(id, 0, len) == L2.CanRead(id, 0, len)
    requires L1.CanRead(id, 0, len) ==> L1.areas[id].bytes[..4] == L2.areas[id].bytes[..4]
    ensures SlotVerdict(L1, id, len) == SlotVerdict(L2, id, len)
  {
    VerdictIffMagicBytes(L1, id, len);
    VerdictIffMagicBytes(L2, id, len);
  }

  /** A slot whose open or read fails is reported empty, whatever it holds. */
  lemma InaccessibleSlotHasNoImage(L: Layout, id: int, len: nat)
    requires len >= 4
    requires !L.CanOpen(id) || !L.CanRead(id, 0, len)
    ensures !SlotVerdict(L, id, len)
  {
  }

  /**
   * Probes one slot as the start-up check and the slot analysis do: open, read `len`
   * header bytes, test the magic, close. The verdict starts false and is set only
   * by a successful read.
   */
  method ProbeSlot(flash: FlashDevice, id: int, len: nat) returns (hasImage: bool)
    requires len >= 4
    modifies flash
    ensures hasImage == SlotVerdict(flash.layout, id, len)
    ensures flash.probes == old(flash.probes) + [id]
    ensures flash.held == old(flash.held)
  {
    hasImage := false;
    var isOpen := flash.Open(id);
    if isOpen {
      var buf := new uint8[len];
      var readOk := flash.Read(id, 0, buf);
      if readOk {
        hasImage := HasImageMagic(buf[..]);
      }
      flash.Close(id);
    }
  }

  // ------------------------------------------------------ boot confirmation

  /** MCUboot's persisted confirmation flag of the running image. */
  class BootStore {
    var confirmed: bool
    /** How many times `boot_write_img_confirmed` has been called. */
    var confirmWrites: nat
    /** Whether the platform fails to persist a confirmation (the application ignores the result). */
    const writeFails: bool

    constructor (confirmed: bool, writeFails: bool)
      ensures this.confirmed == confirmed && this.writeFails == writeFails && confirmWrites == 0
    {
      this.confirmed := confirmed;
      this.writeFails := writeFails;
      confirmWrites := 0;
    }

    /** `boot_write_img_confirmed()`: confirming never un-confirms. */
    method WriteImgConfirmed()
      modifies this
      ensures confirmWrites == old(confirmWrites) + 1
      ensures confirmed == (old(confirmed) || !writeFails)
    {
      confirmWrites := confirmWrites + 1;
      if !writeFails {
        confirmed := true;
      }
    }
  }

  /**
   * An unconfirmed image is confirmed; a confirmed one looks for a
   * secondary image with a 4-byte header read. The confirmation is written exactly
   * when the image was not confirmed, and the secondary slot is bootable only on the
   * confirmed path with a valid magic.
   */
  method ConfirmOrInspect(store: BootStore, flash: FlashDevice) returns (canBootSecondary: bool)
    modifies store, flash
    ensures store.confirmWrites == old(store.confirmWrites) + (if old(store.confirmed) then 0 else 1)
    ensures store.confirmed == (old(store.confirmed) || !store.writeFails)
    ensures canBootSecondary == (old(store.confirmed) && SlotVerdict(flash.layout, SECONDARY_ID, MAGIC_READ))
    ensures flash.probes == old(flash.probes) + (if old(store.confirmed) then [SECONDARY_ID] else [])
    ensures flash.held == old(flash.held)
  {
    var isConfirmed := store.confirmed;
    canBootSecondary := false;
    if isConfirmed {
      canBootSecondary := ProbeSlot(flash, SECONDARY_ID, MAGIC_READ);
    } else {
      store.WriteImgConfirmed();
    }
  }

  // ---------------------------------------------------------- slot analysis

  datatype SlotAnalysis = BothSlots | NoSecondary | Unusual

  /** The three outcomes are exhaustive and mutually exclusive. */
  function Classify(slot0HasImage: bool, slot1HasImage: bool): (a: SlotAnalysis)
    ensures a == BothSlots <==> slot0HasImage && slot1HasImage
    ensures a == NoSecondary <==> !slot1HasImage
    ensures a == Unusual <==> slot1HasImage && !slot0HasImage
  {
    if slot1HasImage && slot0HasImage then BothSlots
    else if !slot1HasImage then NoSecondary
    else Unusual
  }

  /**
   * Both slots are opened first, then each one that opened is read
   * (32 header bytes into the shared buffer), tested and closed.
   */
  method AnalyzeSlots(flash: FlashDevice) returns (slot0HasImage: bool, slot1HasImage: bool)
    modifies flash
    ensures slot0HasImage == SlotVerdict(flash.layout, PRIMARY_ID, HEADER_READ)
    ensures slot1HasImage == SlotVerdict(flash.layout, SECONDARY_ID, HEADER_READ)
    ensures flash.probes == old(flash.probes) + [PRIMARY_ID, SECONDARY_ID]
    ensures flash.held == old(flash.held)
  {
    var buf := new uint8[HEADER_READ];
    slot0HasImage, slot1HasImage := false, false;
    ghost var h0 := flash.held;
    var retPrimary := flash.Open(PRIMARY_ID);
    ghost var h1 := flash.held;
    var retSecondary := flash.Open(SECONDARY_ID);
    ghost var h2 := flash.held;
    if retPrimary {
      slot0HasImage := ReadHeaderAndClose(flash, PRIMARY_ID, buf);
    }
    ghost var h3 := flash.held;
    if retSecondary {
      slot1HasImage := ReadHeaderAndClose(flash, SECONDARY_ID, buf);
    }
    HeldBalance(h0, h1, h2, h3, flash.held, retPrimary, retSecondary);
  }

  /** Reads the header of an open slot into `buf`, tests the magic and closes the handle. */
  method ReadHeaderAndClose(flash: FlashDevice, id: int, buf: array<uint8>) returns (hasImage: bool)
    requires id in flash.held && flash.layout.CanOpen(id) && buf.Length >= 4
    modifies flash, buf
    ensures hasImage == SlotVerdict(flash.layout, id, buf.Length)
    ensures flash.probes == old(flash.probes)
    ensures flash.held == old(flash.held) - multiset{id}
  {
    hasImage := false;
    var readOk := flash.Read(id, 0, buf);
    if readOk {
      hasImage := HasImageMagic(buf[..]);
    }
    flash.Close(id);
  }

  /** Opening slots 1 and 2 and then closing each one that opened leaves the open handles as they were. */
  lemma HeldBalance(h0: multiset<int>, h1: multiset<int>, h2: multiset<int>, h3: multiset<int>, h4: multiset<int>,
                    primary: bool, secondary: bool)
    requires h1 == if primary then h0 + multiset{PRIMARY_ID} else h0
    requires h2 == if secondary then h1 + multiset{SECONDARY_ID} else h1
    requires h3 == if primary then h2 - multiset{PRIMARY_ID} else h2
    requires h4 == if secondary then h3 - multiset{SECONDARY_ID} else h3
    ensures h4 == h0
  {
  }

  // -------------------------------------------------------------- inventory

  /** One line of the flash-area inventory: id, `fa_size` and `fa_off`. */
  datatype AreaInfo = AreaInfo(id: int, size: nat, offset: nat)

  function Info(L: Layout, id: int): AreaInfo
    requires id in L.areas
  {
    AreaInfo(id, L.areas[id].size, L.areas[id].offset)
  }

  /** The areas among ids lo..hi-1 that open, in increasing id order. */
  function InventoryOf(L: Layout, lo: int, hi: int): seq<AreaInfo>
    decreases hi - lo
  {
    if hi <= lo then []
    else InventoryOf(L, lo, hi - 1) + (if L.CanOpen(hi - 1) then [Info(L, hi - 1)] else [])
  }

  /**
   * The inventory lists exactly the ids in range that open, each with its own size
   * and offset, in strictly increasing id order.
   */
  lemma {:induction false} InventoryExact(L: Layout, lo: int, hi: int)
    ensures forall k | 0 <= k < |InventoryOf(L, lo, hi)| ::
              var a := InventoryOf(L, lo, hi)[k];
              lo <= a.id < hi && L.CanOpen(a.id) && a == Info(L, a.id)
    ensures forall id | lo <= id < hi && L.CanOpen(id) :: Info(L, id) in InventoryOf(L, lo, hi)
    ensures forall j, k | 0 <= j < k < |InventoryOf(L, lo, hi)| ::
              InventoryOf(L, lo, hi)[j].id < InventoryOf(L, lo, hi)[k].id
    decreases hi - lo
  {
    if lo < hi {
      InventoryExact(L, lo, hi - 1);
    }
  }

  /** Ids 0..10 are opened in increasing order and every one that opens is closed. */
  method Inventory(flash: FlashDevice) returns (found: seq<AreaInfo>)
    modifies flash
    ensures found == InventoryOf(flash.layout, 0, 11)
    ensures flash.probes == old(flash.probes) + Ids(0, 11)
    ensures flash.held == old(flash.held)
  {
    found := [];
    for id := 0 to 11
      invariant found == InventoryOf(flash.layout, 0, id)
      invariant flash.probes == old(flash.probes) + Ids(0, id)
      invariant flash.held == old(flash.held)
    {
      var isOpen := flash.Open(id);
      if isOpen {
        found := found + [Info(flash.layout, id)];
        flash.Close(id);
      }
    }
  }

  // --------------------------------------------------------- swap detection

  datatype SwapMechanism =
    | ScratchBased(id: int, size: nat)
    | MoveBased
    | Unknown
    | NotConfigured

  /** The scratch-area candidates are ids SCRATCH_LO..SCRATCH_HI-1, tried in order. */
  const SCRATCH_LO: int := 3
  const SCRATCH_HI: int := 6

  /** The first id in lo..hi-1 that opens. */
  function FirstOpenable(L: Layout, lo: int, hi: int): (r: Option<int>)
    ensures r.Some? ==> lo <= r.value < hi && L.CanOpen(r.value)
    ensures r.Some? ==> forall j | lo <= j < r.value :: !L.CanOpen(j)
    ensures r.None? ==> forall j | lo <= j < hi :: !L.CanOpen(j)
    decreases hi - lo
  {
    if hi <= lo then None
    else if L.CanOpen(lo) then Some(lo)
    else FirstOpenable(L, lo + 1, hi)
  }

  /** The classification `check_swap_state` prints. */
  function DetectSwap(L: Layout): SwapMechanism {
    match FirstOpenable(L, SCRATCH_LO, SCRATCH_HI)
    case Some(id) => ScratchBased(id, L.areas[id].size)
    case None => SlotSizeVerdict(L)
  }

  /** The inference from the slot sizes when no scratch area opened. */
  function SlotSizeVerdict(L: Layout): SwapMechanism {
    if L.CanOpen(PRIMARY_ID) && L.CanOpen(SECONDARY_ID) then
      if L.areas[PRIMARY_ID].size == L.areas[SECONDARY_ID].size then MoveBased else Unknown
    else NotConfigured
  }

  /** The open calls of the scratch loop: up to and including the first hit. */
  function ScratchProbes(L: Layout): seq<int> {
    match FirstOpenable(L, SCRATCH_LO, SCRATCH_HI)
    case Some(id) => Ids(SCRATCH_LO, id + 1)
    case None => Ids(SCRATCH_LO, SCRATCH_HI)
  }

  /** The open calls of the slot-size check: slot 2 is tried only if slot 1 opened (`&&`). */
  function SlotSizeProbes(L: Layout): seq<int> {
    [PRIMARY_ID] + (if L.CanOpen(PRIMARY_ID) then [SECONDARY_ID] else [])
  }

  /** The open calls `check_swap_state` makes. */
  function SwapProbes(L: Layout): seq<int> {
    ScratchProbes(L) + (if FirstOpenable(L, SCRATCH_LO, SCRATCH_HI).Some? then [] else SlotSizeProbes(L))
  }

  /** The one handle leak: no scratch area, slot 1 opens and slot 2 does not, so slot 1 stays open. */
  predicate SwapLeaks(L: Layout) {
    FirstOpenable(L, SCRATCH_LO, SCRATCH_HI).None? && L.CanOpen(PRIMARY_ID) && !L.CanOpen(SECONDARY_ID)
  }

  /** Openability of the ids in range decides which one is found first. */
  lemma {:induction false} FirstOpenableDependsOnlyOnRange(L1: Layout, L2: Layout, lo: int, hi: int)
    requires forall j | lo <= j < hi :: L1.CanOpen(j) == L2.CanOpen(j)
    ensures FirstOpenable(L1, lo, hi) == FirstOpenable(L2, lo, hi)
    decreases hi - lo
  {
    if lo < hi && !L1.CanOpen(lo) {
      FirstOpenableDependsOnlyOnRange(L1, L2, lo + 1, hi);
    }
  }

  /**
   * A scratch area that opens decides the outcome: the first one wins, whatever the
   * slots hold, and their sizes are never looked at.
   */
  lemma ScratchTakesPrecedence(L1: Layout, L2: Layout, id: int)
    requires SCRATCH_LO <= id < SCRATCH_HI && L1.CanOpen(id)
    requires forall j | SCRATCH_LO <= j < SCRATCH_HI :: L1.CanOpen(j) == L2.CanOpen(j)
    requires forall j | SCRATCH_LO <= j < SCRATCH_HI && L1.CanOpen(j) && L2.CanOpen(j) :: L1.areas[j].size == L2.areas[j].size
    ensures DetectSwap(L1).ScratchBased? && DetectSwap(L1).id <= id
    ensures DetectSwap(L1) == DetectSwap(L2)
  {
    FirstOpenableDependsOnlyOnRange(L1, L2, SCRATCH_LO, SCRATCH_HI);
  }

  /** Without a scratch area: equal slot sizes mean move, unequal unknown, an unopenable slot not configured. */
  lemma SwapWithoutScratch(L: Layout)
    requires forall j | SCRATCH_LO <= j < SCRATCH_HI :: !L.CanOpen(j)
    ensures DetectSwap(L) == MoveBased <==>
              L.CanOpen(PRIMARY_ID) && L.CanOpen(SECONDARY_ID) && L.areas[PRIMARY_ID].size == L.areas[SECONDARY_ID].size
    ensures DetectSwap(L) == Unknown <==>
              L.CanOpen(PRIMARY_ID) && L.CanOpen(SECONDARY_ID) && L.areas[PRIMARY_ID].size != L.areas[SECONDARY_ID].size
    ensures DetectSwap(L) == NotConfigured <==> !L.CanOpen(PRIMARY_ID) || !L.CanOpen(SECONDARY_ID)
  {
  }

  /**
   * `check_swap_state`: the scratch loop with its `break`, then the
   * slot-size comparison. Every handle it opens is closed except the slot-1 handle
   * in the case `SwapLeaks` names.
   */
  method CheckSwapState(flash: FlashDevice) returns (mechanism: SwapMechanism)
    modifies flash
    ensures mechanism == DetectSwap(flash.layout)
    ensures flash.probes == old(flash.probes) + SwapProbes(flash.layout)
    ensures flash.held == old(flash.held) + (if SwapLeaks(flash.layout) then multiset{PRIMARY_ID} else multiset{})
  {
    var scratchAvailable;
    scratchAvailable, mechanism := FindScratch(flash);
    if !scratchAvailable {
      mechanism := InferFromSlotSizes(flash);
    }
  }

  /** Scratch ids 3, 4, 5 in order; the first that opens is closed again and ends the search. */
  method FindScratch(flash: FlashDevice) returns (scratchAvailable: bool, mechanism: SwapMechanism)
    modifies flash
    ensures scratchAvailable == FirstOpenable(flash.layout, SCRATCH_LO, SCRATCH_HI).Some?
    ensures scratchAvailable ==> mechanism == DetectSwap(flash.layout)
    ensures flash.probes == old(flash.probes) + ScratchProbes(flash.layout)
    ensures flash.held == old(flash.held)
  {
    var L := flash.layout;
    scratchAvailable := false;
    mechanism := NotConfigured;
    for scratchId := SCRATCH_LO to SCRATCH_HI
      invariant !scratchAvailable
      invariant forall j | SCRATCH_LO <= j < scratchId :: !L.CanOpen(j)
      invariant flash.probes == old(flash.probes) + Ids(SCRATCH_LO, scratchId)
      invariant flash.held == old(flash.held)
    {
      var isOpen := flash.Open(scratchId);
      if isOpen {
        mechanism := ScratchBased(scratchId, L.areas[scratchId].size);
        scratchAvailable := true;
        flash.Close(scratchId);
        assert FirstOpenable(L, SCRATCH_LO, SCRATCH_HI) == Some(scratchId);
        break;
      }
    }
  }

  /** Compare the sizes of slots 1 and 2 when both open, then close both. */
  method InferFromSlotSizes(flash: FlashDevice) returns (mechanism: SwapMechanism)
    modifies flash
    ensures mechanism == SlotSizeVerdict(flash.layout)
    ensures flash.probes == old(flash.probes) + SlotSizeProbes(flash.layout)
    ensures flash.held == old(flash.held) +
              (if flash.layout.CanOpen(PRIMARY_ID) && !flash.layout.CanOpen(SECONDARY_ID) then multiset{PRIMARY_ID} else multiset{})
  {
    var L := flash.layout;
    ghost var h0 := flash.held;
    var primaryOk := flash.Open(PRIMARY_ID);
    var secondaryOk := false;
    if primaryOk {
      secondaryOk := flash.Open(SECONDARY_ID);
    }
    ghost var h1 := flash.held;
    if primaryOk && secondaryOk {
      if L.areas[PRIMARY_ID].size == L.areas[SECONDARY_ID].size {
        mechanism := MoveBased;
      } else {
        mechanism := Unknown;
      }
      flash.Close(PRIMARY_ID);
      flash.Close(SECONDARY_ID);
      assert h1 == h0 + multiset{PRIMARY_ID} + multiset{SECONDARY_ID};
      assert flash.held == h1 - multiset{PRIMARY_ID} - multiset{SECONDARY_ID};
    } else {
      mechanism := NotConfigured;
    }
  }

  // ------------------------------------------------------------------- main

  /** What the start-up sequence of `main` establishes and prints, before the LED loop. */
  datatype BootReport = BootReport(
    canBootSecondary: bool,
    slot0HasImage: bool,
    slot1HasImage: bool,
    analysis: SlotAnalysis,
    confirmedAtAnalysis: bool,
    inventory: seq<AreaInfo>,
    swap: SwapMechanism)

  /** The report for a flash layout and the confirmation state found at boot. */
  function ExpectedReport(L: Layout, wasConfirmed: bool, writeFails: bool): BootReport {
    var slot0 := SlotVerdict(L, PRIMARY_ID, HEADER_READ);
    var slot1 := SlotVerdict(L, SECONDARY_ID, HEADER_READ);
    BootReport(
      wasConfirmed && SlotVerdict(L, SECONDARY_ID, MAGIC_READ),
      slot0, slot1, Classify(slot0, slot1),
      wasConfirmed || !writeFails,
      InventoryOf(L, 0, 11),
      DetectSwap(L))
  }

  /** Every open call of the start-up sequence, in order. */
  function BootProbes(L: Layout, wasConfirmed: bool): seq<int> {
    (if wasConfirmed then [SECONDARY_ID] else []) + [PRIMARY_ID, SECONDARY_ID] + Ids(0, 11) + SwapProbes(L)
  }

  /**
   * `main` up to the LED loop. After it, the only handle left open is the one
   * `check_swap_state` leaks.
   */
  method BootMain(store: BootStore, flash: FlashDevice) returns (report: BootReport)
    modifies store, flash
    ensures report == ExpectedReport(flash.layout, old(store.confirmed), store.writeFails)
    ensures store.confirmWrites == old(store.confirmWrites) + (if old(store.confirmed) then 0 else 1)
    ensures store.confirmed == report.confirmedAtAnalysis
    ensures flash.probes == old(flash.probes) + BootProbes(flash.layout, old(store.confirmed))
    ensures flash.held == old(flash.held) + (if SwapLeaks(flash.layout) then multiset{PRIMARY_ID} else multiset{})
  {
    ghost var L, p0 := flash.layout, flash.probes;
    var canBootSecondary := ConfirmOrInspect(store, flash);
    ghost var p1 := flash.probes;
    var slot0, slot1 := AnalyzeSlots(flash);
    ghost var p2 := flash.probes;
    var analysis := Classify(slot0, slot1);
    var confirmedNow := store.confirmed;
    var inventory := Inventory(flash);
    ghost var p3 := flash.probes;
    var swap := CheckSwapState(flash);
    report := BootReport(canBootSecondary, slot0, slot1, analysis, confirmedNow, inventory, swap);
    ProbesCompose(p0, p1, p2, p3, flash.probes,
                  if old(store.confirmed) then [SECONDARY_ID] else [], [PRIMARY_ID, SECONDARY_ID], Ids(0, 11), SwapProbes(L));
  }

  lemma ProbesCompose(p0: seq<int>, p1: seq<int>, p2: seq<int>, p3: seq<int>, p4: seq<int>,
                      a: seq<int>, b: seq<int>, c: seq<int>, d: seq<int>)
    requires p1 == p0 + a && p2 == p1 + b && p3 == p2 + c && p4 == p3 + d
    ensures p4 == p0 + (a + b + c + d)
  {
  }

  /** The slot verdicts of the report depend on nothing but accessibility and bytes 0..3. */
  lemma ReportSlotsFromMagicOnly(L: Layout, wasConfirmed: bool, writeFails: bool)
    ensures var r := ExpectedReport(L, wasConfirmed, writeFails);
      && (r.canBootSecondary <==>
            wasConfirmed && L.CanOpen(SECONDARY_ID) && L.CanRead(SECONDARY_ID, 0, MAGIC_READ) &&
            L.areas[SECONDARY_ID].bytes[..4] == [0x3d, 0xb8, 0xf3, 0x96])
      && (r.slot0HasImage <==>
            L.CanOpen(PRIMARY_ID) && L.CanRead(PRIMARY_ID, 0, HEADER_READ) &&
            L.areas[PRIMARY_ID].bytes[..4] == [0x3d, 0xb8, 0xf3, 0x96])
      && (r.slot1HasImage <==>
            L.CanOpen(SECONDARY_ID) && L.CanRead(SECONDARY_ID, 0, HEADER_READ) &&
            L.areas[SECONDARY_ID].bytes[..4] == [0x3d, 0xb8, 0xf3, 0x96])
  {
    VerdictIffMagicBytes(L, SECONDARY_ID, MAGIC_READ);
    VerdictIffMagicBytes(L, PRIMARY_ID, HEADER_READ);
    VerdictIffMagicBytes(L, SECONDARY_ID, HEADER_READ);
  }
}
