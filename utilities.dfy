/**
 * The configuration store of Core/Src/utilities.c: `System.ref` is saved to
 * the flash page at FLASHSTORAGE2 followed by its CRC-8, and loaded back only
 * when the CRC matches. The flash HAL's outcomes are parameters; the page is
 * an array of bytes.
 */
module Utilities {
  import opened Typedefs
  import Crc8

  /** The two storage addresses and the flash pages they are. */
  const Storage1: nat := 0x803F800
  const Storage2: nat := 0x803FC00
  const Page1: nat := 126
  const Page2: nat := 127

  /** sizeof(tsRegulatedVal): eight floats, a uint32_t and two enums. */
  const RegulatedSize: nat := 44
  /** FLASH_DATA_PARTS: the double-words that hold the data and its CRC. */
  const DataParts: nat := 6
  const PartSize: nat := 8
  /** sizeof(tuFlashData). */
  const FlashBytes: nat := 48

  /** flashErase()'s page selection: only the two storage addresses name a page. */
  function ErasePage(addr: nat): (p: Option<nat>)
    ensures p.Some? <==> addr == Storage1 || addr == Storage2
    ensures p == Some(Page2) <==> addr == Storage2
  {
    if addr == Storage1 then Some(Page1)
    else if addr == Storage2 then Some(Page2)
    else None
  }

  /** The outcomes of the HAL calls flashErase() makes. */
  datatype EraseHal = EraseHal(unlockOk: bool, eraseOk: bool, lockOk: bool, pageErrorClear: bool)

  /** An erase reports an error for an unknown address or when any HAL step fails. */
  function EraseError(addr: nat, hal: EraseHal): bool
  {
    ErasePage(addr).None? || !hal.unlockOk || !hal.eraseOk || !hal.lockOk || !hal.pageErrorClear
  }

  /**
   * Whether flashErase() blanks the storage page: HAL_FLASHEx_Erase ran and
   * succeeded on FLASHSTORAGE2. A failed lock or a page error is reported
   * afterwards but does not undo the erase.
   */
  predicate ErasesStorage(addr: nat, hal: EraseHal)
  {
    addr == Storage2 && hal.unlockOk && hal.eraseOk
  }

  /**
   * The erase can succeed while an error is still reported: after a failed
   * HAL_FLASH_Lock the page is blank, and flashSaveConfig() then programs
   * nothing, so the saved configuration is gone.
   */
  lemma LockFailureErases()
    ensures var hal := EraseHal(true, true, false, true);
            EraseError(Storage2, hal) && ErasesStorage(Storage2, hal)
  {
  }

  /** An erased page reads all ones. */
  function Erased(): (r: seq<bv8>)
    ensures |r| == FlashBytes && forall j :: 0 <= j < FlashBytes ==> r[j] == 0xFF
  {
    seq(FlashBytes, _ => 0xFF)
  }

  /**
   * The image flashSaveConfig() builds in uFlashData: the bytes of `ref`,
   * their CRC-8, and the union's padding as it was.
   */
  function Saved(data: seq<bv8>, previous: seq<bv8>): (r: seq<bv8>)
    requires |data| == RegulatedSize && |previous| == FlashBytes
    ensures |r| == FlashBytes
  {
    data + [Crc8.Checksum(data)] + previous[RegulatedSize + 1..]
  }

  /** flashReadConfig()'s check: the CRC-8 of the data bytes equals the stored CRC byte. */
  predicate Accepts(page: seq<bv8>)
    requires |page| == FlashBytes
  {
    Crc8.Checksum(page[..RegulatedSize]) == page[RegulatedSize]
  }

  /** Round trip: a saved image passes the check and carries the saved bytes. */
  lemma SavedAccepted(data: seq<bv8>, previous: seq<bv8>)
    requires |data| == RegulatedSize && |previous| == FlashBytes
    ensures Accepts(Saved(data, previous))
    ensures Saved(data, previous)[..RegulatedSize] == data
  {
    var r := Saved(data, previous);
    assert r[..RegulatedSize] == data;
  }

  /** A saved image with any one byte of its data or CRC changed fails the check. */
  lemma CorruptionRejected(data: seq<bv8>, previous: seq<bv8>, j: nat, y: bv8)
    requires |data| == RegulatedSize && |previous| == FlashBytes
    requires j <= RegulatedSize && Saved(data, previous)[j] != y
    ensures !Accepts(Saved(data, previous)[j := y])
  {
    var r := Saved(data, previous);
    var q := r[j := y];
    if j < RegulatedSize {
      assert r[..RegulatedSize] == data;
      assert data == data[..j] + [data[j]] + data[j + 1..];
      assert q[..RegulatedSize] == data[..j] + [y] + data[j + 1..];
      Crc8.SingleByteErrorDetected(data[..j], data[j], y, data[j + 1..]);
    } else {
      assert q[..RegulatedSize] == data;
    }
  }

  /** The number of parts programmed before the first failure. */
  function FirstFailure(programOk: seq<bool>): (k: nat)
    ensures k <= |programOk|
    ensures forall m :: 0 <= m < k ==> programOk[m]
    ensures k < |programOk| ==> !programOk[k]
    decreases |programOk|
  {
    if |programOk| == 0 || !programOk[0] then 0 else 1 + FirstFailure(programOk[1..])
  }

  lemma {:induction false} AllProgrammed(n: nat)
    ensures FirstFailure(seq(n, _ => true)) == n
  {
    if n > 0 {
      assert seq(n, _ => true)[1..] == seq(n - 1, _ => true);
      AllProgrammed(n - 1);
    }
  }

  /** The parts _flashSave() writes: none when unlocking fails. */
  function Programmed(unlockOk: bool, programOk: seq<bool>): (k: nat)
    ensures k <= |programOk|
  {
    if unlockOk then FirstFailure(programOk) else 0
  }

  /** uFlashData and the storage page. `image` is the memory image of a tsRegulatedVal. */
  class ConfigStore {
    const image: Regulated -> seq<bv8>
    /** uFlashData.buff8. */
    const flashData: array<bv8>
    /** The bytes at FLASHSTORAGE2. */
    const storage: array<bv8>

    ghost predicate Valid()
      reads this
    {
      flashData.Length == FlashBytes && storage.Length == FlashBytes && flashData != storage
      && forall r :: |image(r)| == RegulatedSize
    }

    constructor (image: Regulated -> seq<bv8>, page: seq<bv8>)
      requires |page| == FlashBytes && forall r :: |image(r)| == RegulatedSize
      ensures Valid() && this.image == image && storage[..] == page
      ensures fresh(flashData) && fresh(storage)
    {
      this.image := image;
      flashData := new bv8[FlashBytes](_ => 0);
      storage := new bv8[FlashBytes](j requires 0 <= j < |page| => page[j]);
    }

    /**
     * flashErase(): only the storage addresses are erased (the storage page
     * here is the one at FLASHSTORAGE2); an error is reported for any other
     * address and whenever a HAL step fails, including the lock that follows
     * a successful erase.
     */
    method Erase(addr: nat, hal: EraseHal) returns (error: bool)
      requires Valid()
      modifies storage
      ensures error == EraseError(addr, hal)
      ensures storage[..] == if ErasesStorage(addr, hal) then Erased() else old(storage[..])
    {
      var page := ErasePage(addr);
      if page.None? {
        return true;
      }
      error := false;
      if !hal.unlockOk {
        error := true;
      } else {
        if !hal.eraseOk {
          error := true;
        }
        if !hal.lockOk {
          error := true;
        }
      }
      if !hal.pageErrorClear {
        error := true;
      }
      if page == Some(Page2) && hal.unlockOk && hal.eraseOk {
        forall j | 0 <= j < FlashBytes {
          storage[j] := 0xFF;
        }
      }
    }

    /**
     * _flashSave(): programs the double-words of uFlashData at consecutive
     * 8-byte offsets, stopping at the first failure, which is reported; a
     * failed unlock programs nothing. A failed lock is only reported.
     */
    method ProgramParts(unlockOk: bool, programOk: seq<bool>) returns (error: bool)
      requires Valid() && |programOk| == DataParts
      modifies storage
      ensures var k := Programmed(unlockOk, programOk);
              storage[..] == flashData[..k * PartSize] + old(storage[k * PartSize..])
      ensures error == (!unlockOk || Programmed(unlockOk, programOk) < DataParts)
    {
      if !unlockOk {
        return true;
      }
      error := false;
      var i := 0;
      while i < DataParts
        invariant 0 <= i <= DataParts && i <= FirstFailure(programOk)
        invariant storage[..] == flashData[..i * PartSize] + old(storage[i * PartSize..])
        invariant !error
      {
        if !programOk[i] {
          error := true;
          break;
        }
        forall j | i * PartSize <= j < (i + 1) * PartSize {
          storage[j] := flashData[j];
        }
        assert storage[..] == flashData[..(i + 1) * PartSize] + old(storage[(i + 1) * PartSize..]);
        i := i + 1;
      }
    }

    /**
     * flashSaveConfig(): when flashErase() reports success, `ref` and its
     * CRC-8 are put into uFlashData and programmed. When it reports an error
     * nothing is programmed and uFlashData is kept, although the page may
     * already be blank (a failed lock after a successful erase).
     */
    method SaveConfig(ref: Regulated, eraseHal: EraseHal, unlockOk: bool, programOk: seq<bool>)
      requires Valid() && |programOk| == DataParts
      modifies flashData, storage
      ensures EraseError(Storage2, eraseHal) ==>
        && flashData[..] == old(flashData[..])
        && storage[..] == if ErasesStorage(Storage2, eraseHal) then Erased() else old(storage[..])
      ensures !EraseError(Storage2, eraseHal) ==>
        var k := Programmed(unlockOk, programOk);
        && flashData[..] == Saved(image(ref), old(flashData[..]))
        && storage[..] == flashData[..k * PartSize] + Erased()[k * PartSize..]
    {
      var eraseError := Erase(Storage2, eraseHal);
      if !eraseError {
        var data := image(ref);
        forall j | 0 <= j < RegulatedSize {
          flashData[j] := data[j];
        }
        assert flashData[..RegulatedSize] == data;
        var crc := Crc8.Compute(flashData[..RegulatedSize]);
        flashData[RegulatedSize] := crc;
        assert flashData[..] == Saved(data, old(flashData[..]));
        var programError := ProgramParts(unlockOk, programOk);
      }
    }

    /**
     * flashReadConfig(): the stored page is copied into uFlashData, with
     * false returned, exactly when its CRC matches; otherwise uFlashData is
     * left as it was and true is returned.
     */
    method ReadConfig() returns (error: bool)
      requires Valid()
      modifies flashData
      ensures error == !Accepts(storage[..])
      ensures !error ==> flashData[..] == storage[..]
      ensures error ==> flashData[..] == old(flashData[..])
    {
      var local := storage[..];
      var crc := Crc8.Compute(local[..RegulatedSize]);
      assert crc == local[RegulatedSize] <==> Accepts(storage[..]);
      if crc == local[RegulatedSize] {
        forall j | 0 <= j < FlashBytes {
          flashData[j] := local[j];
        }
        assert storage[..] == local;
        error := false;
      } else {
        error := true;
      }
    }
  }

  /**
   * With every HAL step succeeding, saving `ref` and reading it back
   * succeeds and yields the saved bytes.
   */
  method SaveAndRead(store: ConfigStore, ref: Regulated) returns (error: bool)
    requires store.Valid()
    modifies store.flashData, store.storage
    ensures !error && store.flashData[..RegulatedSize] == store.image(ref)
  {
    var ok := seq(DataParts, _ => true);
    AllProgrammed(DataParts);
    store.SaveConfig(ref, EraseHal(true, true, true, true), true, ok);
    assert store.storage[..] == store.flashData[..];
    SavedAccepted(store.image(ref), old(store.flashData[..]));
    error := store.ReadConfig();
  }
}
