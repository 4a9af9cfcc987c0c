/** The flash-backed non-volatile memory layer the mesh library stores its state in: argument
    validation, read, compare-before-write and doubleword programming over an 8 KiB region. */
module PalNvm {
  import opened MeshTypes

  /** An unsigned 32-bit value (MOBLEUINT32) kept as an integer, so sums can be compared with
      and without 32-bit wrap-around. */
  type Word32 = x: int | 0 <= x < 0x1_0000_0000

  /** NVM_SIZE */
  const NvmSize: nat := 0x2000

  /** The 32-bit unsigned wrap of a sum or difference. */
  function Wrap32(x: int): (w: Word32)
    ensures 0 <= x < 0x1_0000_0000 ==> w == x
  {
    x % 0x1_0000_0000
  }

  // ---------------------------------------------------------------------------------------
  // Flash geometry

  /** FLASH_BASE, FLASH_BANK_SIZE and FLASH_PAGE_SIZE, defined in device headers outside this
      model. */
  datatype FlashGeometry = FlashGeometry(base: Word32, bankSize: Word32, pageSize: Word32)

  /** Unsigned 32-bit division. */
  function Div32(a: Word32, d: Word32): (q: Word32)
    requires d > 0
    ensures q * d <= a < (q + 1) * d
  {
    DivisionBrackets(a, d);
    a / d
  }

  /** GetPage: the page number of an address within its bank, in 32-bit unsigned arithmetic:
      the number of whole pages between the bank's first address and addr. */
  function GetPage(g: FlashGeometry, addr: Word32): (page: Word32)
    requires g.pageSize > 0
    ensures var bankStart := if addr < Wrap32(g.base + g.bankSize) then g.base else Wrap32(g.base + g.bankSize);
      page * g.pageSize <= Wrap32(addr - bankStart) < (page + 1) * g.pageSize
  {
    if addr < Wrap32(g.base + g.bankSize) then Div32(Wrap32(addr - g.base), g.pageSize)
    else Div32(Wrap32(addr - Wrap32(g.base + g.bankSize)), g.pageSize)
  }

  /** On a layout that does not wrap the address space, an address in bank 1 or bank 2 lies in
      the page GetPage names: that page starts at or before it and the next one after it. */
  lemma GetPageLocates(g: FlashGeometry, addr: Word32)
    requires g.pageSize > 0 && g.base + 2 * g.bankSize < 0x1_0000_0000
    requires g.base <= addr < g.base + 2 * g.bankSize
    ensures var bankStart := if addr < g.base + g.bankSize then g.base else g.base + g.bankSize;
      var page := GetPage(g, addr);
      bankStart + page * g.pageSize <= addr < bankStart + (page + 1) * g.pageSize
  {
    var bankStart := if addr < g.base + g.bankSize then g.base else g.base + g.bankSize;
    assert Wrap32(g.base + g.bankSize) == g.base + g.bankSize;
    assert Wrap32(addr - bankStart) == addr - bankStart;
  }

  lemma DivisionBrackets(a: nat, d: nat)
    requires d > 0
    ensures a / d <= a
    ensures (a / d) * d <= a < (a / d + 1) * d
  {
    DivMod(a, d);
    MulSucc(a / d, d);
    MulAtLeast(a / d, d);
  }

  lemma DivMod(a: nat, d: nat)
    requires d > 0
    ensures a == (a / d) * d + a % d && 0 <= a % d < d
  {
  }

  lemma MulSucc(q: nat, d: nat)
    ensures (q + 1) * d == q * d + d
  {
  }

  lemma MulAtLeast(q: nat, d: nat)
    requires d > 0
    ensures q <= q * d
  {
    assert q * d == q * (d - 1) + q;
  }

  /** MoblePalNvmIsWriteProtected: all of the flash is writable. */
  function IsWriteProtected(): (r: bool)
    ensures !r
  {
    false
  }

  // ---------------------------------------------------------------------------------------
  // Argument validation

  /** The part of the chain Read, Compare and Write share, exactly as written: the bound on the
      end of the range uses the 32-bit sum offset + size, which wraps. */
  function RangeCheckAsWritten(offset: Word32, size: Word32): (r: MobleResult)
    ensures r == Success <==>
      0 < size && offset <= NvmSize && (offset + size <= NvmSize || offset + size >= 0x1_0000_0000)
    ensures r == False <==> offset <= NvmSize && size == 0
    ensures r == Success || r == False || r == InvalidArg
  {
    if offset > NvmSize then InvalidArg
    else if size == 0 then False
    else if Wrap32(offset + size) > NvmSize then InvalidArg
    else Success
  }

  /** The same chain with the end of the range computed without wrap-around. */
  function RangeCheck(offset: Word32, size: Word32): (r: MobleResult)
    ensures r == Success <==> 0 < size && offset + size <= NvmSize
    ensures r == False <==> offset <= NvmSize && size == 0
    ensures r == Success || r == False || r == InvalidArg
  {
    if offset > NvmSize then InvalidArg
    else if size == 0 then False
    else if offset + size > NvmSize then InvalidArg
    else Success
  }

  /** The chain of Write (and of Compare after its null checks): the range, then 4-byte alignment
      of offset and size. */
  function AlignedCheck(range: MobleResult, offset: Word32, size: Word32): MobleResult
  {
    if range != Success then range
    else if offset % 4 != 0 then InvalidArg
    else if size % 4 != 0 then InvalidArg
    else Success
  }

  function WriteCheck(offset: Word32, size: Word32): (r: MobleResult)
    ensures r == Success <==> 0 < size && offset + size <= NvmSize && offset % 4 == 0 && size % 4 == 0
    ensures r == False <==> offset <= NvmSize && size == 0
  {
    AlignedCheck(RangeCheck(offset, size), offset, size)
  }

  function WriteCheckAsWritten(offset: Word32, size: Word32): (r: MobleResult)
    ensures r == Success <==>
      && 0 < size && offset <= NvmSize && offset % 4 == 0 && size % 4 == 0
      && (offset + size <= NvmSize || offset + size >= 0x1_0000_0000)
    ensures r == False <==> offset <= NvmSize && size == 0
  {
    AlignedCheck(RangeCheckAsWritten(offset, size), offset, size)
  }

  /** The chain of Compare exactly as written: the null checks, then the wrapping Write chain. */
  function CompareCheckAsWritten(hasComparison: bool, hasBuffer: bool, offset: Word32, size: Word32): (r: MobleResult)
    ensures !hasComparison || !hasBuffer ==> r == InvalidArg
    ensures hasComparison && hasBuffer ==> r == WriteCheckAsWritten(offset, size)
  {
    if !hasComparison || !hasBuffer then InvalidArg else WriteCheckAsWritten(offset, size)
  }

  /** The chain of Compare: a missing comparison target or buffer is rejected first. */
  function CompareCheck(hasComparison: bool, hasBuffer: bool, offset: Word32, size: Word32): (r: MobleResult)
    ensures !hasComparison || !hasBuffer ==> r == InvalidArg
    ensures hasComparison && hasBuffer ==> r == WriteCheck(offset, size)
  {
    if !hasComparison || !hasBuffer then InvalidArg else WriteCheck(offset, size)
  }

  /** Every range the corrected chains accept lies inside the NVM region. */
  lemma AcceptedRangeInside(offset: Word32, size: Word32)
    requires RangeCheck(offset, size) == Success || WriteCheck(offset, size) == Success
    ensures offset + size <= NvmSize
  {
  }

  /** As written and corrected chains agree whenever the 32-bit sum does not wrap. */
  lemma {:induction false} ChecksAgreeWithoutWrap(offset: Word32, size: Word32)
    requires offset + size < 0x1_0000_0000
    ensures RangeCheckAsWritten(offset, size) == RangeCheck(offset, size)
    ensures WriteCheckAsWritten(offset, size) == WriteCheck(offset, size)
  {
    assert Wrap32(offset + size) == offset + size;
  }

  /** The wrap lets through ranges that run far past the region: a read of 0xFFFFFFFF bytes at
      offset 1, and a write or compare of 0xFFFFFFFC bytes at the aligned offset 4. */
  lemma WrappedRangeAccepted()
    ensures RangeCheckAsWritten(1, 0xFFFF_FFFF) == Success && RangeCheck(1, 0xFFFF_FFFF) == InvalidArg
    ensures WriteCheckAsWritten(4, 0xFFFF_FFFC) == Success && WriteCheck(4, 0xFFFF_FFFC) == InvalidArg
  {
    assert Wrap32(1 + 0xFFFF_FFFF) == 0;
    assert Wrap32(4 + 0xFFFF_FFFC) == 0;
  }

  // ---------------------------------------------------------------------------------------
  // Read

  /** MoblePalNvmRead. nvm is the region at `address`; the copy happens only when the chain
      accepts, and then buf receives exactly the size bytes at offset. The backup flag is unused. */
  method Read(nvm: seq<u8>, offset: Word32, buf: array<u8>, size: Word32, backup: bool) returns (r: MobleResult)
    requires |nvm| == NvmSize
    requires RangeCheck(offset, size) == Success ==> size <= buf.Length
    modifies buf
    ensures r == RangeCheck(offset, size)
    ensures offset + size < 0x1_0000_0000 ==> r == RangeCheckAsWritten(offset, size)
    ensures r != RangeCheckAsWritten(offset, size) ==> r == InvalidArg && RangeCheckAsWritten(offset, size) == Success
    ensures r == Success ==> buf[..size] == nvm[offset..offset + size] && buf[size..] == old(buf[size..])
    ensures r != Success ==> buf[..] == old(buf[..])
  {
    r := RangeCheck(offset, size);
    if r == Success {
      forall i | 0 <= i < size {
        buf[i] := nvm[offset + i];
      }
    }
  }

  // ---------------------------------------------------------------------------------------
  // Doubleword view and comparison

  /** MOBLE_NVM_COMPARE */
  datatype NvmCompare = Equal | NotEqual | NotEqualErase

  /** Writing s over d needs an erase first when d holds a set bit that s does not. */
  predicate NeedsErase(s: u64, d: u64)
    ensures NeedsErase(s, d) ==> s != d
  {
    s & d != d
  }

  /** The outcome the compare loop reports for source words src against flash words dst. */
  function Classify(src: seq<u64>, dst: seq<u64>): (c: NvmCompare)
    requires |src| == |dst|
    ensures c == Equal ==> src == dst
    ensures c == NotEqual ==> src != dst
  {
    if exists i :: 0 <= i < |src| && NeedsErase(src[i], dst[i]) then NotEqualErase
    else if src != dst then NotEqual
    else Equal
  }

  /** EQUAL exactly when every compared word matches; NOT_EQUAL_ERASE exactly when some word
      needs an erase. */
  lemma {:induction false} ClassifyMeaning(src: seq<u64>, dst: seq<u64>)
    requires |src| == |dst|
    ensures Classify(src, dst) == Equal <==> src == dst
    ensures Classify(src, dst) == NotEqualErase <==> exists i :: 0 <= i < |src| && NeedsErase(src[i], dst[i])
    ensures Classify(src, dst) == NotEqual ==>
      src != dst && forall i :: 0 <= i < |src| ==> src[i] & dst[i] == dst[i]
  {
    if src == dst {
      forall i | 0 <= i < |src|
        ensures !NeedsErase(src[i], dst[i])
      {
        SelfAndIsSelf(src[i]);
      }
    }
  }

  lemma SelfAndIsSelf(w: u64)
    ensures w & w == w
  {
  }

  /** The effect of one loop iteration on the comparison so far. */
  function Step(c: NvmCompare, s: u64, d: u64): NvmCompare
  {
    if c == NotEqualErase || NeedsErase(s, d) then NotEqualErase
    else if c == NotEqual || s != d then NotEqual
    else Equal
  }

  /** One more compared word: the classification of the longer prefix. */
  lemma {:induction false} ClassifyExtend(src: seq<u64>, dst: seq<u64>, i: nat)
    requires |src| == |dst| && i < |src|
    ensures Classify(src[..i + 1], dst[..i + 1]) == Step(Classify(src[..i], dst[..i]), src[i], dst[i])
  {
    var a, b := src[..i + 1], dst[..i + 1];
    assert src[..i] == a[..i] && dst[..i] == b[..i];
    assert a[i] == src[i] && b[i] == dst[i];
    if exists j :: 0 <= j < i && NeedsErase(src[..i][j], dst[..i][j]) {
      var j :| 0 <= j < i && NeedsErase(src[..i][j], dst[..i][j]);
      assert NeedsErase(a[j], b[j]);
    } else if !NeedsErase(src[i], dst[i]) {
      forall j | 0 <= j < i + 1
        ensures !NeedsErase(a[j], b[j])
      {
        if j < i {
          assert a[j] == src[..i][j] && b[j] == dst[..i][j];
        }
      }
      if src[..i] != dst[..i] {
        var j :| 0 <= j < i && src[..i][j] != dst[..i][j];
        assert a[j] != b[j];
      } else if src[i] == dst[i] {
        assert a == b;
      }
    }
  }

  lemma PrefixStep(src: seq<u64>, dst: seq<u64>, i: nat, before: NvmCompare, after: NvmCompare)
    requires |src| == |dst| && i < |src|
    requires before == Classify(src[..i], dst[..i])
    requires after == Step(before, src[i], dst[i])
    ensures after == Classify(src[..i + 1], dst[..i + 1])
  {
    ClassifyExtend(src, dst, i);
  }

  /** Once a word needs an erase, no later word changes the outcome. */
  lemma {:induction false} EraseIsFinal(src: seq<u64>, dst: seq<u64>, i: nat)
    requires |src| == |dst| && i <= |src|
    requires Classify(src[..i], dst[..i]) == NotEqualErase
    ensures Classify(src, dst) == NotEqualErase
  {
    var j :| 0 <= j < i && NeedsErase(src[..i][j], dst[..i][j]);
    assert src[..i][j] == src[j] && dst[..i][j] == dst[j];
  }

  /** MoblePalNvmCompare. The buffer and the flash at address + offset are seen through
      uint64_t pointers: buf and flash are those doubleword views. The comparison target is
      written only when the chain accepts. */
  method Compare(flash: seq<u64>, offset: Word32, buf: Option<seq<u64>>, size: Word32,
                 hasComparison: bool, prior: NvmCompare) returns (r: MobleResult, comparison: NvmCompare)
    requires buf.Some? && WriteCheck(offset, size) == Success ==> size / 8 <= |buf.value| && size / 8 <= |flash|
    ensures r == CompareCheck(hasComparison, buf.Some?, offset, size)
    ensures r != CompareCheckAsWritten(hasComparison, buf.Some?, offset, size) ==>
      r == InvalidArg && CompareCheckAsWritten(hasComparison, buf.Some?, offset, size) == Success
    ensures r == Success ==> comparison == Classify(buf.value[..size / 8], flash[..size / 8])
    ensures r == Success && size / 8 <= 1 ==> comparison == CompareAsWritten(flash, buf.value, size)
    ensures r != Success ==> comparison == prior
  {
    r := CompareCheck(hasComparison, buf.Some?, offset, size);
    comparison := prior;
    if r == Success {
      comparison := CompareWords(buf.value[..size / 8], flash[..size / 8]);
      if size / 8 <= 1 {
        StrideAgreesOnOneWord(flash, buf.value, size);
      }
    }
  }

  /** The loop of MoblePalNvmCompare over the compared doublewords, stopping at the first one
      that needs an erase. */
  method CompareWords(src: seq<u64>, dst: seq<u64>) returns (comparison: NvmCompare)
    requires |src| == |dst|
    ensures comparison == Classify(src, dst)
  {
    comparison := Equal;
    var i := 0;
    while i < |src|
      invariant 0 <= i <= |src|
      invariant comparison == Classify(src[..i], dst[..i]) && comparison != NotEqualErase
    {
      ghost var before := comparison;
      if src[i] != dst[i] && comparison == Equal {
        comparison := NotEqual;
      }
      if src[i] & dst[i] != dst[i] {
        comparison := NotEqualErase;
        PrefixStep(src, dst, i, before, comparison);
        EraseIsFinal(src, dst, i + 1);
        return;
      }
      PrefixStep(src, dst, i, before, comparison);
      i := i + 1;
    }
    assert src[..i] == src && dst[..i] == dst;
  }

  /** The compare loop exactly as written: it indexes both views with i<<3, i.e. doubleword 8*i,
      so it reads 8*(n-1)+1 doublewords of each. */
  function CompareAsWritten(flash: seq<u64>, buf: seq<u64>, size: Word32): (c: NvmCompare)
    requires size / 8 == 0 || 8 * (size / 8 - 1) < |buf|
    requires size / 8 == 0 || 8 * (size / 8 - 1) < |flash|
    ensures c == Equal <==> forall i :: 0 <= i < size / 8 ==> buf[8 * i] == flash[8 * i]
    ensures c == NotEqualErase <==> exists i :: 0 <= i < size / 8 && NeedsErase(buf[8 * i], flash[8 * i])
  {
    var n := size / 8;
    var src := seq(n, i requires 0 <= i < n => buf[8 * i]);
    var dst := seq(n, i requires 0 <= i < n => flash[8 * i]);
    ClassifyMeaning(src, dst);
    assert forall i :: 0 <= i < n ==> src[i] == buf[8 * i] && dst[i] == flash[8 * i];
    assert src == dst <==> forall i :: 0 <= i < n ==> buf[8 * i] == flash[8 * i] by {
      if src != dst {
        var i :| 0 <= i < n && src[i] != dst[i];
        assert buf[8 * i] != flash[8 * i];
      }
    }
    assert (exists i :: 0 <= i < n && NeedsErase(src[i], dst[i])) <==>
           (exists i :: 0 <= i < n && NeedsErase(buf[8 * i], flash[8 * i]));
    Classify(src, dst)
  }

  /** With at most one doubleword to compare, the strided index 8*i is index i, so the loop as
      written and the intended loop agree. */
  lemma StrideAgreesOnOneWord(flash: seq<u64>, buf: seq<u64>, size: Word32)
    requires size / 8 <= 1 && size / 8 <= |buf| && size / 8 <= |flash|
    ensures CompareAsWritten(flash, buf, size) == Classify(buf[..size / 8], flash[..size / 8])
  {
    var n := size / 8;
    assert seq(n, i requires 0 <= i < n => buf[8 * i]) == buf[..n];
    assert seq(n, i requires 0 <= i < n => flash[8 * i]) == flash[..n];
  }

  /** Sixteen bytes that agree with the flash are reported NOT_EQUAL as written, because the
      second comparison reads doubleword 8 of both sides instead of doubleword 1. */
  lemma StridedCompareMisreports()
    ensures var flash := seq(9, _ => 0 as u64);
      var buf := flash[8 := 1];
      Classify(buf[..16 / 8], flash[..16 / 8]) == Equal &&
      CompareAsWritten(flash, buf, 16) == NotEqual
  {
    var flash := seq(9, _ => 0 as u64);
    var buf := flash[8 := 1];
    assert buf[..2] == flash[..2];
    ClassifyMeaning(buf[..2], flash[..2]);
    var c := seq(2, i requires 0 <= i < 2 => buf[8 * i]);
    var d := seq(2, i requires 0 <= i < 2 => flash[8 * i]);
    assert c[0] == 0 && c[1] == 1 && d[0] == 0 && d[1] == 0;
    assert !NeedsErase(c[0], d[0]) && !NeedsErase(c[1], d[1]);
    assert c != d;
  }

  /** A size that is a multiple of 4 but not of 8 passes the chain, yet only size/8 whole
      doublewords are compared: a 4-byte compare looks at nothing and reports EQUAL. */
  lemma FourByteCompareSeesNothing(flash: seq<u64>, buf: seq<u64>)
    ensures CompareCheck(true, true, 0, 4) == Success
    ensures Classify(buf[..4 / 8], flash[..4 / 8]) == Equal
  {
  }

  // ---------------------------------------------------------------------------------------
  // Write

  /** One HAL_FLASH_Program doubleword request: the absolute address and the data. */
  datatype ProgramCall = ProgramCall(address: Word32, data: u64)

  /** The requests for the first m doublewords of buf, to addresses address + offset + 8*i. */
  function ProgramCalls(address: Word32, offset: Word32, buf: seq<u64>, m: nat): (c: seq<ProgramCall>)
    requires m <= |buf|
    ensures |c| == m
    ensures forall i :: 0 <= i < m ==> c[i] == ProgramCall(Wrap32(address + offset + 8 * i), buf[i])
  {
    seq(m, i requires 0 <= i < m => ProgramCall(Wrap32(address + offset + 8 * i), buf[i]))
  }

  /** The index of the first failing program request among the first n, or n when none fails. */
  function FirstFailure(halOk: seq<bool>, n: nat): (k: nat)
    requires n <= |halOk|
    ensures k <= n
    ensures forall j :: 0 <= j < k ==> halOk[j]
    ensures k < n ==> !halOk[k]
    decreases n
  {
    if n == 0 then 0
    else if FirstFailure(halOk, n - 1) < n - 1 then FirstFailure(halOk, n - 1)
    else if halOk[n - 1] then n else n - 1
  }

  /** MoblePalNvmWrite, with buf seen as doublewords. halOk[i] is the outcome the flash driver reports for the i-th doubleword
      request. After the chain accepts, the doublewords are programmed in order, stopping at the
      first failure, which gives FAIL. */
  method Write(address: Word32, offset: Word32, buf: seq<u64>, size: Word32, halOk: seq<bool>)
      returns (r: MobleResult, calls: seq<ProgramCall>)
    requires WriteCheck(offset, size) == Success ==> size / 8 <= |buf| && size / 8 <= |halOk|
    ensures WriteCheck(offset, size) != Success ==> r == WriteCheck(offset, size) && calls == []
    ensures WriteCheck(offset, size) != WriteCheckAsWritten(offset, size) ==>
      r == InvalidArg && calls == [] && WriteCheckAsWritten(offset, size) == Success && offset + size >= 0x1_0000_0000
    ensures WriteCheck(offset, size) == Success ==>
      var n := size / 8;
      var k := FirstFailure(halOk, n);
      && calls == ProgramCalls(address, offset, buf, if k < n then k + 1 else n)
      && (r == Success <==> k == n)
      && (r == Fail <==> k < n)
  {
    r := WriteCheck(offset, size);
    calls := [];
    if r != Success {
      return;
    }
    var n := size / 8;
    var status := true;
    var i := 0;
    while i < n && status
      invariant 0 <= i <= n
      invariant status && forall j :: 0 <= j < i ==> halOk[j]
      invariant calls == ProgramCalls(address, offset, buf, i)
    {
      status := halOk[i];
      calls := calls + [ProgramCall(Wrap32(address + offset + 8 * i), buf[i])];
      if !status {
        FirstFailureAt(halOk, n, i);
        r := Fail;
        break;
      }
      i := i + 1;
    }
    if status {
      FirstFailureNone(halOk, n);
    }
  }

  lemma {:induction false} FirstFailureAt(halOk: seq<bool>, n: nat, i: nat)
    requires i < n <= |halOk| && !halOk[i] && forall j :: 0 <= j < i ==> halOk[j]
    ensures FirstFailure(halOk, n) == i
    decreases n
  {
    if n - 1 > i {
      FirstFailureAt(halOk, n - 1, i);
    } else if n - 1 == i {
      FirstFailureNone(halOk, i);
    }
  }

  lemma {:induction false} FirstFailureNone(halOk: seq<bool>, n: nat)
    requires n <= |halOk| && forall j :: 0 <= j < n ==> halOk[j]
    ensures FirstFailure(halOk, n) == n
    decreases n
  {
    if n > 0 {
      FirstFailureNone(halOk, n - 1);
    }
  }

  /** Every doubleword request stays inside the NVM region when the chain accepts. */
  lemma ProgramCallsInside(address: Word32, offset: Word32, buf: seq<u64>, size: Word32)
    requires WriteCheck(offset, size) == Success && size / 8 <= |buf|
    requires address + NvmSize < 0x1_0000_0000
    ensures forall c :: c in ProgramCalls(address, offset, buf, size / 8) ==>
      address + offset <= c.address && c.address + 8 <= address + offset + size
  {
    var calls := ProgramCalls(address, offset, buf, size / 8);
    forall c | c in calls
      ensures address + offset <= c.address && c.address + 8 <= address + offset + size
    {
      var i :| 0 <= i < |calls| && calls[i] == c;
      assert c.address == address + offset + 8 * i;
    }
  }
}
