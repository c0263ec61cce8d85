/**
 * `UploadBuffer<T>` (UploadBuffer.h): an upload-heap buffer of elementCount
 * elements that stays mapped for its whole life, so that the CPU can write an
 * element with one `memcpy`.
 *
 * `T` is reduced to its size in bytes. The size that
 * `CalculateConstantBufferByteSize` gives a constant-buffer element is a
 * parameter, since that helper is not part of this model. The mapped memory
 * is an array of bytes; the buffer holds a resource until it is released.
 */
module Upload {
  import opened Arith

  type Byte = b: int | 0 <= b < 0x100

  /** 2^32, one more than the largest `UINT`. */
  const Two32: nat := 0x1_0000_0000

  /** 2^64, one more than the largest `UINT64`. */
  const Two64: nat := 0x1_0000_0000_0000_0000

  /**
   * The byte offset `CopyData` writes at: `elementIndex * mElementByteSize`
   * mixes an `int` with a `UINT`, so the index is converted to 32 bits
   * unsigned and the product is taken modulo 2^32.
   */
  function ElementOffset(elementIndex: int, stride: nat): (offset: nat)
    ensures offset < Two32
  {
    ((elementIndex % Two32) * stride) % Two32
  }

  /** The bytes of s with d copied over them from position at on. */
  function Overwrite(s: seq<Byte>, at: nat, d: seq<Byte>): (r: seq<Byte>)
    requires at + |d| <= |s|
    ensures |r| == |s|
    ensures forall k :: 0 <= k < |s| ==> r[k] == if at <= k < at + |d| then d[k - at] else s[k]
  {
    s[..at] + d + s[at + |d|..]
  }

  /** The stride `mElementByteSize` the constructor settles on. */
  function ElementByteSize(elementSize: nat, isConstantBuffer: bool, constantBufferByteSize: nat): nat {
    if isConstantBuffer then constantBufferByteSize else elementSize
  }

  /** Two 32-bit factors never overflow a 64-bit product. */
  lemma ProductFits(a: nat, b: nat)
    requires a < Two32 && b < Two32
    ensures a * b < Two64
  {
    MulMonotone(a, Two32, b);
    MulMonotone(b, Two32, Two32);
  }

  /**
   * For an index in range and a buffer no larger than 2^32 bytes, the 32-bit
   * offset is the plain product, and element i ends no later than element
   * i + 1 starts.
   */
  lemma {:induction false} OffsetInRange(i: nat, stride: nat, count: nat)
    requires i < count && count * stride <= Two32
    ensures ElementOffset(i, stride) == i * stride
    ensures i * stride + stride <= count * stride
  {
    MulMonotone(i, count, stride);
    assert (i + 1) * stride == i * stride + stride;
    if i + 1 < count {
      MulMonotone(i + 1, count, stride);
    }
    assert i * stride + stride <= count * stride;
    if stride > 0 {
      assert i * stride < Two32;
      assert i <= i * stride;
      assert i % Two32 == i;
    } else {
      assert i * stride == 0;
    }
  }

  /**
   * Elements i and j != i of a buffer no larger than 2^32 bytes, with a stride
   * at least the element size, occupy disjoint byte ranges.
   */
  lemma ElementsDisjoint(i: nat, j: nat, size: nat, stride: nat, count: nat)
    requires i < count && j < count && i != j
    requires size <= stride && count * stride <= Two32
    ensures ElementOffset(i, stride) + size <= ElementOffset(j, stride)
         || ElementOffset(j, stride) + size <= ElementOffset(i, stride)
  {
    OffsetInRange(i, stride, count);
    OffsetInRange(j, stride, count);
    var lo, hi := if i < j then i else j, if i < j then j else i;
    NextElementStart(lo, hi, stride);
  }

  /** Element lo ends no later than any later element hi starts. */
  lemma NextElementStart(lo: nat, hi: nat, stride: nat)
    requires lo < hi
    ensures lo * stride + stride <= hi * stride
  {
    assert hi * stride == lo * stride + stride + (hi - lo - 1) * stride;
  }

  /** An index of 2^24 with a 256-byte stride comes back round to offset 0, the first element's. */
  lemma OffsetWrapsAt4GiB()
    ensures ElementOffset(0x100_0000, 256) == ElementOffset(0, 256) == 0
  {
  }

  /** A negative index is taken as a large unsigned one: -1 writes just below 4 GiB. */
  lemma NegativeIndexWraps(stride: nat)
    requires 0 < stride <= Two32
    ensures ElementOffset(-1, stride) == Two32 - stride
  {
    assert -1 % Two32 == Two32 - 1;
    assert (Two32 - 1) * stride == (stride - 1) * Two32 + (Two32 - stride);
    ModOfMultiplePlus(stride - 1, Two32 - stride);
  }

  lemma ModOfMultiplePlus(q: nat, r: nat)
    requires r < Two32
    ensures (q * Two32 + r) % Two32 == r
  {
  }

  /** `UploadBuffer<T>` with `sizeof(T)` == elementSize. */
  class UploadBuffer {
    const elementSize: nat
    const isConstantBuffer: bool
    var elementByteSize: nat
    var allocationSize: nat
    var hasResource: bool
    var mapped: bool
    var mappedData: array<Byte>

    ghost predicate Valid()
      reads this
    {
      mappedData.Length == allocationSize && (mapped ==> hasResource)
    }

    /**
     * The constructor: the stride is the element size, or for a constant
     * buffer the size `CalculateConstantBufferByteSize` gives; the resource is
     * stride times elementCount bytes, computed in 64 bits; it is created and
     * mapped (the model follows the path on which both succeed; the memory is
     * shown as zeros).
     */
    constructor (elementSize: nat, elementCount: nat, isConstantBuffer: bool, constantBufferByteSize: nat)
      requires elementSize < Two32 && elementCount < Two32 && constantBufferByteSize < Two32
      ensures Valid() && fresh(mappedData)
      ensures this.elementSize == elementSize && this.isConstantBuffer == isConstantBuffer
      ensures elementByteSize == ElementByteSize(elementSize, isConstantBuffer, constantBufferByteSize)
      ensures allocationSize == elementByteSize * elementCount && allocationSize < Two64
      ensures hasResource && mapped
    {
      this.elementSize := elementSize;
      this.isConstantBuffer := isConstantBuffer;
      var stride := elementSize;
      if isConstantBuffer {
        stride := constantBufferByteSize;
      }
      elementByteSize := stride;
      ProductFits(stride, elementCount);
      allocationSize := stride * elementCount;
      hasResource := true;
      mapped := true;
      mappedData := new Byte[stride * elementCount](_ => 0);
    }

    /**
     * `CopyData(elementIndex, data)`: the element's bytes are copied to the
     * 32-bit offset of the index, and nothing else in the mapped memory
     * changes. There is no bounds check in the source; the copy has to land
     * inside the mapped memory.
     */
    method CopyData(elementIndex: int, data: seq<Byte>)
      requires Valid() && mapped
      requires |data| == elementSize
      requires ElementOffset(elementIndex, elementByteSize) + elementSize <= mappedData.Length
      modifies mappedData
      ensures Valid()
      ensures mappedData[..] == Overwrite(old(mappedData[..]), ElementOffset(elementIndex, elementByteSize), data)
    {
      var offset := ElementOffset(elementIndex, elementByteSize);
      forall k | 0 <= k < |data| {
        mappedData[offset + k] := data[k];
      }
    }

    /** The destructor: unmap only when a resource is held, then drop it. */
    method Release() returns (unmapped: bool)
      requires Valid()
      modifies this`hasResource, this`mapped
      ensures Valid()
      ensures unmapped == old(hasResource)
      ensures !hasResource && !mapped
    {
      unmapped := false;
      if hasResource {
        unmapped := true;
        mapped := false;
      }
      hasResource := false;
    }
  }

  /** Right after a copy, the element reads back as the bytes copied. */
  lemma CopyReadsBack(s: seq<Byte>, at: nat, d: seq<Byte>)
    requires at + |d| <= |s|
    ensures Overwrite(s, at, d)[at..at + |d|] == d
  {
    var r := Overwrite(s, at, d);
    forall k | 0 <= k < |d|
      ensures r[at..at + |d|][k] == d[k]
    {
      assert r[at + k] == d[k];
    }
  }

  /**
   * In a buffer of at most 2^32 bytes whose stride is at least the element
   * size (always so for a non-constant buffer, where the two are equal),
   * copying element i leaves every byte of every other element j as it was.
   */
  lemma CopyKeepsOtherElements(s: seq<Byte>, size: nat, stride: nat, count: nat, i: nat, j: nat, d: seq<Byte>)
    requires |s| == count * stride && count * stride <= Two32 && size <= stride
    requires i < count && j < count && i != j && |d| == size
    ensures ElementOffset(i, stride) + size <= |s| && ElementOffset(j, stride) + size <= |s|
    ensures Overwrite(s, ElementOffset(i, stride), d)[ElementOffset(j, stride)..ElementOffset(j, stride) + size]
         == s[ElementOffset(j, stride)..ElementOffset(j, stride) + size]
  {
    OffsetInRange(i, stride, count);
    OffsetInRange(j, stride, count);
    ElementsDisjoint(i, j, size, stride, count);
  }
}
