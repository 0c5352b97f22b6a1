/** The growable float buffer used by the decoder and the separation pipeline:
    a backing array `buf` of which the first `size` entries are in use, grown
    by doubling (with a floor of 8) whenever an append would overflow it. */
module FloatArrayBuilders {
  import opened JvmInt

  /** Growth is only modelled up to this many elements: one more doubling step
      past it overflows Kotlin's `Int` (see `GrowthStepWraps`). */
  const MAX_CAPACITY: int := 0x4000_0000

  /** One turn of the growth loop: `(newCap * 2).coerceAtLeast(8)` in `Int`. */
  function GrowthStep(c: int): (r: int)
    ensures r >= 8
    ensures 1 <= c < MAX_CAPACITY ==> r == if 2 * c < 8 then 8 else 2 * c
  {
    var doubled := Wrap32(c * 2);
    if doubled < 8 then 8 else doubled
  }

  /** The first value `>= minCapacity` in the sequence `c, GrowthStep(c), ...`. */
  function GrownCapacity(c: int, minCapacity: int): int
    requires 1 <= c && (minCapacity <= c || minCapacity <= MAX_CAPACITY)
    decreases minCapacity - c
  {
    if c >= minCapacity then c else GrownCapacity(GrowthStep(c), minCapacity)
  }

  /** The grown capacity covers the request, never shrinks, and overshoots by
      less than a factor of two (or lands on the floor of 8). */
  lemma {:induction false} GrownCapacityBounds(c: int, minCapacity: int)
    requires 1 <= c && (minCapacity <= c || minCapacity <= MAX_CAPACITY)
    ensures GrownCapacity(c, minCapacity) >= minCapacity
    ensures GrownCapacity(c, minCapacity) >= c
    ensures c >= minCapacity ==> GrownCapacity(c, minCapacity) == c
    ensures c < minCapacity ==>
      GrownCapacity(c, minCapacity) <= if 2 * (minCapacity - 1) < 8 then 8 else 2 * (minCapacity - 1)
    decreases minCapacity - c
  {
    if c < minCapacity {
      GrownCapacityBounds(GrowthStep(c), minCapacity);
    }
  }

  /** Past `MAX_CAPACITY` the doubling wraps to a negative `Int` and the floor
      of 8 takes over, so a request above `2^30` would cycle forever. */
  lemma GrowthStepWraps()
    ensures GrowthStep(MAX_CAPACITY) == 8
  {
  }

  /** Kotlin's `FloatArray.copyOf(n)`: a fresh array of length `n` holding the
      first `n` entries of `a`, padded with zeros. */
  method CopyOf(a: array<real>, n: int) returns (r: array<real>)
    requires n >= 0
    ensures fresh(r) && r.Length == n
    ensures n <= a.Length ==> r[..] == a[..n]
    ensures n > a.Length ==> r[..a.Length] == a[..]
    ensures forall i :: a.Length <= i < n ==> r[i] == 0.0
  {
    r := new real[n];
    var i := 0;
    while i < n
      modifies r
      invariant 0 <= i <= n
      invariant forall j :: 0 <= j < i ==> r[j] == if j < a.Length then a[j] else 0.0
    {
      r[i] := if i < a.Length then a[i] else 0.0;
      i := i + 1;
    }
  }

  /** Kotlin's `values.copyInto(dest, destOffset, start, end)`: overwrite
      `dest[destOffset .. destOffset + end - start)` with `values[start .. end)`. */
  method CopyInto(values: array<real>, dest: array<real>, destOffset: int, start: int, end: int)
    requires values != dest
    requires 0 <= start <= end <= values.Length
    requires 0 <= destOffset && destOffset + (end - start) <= dest.Length
    modifies dest
    ensures dest[..] == old(dest[..destOffset]) + values[start..end]
                        + old(dest[destOffset + (end - start)..])
  {
    var k := 0;
    while k < end - start
      modifies dest
      invariant 0 <= k <= end - start
      invariant forall j :: 0 <= j < dest.Length ==>
        dest[j] == if destOffset <= j < destOffset + k then values[start + j - destOffset] else old(dest[j])
    {
      dest[destOffset + k] := values[start + k];
      k := k + 1;
    }
  }

  class FloatArrayBuilder {
    var buf: array<real>
    var size: int

    ghost predicate Valid()
      reads this
    {
      1 <= buf.Length && 0 <= size <= buf.Length
    }

    /** Everything appended so far, in order. */
    ghost function Contents(): seq<real>
      reads this, buf
      requires Valid()
    {
      buf[..size]
    }

    /** A non-positive initial capacity is raised to 1. */
    constructor (initialCapacity: int)
      ensures Valid() && fresh(buf)
      ensures Contents() == []
      ensures buf.Length == if initialCapacity < 1 then 1 else initialCapacity
    {
      buf := new real[if initialCapacity < 1 then 1 else initialCapacity];
      size := 0;
    }

    /** Reallocate to `GrownCapacity` when `minCapacity` exceeds the current
        capacity; the old entries are copied over. A request the capacity
        already covers returns at once, whatever its size. */
    method EnsureCapacity(minCapacity: int)
      requires Valid() && (minCapacity <= buf.Length || minCapacity <= MAX_CAPACITY)
      modifies this
      ensures Valid() && size == old(size)
      ensures minCapacity <= old(buf.Length) ==> buf == old(buf)
      ensures minCapacity > old(buf.Length) ==> fresh(buf)
      ensures buf.Length == GrownCapacity(old(buf.Length), minCapacity)
      ensures buf.Length >= minCapacity && buf.Length >= old(buf.Length)
      ensures buf[..old(buf.Length)] == old(buf[..])
    {
      GrownCapacityBounds(buf.Length, minCapacity);
      if minCapacity <= buf.Length {
        return;
      }
      var newCap := buf.Length;
      while newCap < minCapacity
        invariant 1 <= newCap
        invariant GrownCapacity(newCap, minCapacity) == GrownCapacity(buf.Length, minCapacity)
        decreases minCapacity - newCap
      {
        newCap := GrowthStep(newCap);
      }
      buf := CopyOf(buf, newCap);
    }

    /** Append one value at the end. */
    method Append(value: real)
      requires Valid() && (size < buf.Length || size < MAX_CAPACITY)
      modifies this, buf
      ensures Valid() && (buf == old(buf) || fresh(buf))
      ensures Contents() == old(Contents()) + [value]
      ensures size == old(size) + 1
    {
      EnsureCapacity(size + 1);
      assert buf[..size] == old(buf[..size]);
      buf[size] := value;
      size := size + 1;
    }

    /** Append `values[offset .. offset + length)`; a non-positive `length`
        changes nothing. */
    method AppendAll(values: array<real>, offset: int, length: int)
      requires Valid() && values != buf
      requires length > 0 ==> 0 <= offset && offset + length <= values.Length
      requires length > 0 ==> size + length <= buf.Length || size + length <= MAX_CAPACITY
      modifies this, buf
      ensures Valid() && (buf == old(buf) || fresh(buf))
      ensures old(size) + length <= old(buf.Length) ==> buf == old(buf)
      ensures length <= 0 ==> buf == old(buf) && size == old(size) && unchanged(buf)
      ensures length > 0 ==> Contents() == old(Contents()) + values[offset..offset + length]
      ensures length > 0 ==> size == old(size) + length
    {
      if length <= 0 {
        return;
      }
      EnsureCapacity(size + length);
      CopyInto(values, buf, size, offset, offset + length);
      size := size + length;
    }

    /** A fresh array holding exactly the contents. */
    method ToArray() returns (a: array<real>)
      requires Valid()
      ensures fresh(a) && a[..] == Contents()
    {
      a := CopyOf(buf, size);
    }
  }
}
