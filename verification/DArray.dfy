/**
The dynamic array (`darray.c`): one block with header words, alignment padding whose last byte holds the shift, and the
element bytes. `Elements` is the sequence the block stands for.
*/
module DArray {
  import opened Wrappers
  import opened Varint

  type Element = seq<byte>

  predicate Uniform(es: seq<Element>, stride: nat) {
    forall i | 0 <= i < |es| :: |es[i]| == stride
  }

  function Flat(es: seq<Element>): seq<byte> {
    if es == [] then [] else es[0] + Flat(es[1..])
  }

  lemma {:induction false} FlatAppend(a: seq<Element>, b: seq<Element>)
    ensures Flat(a + b) == Flat(a) + Flat(b)
  {
    if a == [] {
      assert a + b == b;
    } else {
      assert (a + b)[0] == a[0] && (a + b)[1..] == a[1..] + b;
      FlatAppend(a[1..], b);
    }
  }

  lemma {:induction false} FlatLength(es: seq<Element>, stride: nat)
    requires Uniform(es, stride)
    ensures |Flat(es)| == Span(|es|, stride)
  {
    if es != [] {
      FlatLength(es[1..], stride);
      Room(|es[1..]|, |es|, stride);
    }
  }

  /** The bytes determine the elements. */
  lemma {:induction false} FlatInjective(a: seq<Element>, b: seq<Element>, stride: nat)
    requires Uniform(a, stride) && Uniform(b, stride) && |a| == |b| && Flat(a) == Flat(b)
    ensures a == b
  {
    if a != [] {
      assert a[0] == Flat(a)[..stride] && b[0] == Flat(b)[..stride];
      assert Flat(a[1..]) == Flat(a)[stride..] && Flat(b[1..]) == Flat(b)[stride..];
      FlatInjective(a[1..], b[1..], stride);
      assert a == [a[0]] + a[1..] && b == [b[0]] + b[1..];
    }
  }

  /** The alignments of element types, which are those the allocator's blocks meet themselves. */
  predicate Alignment(align: nat) {
    align == 1 || align == 2 || align == 4 || align == 8
  }

  predicate Aligned(address: nat, align: nat)
    requires align > 0
  {
    address % align == 0
  }

  /** `GET_ALIGNED_NEXT`: clearing the low bits of `x + align` for a power of two. */
  function AlignedNext(x: nat, align: nat): (next: nat)
    requires Alignment(align)
    ensures Aligned(next, align) && x < next <= x + align
  {
    x + align - (x + align) % align
  }

  /** The bytes that `n` elements take. */
  function Span(n: nat, stride: nat): nat {
    if n == 0 then 0 else Span(n - 1, stride) + stride
  }

  lemma {:induction false} SpanIsProduct(n: nat, stride: nat)
    ensures Span(n, stride) == n * stride
  {
    if n > 0 {
      SpanIsProduct(n - 1, stride);
    }
  }

  lemma {:induction false} SpanAdd(n: nat, m: nat, stride: nat)
    ensures Span(n + m, stride) == Span(n, stride) + Span(m, stride)
  {
    if m > 0 {
      SpanAdd(n, m - 1, stride);
    }
  }

  lemma Room(n: nat, capacity: nat, stride: nat)
    requires n <= capacity
    ensures Span(n, stride) <= Span(capacity, stride)
    ensures n < capacity ==> Span(n + 1, stride) <= Span(capacity, stride)
    ensures Span(n + 1, stride) == Span(n, stride) + stride
    ensures Span(capacity, stride) == Span(n, stride) + Span(capacity - n, stride)
  {
    SpanAdd(n, capacity - n, stride);
    if n < capacity {
      SpanAdd(n + 1, capacity - n - 1, stride);
    }
  }

  const WORD: nat := 0x1_0000_0000_0000_0000

  /** The bytes `snuk_darray_push_at` sets behind the end: an unsigned difference, for elements of `stride` bytes. */
  function GapLength(index: nat, size: nat, stride: nat): nat {
    (index - size * stride) % WORD
  }

  /** It is the length of the gap if and only if elements are single bytes. */
  lemma GapIsFilled(index: nat, size: nat, stride: nat)
    requires size < index && 1 <= stride && index * stride < WORD
    ensures GapLength(index, size, stride) == (index - size) * stride <==> stride == 1
  {
    if stride > 1 {
      assert index * stride >= index * 2 by { Factor(index, 2, stride); }
      assert size * stride <= index * stride by { Factor(stride, size, index); }
      assert (index - size) * stride == index * stride - size * stride;
      if size * stride <= index {
        assert GapLength(index, size, stride) == index - size * stride;
      } else {
        assert GapLength(index, size, stride) == WORD + index - size * stride;
      }
    } else {
      assert size * stride == size;
    }
  }

  lemma Factor(a: nat, b: nat, c: nat)
    requires b <= c
    ensures a * b <= a * c
  {
  }

  /** It is more than all of a block of `room` bytes when the index lies within the bytes of the elements. */
  lemma GapOverruns(index: nat, size: nat, stride: nat, room: nat)
    requires size < index && index < size * stride && size * stride + room < WORD
    ensures GapLength(index, size, stride) > room
  {
    assert GapLength(index, size, stride) == WORD + index - size * stride;
  }

  function Zeros(n: nat): seq<Element> {
    seq(n, _ => [0])
  }

  lemma {:induction false} FlatZeros(n: nat)
    ensures Flat(Zeros(n)) == seq(n, _ => 0)
  {
    if n > 0 {
      assert Zeros(n)[1..] == Zeros(n - 1);
      FlatZeros(n - 1);
    }
  }

  lemma FillFlat(n: nat, element: Element)
    ensures Flat(Zeros(n) + [element]) == seq(n, _ => 0) + element
  {
    FlatAppend(Zeros(n), [element]);
    FlatSingle(element);
    FlatZeros(n);
  }

  lemma FillRoom(index: nat, size: nat, capacity: nat)
    requires size < index < capacity
    ensures Span(size, 1) + (index - size) + 1 <= Span(capacity, 1)
  {
    SpanIsProduct(size, 1);
    SpanIsProduct(capacity, 1);
  }

  lemma ZerosUniform(n: nat, element: Element)
    requires |element| == 1
    ensures Uniform(Zeros(n) + [element], 1)
  {
  }

  lemma UniformMore(es: seq<Element>, more: seq<Element>)
    requires Uniform(es, 1) && Uniform(more, 1)
    ensures Uniform(es + more, 1)
  {
  }

  /** New elements written behind the ones that are there. */
  lemma Appended(before: seq<byte>, after: seq<byte>, at: nat, es: seq<Element>, more: seq<Element>)
    requires Holds(before, at, Flat(es)) && at + |Flat(es)| + |Flat(more)| <= |before|
    requires after == Copied(before, at + |Flat(es)|, Flat(more))
    ensures Holds(after, at, Flat(es + more))
  {
    FlatAppend(es, more);
    hide Flat;
    var end := at + |Flat(es)|;
    assert after[at..end] == before[at..end];
    assert after[end..end + |Flat(more)|] == Flat(more);
    assert after[at..end + |Flat(more)|] == after[at..end] + after[end..end + |Flat(more)|];
  }

  class DArray {
    var capacity: nat
    var size: nat
    const stride: nat
    const align: nat
    /** The address right behind the header, and the address handed out. */
    var block: nat
    var data: nat
    /** The bytes behind the header: padding, then room for `capacity` elements. */
    var bytes: array<byte>
    ghost var elements: seq<Element>

    ghost predicate Shaped()
      reads this, bytes
    {
      && Alignment(align) && 1 <= stride && 1 <= capacity && size <= capacity
      && bytes.Length == Span(capacity, stride) + align
      && Aligned(block, 8) && Aligned(data, align) && 1 <= data - block <= align
      && bytes[data - block - 1] as nat == data - block
    }

    ghost predicate Valid()
      reads this, bytes
    {
      && Shaped() && |elements| == size && Uniform(elements, stride)
      && Holds(bytes[..], data - block, Flat(elements))
    }

    constructor (capacity: nat, stride: nat, align: nat, place: nat)
      requires Alignment(align) && 1 <= stride && 1 <= capacity && Aligned(place, 8)
      ensures Valid() && fresh(bytes) && elements == [] && this.capacity == capacity
      ensures this.stride == stride && this.align == align && bytes.Length == capacity * stride + align
    {
      this.capacity, this.size, this.stride, this.align := capacity, 0, stride, align;
      block, data := place, AlignedNext(place, align);
      bytes := new byte[Span(capacity, stride) + align](_ => 0);
      elements := [];
      new;
      Room(0, capacity, stride);
      SpanIsProduct(capacity, stride);
      bytes[data - block - 1] := (data - block) as byte;
    }

    /** Every operation finds the header from the address it is given: the shift is one byte and leads back. */
    method Shift() returns (shift: nat)
      requires Shaped()
      ensures data - shift == block && 1 <= shift <= align
    {
      shift := bytes[data - block - 1] as nat;
    }

    /** The block moves to `place`; its bytes are kept and the shift still fits, as `place` is as aligned as before. */
    method Resize(newCapacity: nat, place: nat)
      requires Valid() && size <= newCapacity && 1 <= newCapacity && Aligned(place, 8)
      modifies this
      ensures Valid() && fresh(bytes) && elements == old(elements) && size == old(size) && capacity == newCapacity
      ensures bytes.Length == newCapacity * stride + align
    {
      hide Span, Flat, Aligned, Holds, Uniform;
      var shift := Shift();
      var moved := Reallocate(newCapacity, shift);
      StaysAligned(block, place, shift, align);
      SpanIsProduct(newCapacity, stride);
      capacity, bytes, block, data := newCapacity, moved, place, place + shift;
    }

    /** Growth: the capacity doubles when the array is full. */
    method MakeRoom(place: nat)
      requires Valid() && Aligned(place, 8)
      modifies this
      ensures Valid() && (bytes == old(bytes) || fresh(bytes))
      ensures elements == old(elements) && size == old(size) && size < capacity
      ensures capacity == if old(size) < old(capacity) then old(capacity) else 2 * old(capacity)
    {
      if capacity <= size {
        Resize(capacity * 2, place);
      }
    }

    method Push(element: Element, place: nat)
      requires Valid() && |element| == stride && Aligned(place, 8)
      modifies this, bytes
      ensures Valid() && (bytes == old(bytes) || fresh(bytes))
      ensures elements == old(elements) + [element]
      ensures capacity == if old(size) < old(capacity) then old(capacity) else 2 * old(capacity)
    {
      hide Span, Flat, Aligned, Holds, Uniform, Copied;
      MakeRoom(place);
      var shift := Shift();
      Room(size, capacity, stride);
      FlatLength(elements, stride);
      ghost var before := bytes[..];
      CopyBytes(bytes, shift + Span(size, stride), element);
      Pushed(before, bytes[..], shift, elements, element);
      CopyBefore(before, shift + Span(size, stride), element, shift - 1);
      UniformInsert(elements, size, element, stride);
      assert before[shift - 1] == bytes[..][shift - 1];
      assert elements[..size] + [element] + elements[size..] == elements + [element];
      elements := elements + [element];
      size := size + 1;
    }

    /**
    Insertion at `index`. Behind the end the gap is to be filled with zero bytes, but the number of bytes is computed
    wrongly: it is right exactly when elements are single bytes (`GapIsFilled`). For longer elements the answer is
    `false` and the array is left alone; the C code leaves part of the gap unset, or writes far behind the block
    (`GapOverruns`).
    */
    method PushAt(index: nat, element: Element, place: nat) returns (done: bool)
      requires Valid() && |element| == stride && Aligned(place, 8)
      modifies this, bytes
      ensures Valid() && (bytes == old(bytes) || fresh(bytes))
      ensures done <==> index <= old(size) || stride == 1
      ensures elements == if !done then old(elements)
                          else if index <= old(size) then old(elements)[..index] + [element] + old(elements)[index..]
                          else old(elements) + Zeros(index - old(size)) + [element]
      ensures capacity == if !done then old(capacity)
                          else if index <= old(size) then
                            (if old(size) < old(capacity) then old(capacity) else 2 * old(capacity))
                          else if old(capacity) <= index + 1 then index + 1 else old(capacity)
    {
      hide Span, Flat, Aligned, Holds, Uniform;
      if index > size {
        if stride > 1 {
          return false;
        }
        PushBehind(index, element, place);
        return true;
      }
      InsertAt(index, element, place);
      done := true;
    }

    method InsertAt(index: nat, element: Element, place: nat)
      requires Valid() && |element| == stride && Aligned(place, 8) && index <= size
      modifies this, bytes
      ensures Valid() && (bytes == old(bytes) || fresh(bytes))
      ensures elements == old(elements)[..index] + [element] + old(elements)[index..]
      ensures capacity == if old(size) < old(capacity) then old(capacity) else 2 * old(capacity)
    {
      hide Span, Flat, Aligned, Holds, Uniform;
      MakeRoom(place);
      var shift := Shift();
      OpenGap(shift, index, element);
      UniformInsert(elements, index, element, stride);
      elements := elements[..index] + [element] + elements[index..];
      size := size + 1;
    }

    /** The gap between the end and `index` is filled with zero bytes, then comes the element. */
    method PushBehind(index: nat, element: Element, place: nat)
      requires Valid() && |element| == 1 == stride && Aligned(place, 8) && index > size
      modifies this, bytes
      ensures Valid() && (bytes == old(bytes) || fresh(bytes))
      ensures elements == old(elements) + Zeros(index - old(size)) + [element]
      ensures capacity == if old(capacity) <= index + 1 then index + 1 else old(capacity)
    {
      hide Span, Flat, Aligned, Holds, Uniform, Copied;
      if capacity <= index + 1 {
        Resize(index + 1, place);
      }
      var shift := Shift();
      ghost var before, more := bytes[..], Zeros(index - size) + [element];
      assert size * stride == size;
      var gap := seq(index - size * stride, _ => 0);
      FillRoom(index, size, capacity);
      FlatLength(elements, 1);
      FillFlat(index - size, element);
      CopyBytes(bytes, shift + Span(size, stride), gap + element);
      Appended(before, bytes[..], shift, elements, more);
      CopyBefore(before, shift + Span(size, stride), gap + element, shift - 1);
      ZerosUniform(index - size, element);
      UniformMore(elements, more);
      assert before[shift - 1] == bytes[..][shift - 1];
      assert elements + Zeros(index - size) + [element] == elements + more;
      elements := elements + more;
      size := index + 1;
    }

    /** `memmove` of the tail by one element, then `memcpy` of the new one. */
    method OpenGap(shift: nat, index: nat, element: Element)
      requires Valid() && |element| == stride && index <= size < capacity && shift == data - block
      modifies bytes
      ensures Shaped()
      ensures Holds(bytes[..], shift, Flat(elements[..index] + [element] + elements[index..]))
    {
      hide Span, Flat, Aligned, Holds, Uniform, Copied;
      ghost var before := bytes[..];
      FlatLength(elements, stride);
      Room(index, size, stride);
      Room(size, capacity, stride);
      var at, end := shift + Span(index, stride), shift + Span(size, stride);
      CopyBytes(bytes, at + stride, bytes[at..end]);
      ghost var mid := bytes[..];
      CopyBytes(bytes, at, element);
      Opened(before, mid, bytes[..], shift, elements, index, element);
      CopyBefore(before, at + stride, before[at..end], shift - 1);
      CopyBefore(mid, at, element, shift - 1);
      assert bytes[..][shift - 1] == before[shift - 1];
    }

    /** Removal of the last element; an empty array is left alone. */
    method Pop() returns (popped: Option<Element>)
      requires Valid()
      modifies this
      ensures Valid() && bytes == old(bytes) && capacity == old(capacity)
      ensures if old(elements) == [] then popped == None && elements == []
              else popped == Some(old(elements)[old(size) - 1]) && elements == old(elements)[..old(size) - 1]
    {
      hide Span, Flat, Aligned, Holds, Uniform;
      if size == 0 {
        return None;
      }
      var shift := Shift();
      var last := Read(shift, size - 1);
      popped := Some(last);
      Parts(bytes[..], shift, elements, size - 1, stride);
      UniformParts(elements, size - 1, stride);
      size := size - 1;
      elements := elements[..size];
    }

    /** Removal at `index`; the elements behind it move up. */
    method PopAt(index: nat) returns (popped: Element)
      requires Valid() && index < size
      modifies this, bytes
      ensures Valid() && bytes == old(bytes) && capacity == old(capacity)
      ensures popped == old(elements)[index]
      ensures elements == old(elements)[..index] + old(elements)[index + 1..]
    {
      hide Span, Flat, Aligned, Holds, Uniform;
      var shift := Shift();
      popped := Read(shift, index);
      CloseGap(shift, index);
      UniformRemove(elements, index, stride);
      elements := elements[..index] + elements[index + 1..];
      size := size - 1;
    }

    /** The bytes of one element. */
    method Read(shift: nat, index: nat) returns (element: Element)
      requires Valid() && index < size && shift == data - block
      ensures element == elements[index]
    {
      hide Span, Flat, Aligned, Holds, Uniform;
      Parts(bytes[..], shift, elements, index, stride);
      UniformParts(elements, index, stride);
      Room(index, size, stride);
      Room(size, capacity, stride);
      var at := shift + Span(index, stride);
      LastAt(bytes[..], at, elements[index..], stride);
      element := bytes[at..at + stride];
    }

    /** `memmove` of the elements behind `index` by one element. */
    method CloseGap(shift: nat, index: nat)
      requires Valid() && index < size && shift == data - block
      modifies bytes
      ensures Shaped()
      ensures Holds(bytes[..], shift, Flat(elements[..index] + elements[index + 1..]))
    {
      hide Span, Flat, Aligned, Holds, Uniform, Copied;
      ghost var before := bytes[..];
      FlatLength(elements, stride);
      Room(index, size, stride);
      Room(size, capacity, stride);
      var at, end := shift + Span(index, stride), shift + Span(size, stride);
      CopyBytes(bytes, at, bytes[at + stride..end]);
      Closed(before, bytes[..], shift, elements, index, stride);
      CopyBefore(before, at, before[at + stride..end], shift - 1);
      assert bytes[..][shift - 1] == before[shift - 1];
    }

    method Clear()
      requires Valid()
      modifies this
      ensures Valid() && elements == [] && bytes == old(bytes) && capacity == old(capacity)
    {
      size, elements := 0, [];
    }

    /** `realloc`: a new block with the bytes of the old one, as far as both reach. */
    method Reallocate(newCapacity: nat, shift: nat) returns (moved: array<byte>)
      requires Valid() && size <= newCapacity && shift == data - block
      ensures fresh(moved) && moved.Length == Span(newCapacity, stride) + align
      ensures moved[shift - 1] as nat == shift
      ensures Holds(moved[..], shift, Flat(elements))
    {
      hide Span, Flat, Aligned, Copied, Holds, Uniform;
      var fewer := if newCapacity < capacity then newCapacity else capacity;
      Room(size, fewer, stride);
      Room(fewer, capacity, stride);
      Room(fewer, newCapacity, stride);
      moved := new byte[Span(newCapacity, stride) + align](_ => 0);
      ghost var zeros := moved[..];
      var n := Span(fewer, stride) + align;
      CopyBytes(moved, 0, bytes[..n]);
      CopiedFront(zeros, moved[..], bytes[..n]);
      FlatLength(elements, stride);
      HoldsInPrefix(bytes[..], moved[..], n, shift, Flat(elements));
      assert bytes[..n][shift - 1] == bytes[shift - 1] && moved[..n][shift - 1] == moved[shift - 1];
    }
  }

  lemma StaysAligned(block: nat, place: nat, shift: nat, align: nat)
    requires Alignment(align) && Aligned(block, 8) && Aligned(place, 8) && Aligned(block + shift, align)
    ensures Aligned(place + shift, align)
  {
    var q, r := block / 8, place / 8;
    assert block == 8 * q && place == 8 * r;
    if align == 2 {
      EvenSteps(q, r, shift);
    } else if align == 4 {
      FourSteps(q, r, shift);
    } else if align == 8 {
      EightSteps(q, r, shift);
    }
  }

  lemma EvenSteps(q: nat, r: nat, shift: nat)
    requires (8 * q + shift) % 2 == 0
    ensures (8 * r + shift) % 2 == 0
  {
    var k := (8 * q + shift) / 2;
    assert 8 * r + shift == 2 * (k + 4 * (r - q));
  }

  lemma FourSteps(q: nat, r: nat, shift: nat)
    requires (8 * q + shift) % 4 == 0
    ensures (8 * r + shift) % 4 == 0
  {
    var k := (8 * q + shift) / 4;
    assert 8 * r + shift == 4 * (k + 2 * (r - q));
  }

  lemma EightSteps(q: nat, r: nat, shift: nat)
    requires (8 * q + shift) % 8 == 0
    ensures (8 * r + shift) % 8 == 0
  {
    var k := (8 * q + shift) / 8;
    assert 8 * r + shift == 8 * (k + 1 * (r - q));
  }

  lemma HoldsInPrefix(a: seq<byte>, b: seq<byte>, n: nat, at: nat, part: seq<byte>)
    requires n <= |a| && n <= |b| && a[..n] == b[..n] && Holds(a, at, part) && at + |part| <= n
    ensures Holds(b, at, part)
  {
    assert a[at..at + |part|] == a[..n][at..at + |part|];
    assert b[at..at + |part|] == b[..n][at..at + |part|];
  }

  /** `part` stands in `bytes` from `at` on. */
  ghost predicate Holds(bytes: seq<byte>, at: nat, part: seq<byte>) {
    at + |part| <= |bytes| && bytes[at..at + |part|] == part
  }

  lemma HoldsJoin(bytes: seq<byte>, at: nat, x: seq<byte>, y: seq<byte>)
    ensures Holds(bytes, at, x) && Holds(bytes, at + |x|, y) <==> Holds(bytes, at, x + y)
  {
    if Holds(bytes, at, x) && Holds(bytes, at + |x|, y) {
      assert bytes[at..at + |x + y|] == bytes[at..at + |x|] + bytes[at + |x|..at + |x| + |y|];
    }
    if Holds(bytes, at, x + y) {
      assert bytes[at..at + |x|] == bytes[at..at + |x + y|][..|x|];
      assert bytes[at + |x|..at + |x| + |y|] == bytes[at..at + |x + y|][|x|..];
    }
  }

  lemma HoldsSlice(bytes: seq<byte>, at: nat, part: seq<byte>, to: nat)
    requires Holds(bytes, at, part) && to == at + |part|
    ensures to <= |bytes| && bytes[at..to] == part
  {
  }

  /** What a copy writes is there afterwards, and what it does not touch stays. */
  lemma CopyKeeps(a: seq<byte>, b: seq<byte>, at: nat, part: seq<byte>, q: nat, z: seq<byte>)
    requires at + |part| <= |a| && b == Copied(a, at, part)
    requires Holds(a, q, z) && (q + |z| <= at || at + |part| <= q)
    ensures Holds(b, at, part) && Holds(b, q, z)
  {
    assert b[at..at + |part|] == part;
    assert b[q..q + |z|] == a[q..q + |z|];
  }

  /** Where the elements before `index` and the ones from `index` on stand. */
  lemma Parts(bytes: seq<byte>, shift: nat, es: seq<Element>, index: nat, stride: nat)
    requires Uniform(es, stride) && index <= |es| && Holds(bytes, shift, Flat(es))
    ensures |Flat(es[..index])| == Span(index, stride) && |Flat(es)| == Span(|es|, stride)
    ensures |Flat(es[index..])| == Span(|es| - index, stride)
    ensures Holds(bytes, shift, Flat(es[..index]))
    ensures Holds(bytes, shift + Span(index, stride), Flat(es[index..]))
  {
    hide Span, Holds, Flat;
    assert es == es[..index] + es[index..];
    FlatAppend(es[..index], es[index..]);
    FlatLength(es[..index], stride);
    FlatLength(es[index..], stride);
    FlatLength(es, stride);
    HoldsJoin(bytes, shift, Flat(es[..index]), Flat(es[index..]));
  }

  lemma LastAt(bytes: seq<byte>, at: nat, es: seq<Element>, stride: nat)
    requires es != [] && Uniform(es, stride) && Holds(bytes, at, Flat(es))
    ensures at + stride <= |bytes| && bytes[at..at + stride] == es[0]
  {
    HoldsJoin(bytes, at, es[0], Flat(es[1..]));
  }

  lemma JoinThree(
      bytes: seq<byte>, shift: nat, at: nat, up: nat, head: seq<Element>, e: Element, tail: seq<Element>)
    requires at == shift + |Flat(head)| && up == at + |e|
    requires Holds(bytes, shift, Flat(head)) && Holds(bytes, at, e) && Holds(bytes, up, Flat(tail))
    ensures Holds(bytes, shift, Flat(head + [e] + tail))
  {
    hide Holds, Flat;
    FlatAppend(head, [e]);
    FlatSingle(e);
    FlatAppend(head + [e], tail);
    HoldsJoin(bytes, shift, Flat(head), e);
    HoldsJoin(bytes, shift, Flat(head) + e, Flat(tail));
  }

  lemma Closed(before: seq<byte>, after: seq<byte>, shift: nat, es: seq<Element>, index: nat, stride: nat)
    requires Uniform(es, stride) && index < |es| && Holds(before, shift, Flat(es)) && |Flat(es)| == Span(|es|, stride)
    requires Span(index, stride) + stride <= Span(|es|, stride)
    requires var at, end := shift + Span(index, stride), shift + Span(|es|, stride);
             end <= |before| && after == Copied(before, at, before[at + stride..end])
    ensures Holds(after, shift, Flat(es[..index] + es[index + 1..]))
  {
    hide Span, Flat, Holds, Uniform, Copied;
    var at, end := shift + Span(index, stride), shift + Span(|es|, stride);
    var head, tail := Flat(es[..index]), Flat(es[index + 1..]);
    Parts(before, shift, es, index, stride);
    Parts(before, shift, es, index + 1, stride);
    Room(index, |es|, stride);
    Room(index + 1, |es|, stride);
    HoldsSlice(before, at + stride, tail, end);
    assert |tail| == end - stride - at && |head| == at - shift;
    CopyKeeps(before, after, at, tail, shift, head);
    HoldsJoin(after, shift, head, tail);
    FlatAppend(es[..index], es[index + 1..]);
  }

  lemma Opened(
      before: seq<byte>, mid: seq<byte>, after: seq<byte>, shift: nat, es: seq<Element>, index: nat, e: Element)
    requires Uniform(es, |e|) && index <= |es| && Holds(before, shift, Flat(es))
    requires Span(index, |e|) <= Span(|es|, |e|)
    requires var at, end := shift + Span(index, |e|), shift + Span(|es|, |e|);
             && end + |e| <= |before|
             && mid == Copied(before, at + |e|, before[at..end])
             && after == Copied(mid, at, e)
    ensures Holds(after, shift, Flat(es[..index] + [e] + es[index..]))
  {
    hide Span, Flat, Holds, Uniform, Copied;
    var at, end := shift + Span(index, |e|), shift + Span(|es|, |e|);
    var up := at + |e|;
    var head, tail := Flat(es[..index]), Flat(es[index..]);
    Parts(before, shift, es, index, |e|);
    Room(index, |es|, |e|);
    HoldsSlice(before, at, tail, end);
    assert |tail| == end - at && |head| == at - shift;
    assert mid == Copied(before, up, tail);
    CopyKeeps(before, mid, up, tail, shift, head);
    CopyKeeps(mid, after, at, e, shift, head);
    CopyKeeps(mid, after, at, e, up, tail);
    assert at == shift + |head|;
    assert Holds(after, at, e) && Holds(after, up, tail) && Holds(after, shift, head);
    JoinThree(after, shift, at, up, es[..index], e, es[index..]);
  }

  lemma Pushed(before: seq<byte>, after: seq<byte>, shift: nat, es: seq<Element>, e: Element)
    requires Holds(before, shift, Flat(es)) && shift + |Flat(es)| + |e| <= |before|
    requires after == Copied(before, shift + |Flat(es)|, e)
    ensures Holds(after, shift, Flat(es + [e]))
  {
    hide Flat, Copied, Holds;
    CopyKeeps(before, after, shift + |Flat(es)|, e, shift, Flat(es));
    HoldsJoin(after, shift, Flat(es), e);
    FlatAppend(es, [e]);
    FlatSingle(e);
  }

  lemma UniformParts(es: seq<Element>, index: nat, stride: nat)
    requires Uniform(es, stride) && index <= |es|
    ensures Uniform(es[..index], stride) && Uniform(es[index..], stride)
  {
  }

  lemma UniformInsert(es: seq<Element>, index: nat, e: Element, stride: nat)
    requires Uniform(es, stride) && index <= |es| && |e| == stride
    ensures Uniform(es[..index] + [e] + es[index..], stride)
  {
  }

  lemma UniformRemove(es: seq<Element>, index: nat, stride: nat)
    requires Uniform(es, stride) && index < |es|
    ensures Uniform(es[..index] + es[index + 1..], stride)
  {
  }

  lemma CopyBefore(a: seq<byte>, at: nat, part: seq<byte>, i: nat)
    requires at + |part| <= |a| && i < at
    ensures Copied(a, at, part)[i] == a[i]
  {
  }

  lemma CopiedFront(a: seq<byte>, b: seq<byte>, part: seq<byte>)
    requires |part| <= |a| && b == Copied(a, 0, part)
    ensures b[..|part|] == part
  {
  }

  lemma FlatSingle(e: Element)
    ensures Flat([e]) == e
  {
    assert Flat([e][1..]) == [];
  }

  /** `bytes` with `part` written over it from `at` on. */
  function Copied(bytes: seq<byte>, at: nat, part: seq<byte>): (r: seq<byte>)
    requires at + |part| <= |bytes|
    ensures |r| == |bytes|
  {
    bytes[..at] + part + bytes[at + |part|..]
  }

  lemma CopiedMore(bytes: seq<byte>, at: nat, part: seq<byte>, i: nat)
    requires at + |part| <= |bytes| && i < |part|
    ensures Copied(bytes, at, part[..i + 1]) == Copied(bytes, at, part[..i])[at + i := part[i]]
  {
    assert part[..i + 1] == part[..i] + [part[i]];
  }

  /** `memcpy`, and `memmove` when `part` was read before. */
  method CopyBytes(a: array<byte>, at: nat, part: seq<byte>)
    requires at + |part| <= a.Length
    modifies a
    ensures a[..] == Copied(old(a[..]), at, part)
  {
    assert Copied(a[..], at, part[..0]) == a[..];
    hide Copied;
    for i := 0 to |part|
      invariant a[..] == Copied(old(a[..]), at, part[..i])
    {
      CopiedMore(old(a[..]), at, part, i);
      a[at + i] := part[i];
    }
    assert part[..|part|] == part;
  }
}
