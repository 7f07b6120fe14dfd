/** Variable-length integers, written forward: unsigned LEB128, section 7.6 of DWARF Version 5 (`darray.c`). */
module Varint {
  newtype byte = x: int | 0 <= x < 0x100

  /** The lowest seven bits, with the top bit that says that more follow. */
  function Low(value: nat): byte {
    (value % 0x80 + 0x80) as byte
  }

  function Encode(value: nat): (s: seq<byte>)
    ensures |s| >= 1
  {
    if value < 0x80 then [value as byte] else [Low(value)] + Encode(value / 0x80)
  }

  function Decode(s: seq<byte>): nat {
    if s == [] then 0
    else if s[0] < 0x80 then s[0] as nat
    else (s[0] - 0x80) as nat + 0x80 * Decode(s[1..])
  }

  /** Only the last byte of an encoding is below 0x80, so a reader knows where it ends. */
  predicate Delimited(s: seq<byte>) {
    s != [] && s[|s| - 1] < 0x80 && forall i | 0 <= i < |s| - 1 :: s[i] >= 0x80
  }

  lemma {:induction false} EncodeIsDelimited(value: nat)
    ensures Delimited(Encode(value))
  {
    if value >= 0x80 {
      EncodeIsDelimited(value / 0x80);
    }
  }

  /** Reading gives the value back whatever bytes follow. */
  lemma {:induction false} RoundTrip(value: nat, rest: seq<byte>)
    ensures Decode(Encode(value) + rest) == value
  {
    var s := Encode(value) + rest;
    if value < 0x80 {
      assert s[0] == value as byte;
    } else {
      RoundTrip(value / 0x80, rest);
      assert s[1..] == Encode(value / 0x80) + rest;
    }
  }

  /** Sixty-four bits take at most ten bytes. */
  lemma {:induction false} EncodedLength(value: nat, bits: nat, n: nat)
    requires value < Power(bits) && bits <= 7 * n && n >= 1
    ensures |Encode(value)| <= n
  {
    if value >= 0x80 {
      if bits <= 7 {
        PowerGrows(bits, 7);
        assert false;
      }
      assert Power(bits - 5) == 4 * Power(bits - 7);
      assert Power(bits - 3) == 4 * Power(bits - 5);
      assert Power(bits - 1) == 4 * Power(bits - 3);
      EncodedLength(value / 0x80, bits - 7, n - 1);
    }
  }

  lemma {:induction false} PowerGrows(a: nat, b: nat)
    requires a <= b
    ensures Power(a) <= Power(b)
  {
    if a < b {
      PowerGrows(a, b - 1);
    }
  }

  function Power(bits: nat): nat {
    if bits == 0 then 1 else 2 * Power(bits - 1)
  }

  /** The bytes `done` have been written behind `head`, `tail` is as it was, and `v` is still to be written. */
  ghost predicate Written(s: seq<byte>, head: seq<byte>, done: seq<byte>, tail: seq<byte>, v: nat, value: nat) {
    s == head + done + tail && done + Encode(v) == Encode(value) && |Encode(v)| <= |tail|
  }

  lemma WriteStarts(was: seq<byte>, at: nat, value: nat)
    requires at + |Encode(value)| <= |was|
    ensures Written(was, was[..at], [], was[at..], value, value)
  {
  }

  lemma WriteLow(s: seq<byte>, was: seq<byte>, head: seq<byte>, done: seq<byte>, p: nat, v: nat, value: nat)
    requires p <= |was| && |head| + |done| == p && Written(s, head, done, was[p..], v, value) && v >= 0x80
    ensures p < |s| && p < |was| && v / 0x80 < v
    ensures Written(s[p := Low(v)], head, done + [Low(v)], was[p + 1..], v / 0x80, value)
  {
    assert done + [Low(v)] + Encode(v / 0x80) == done + Encode(v);
  }

  lemma WriteLast(s: seq<byte>, was: seq<byte>, head: seq<byte>, done: seq<byte>, p: nat, v: nat, value: nat)
    requires p <= |was| && |head| + |done| == p && Written(s, head, done, was[p..], v, value) && v < 0x80
    ensures p < |s| && p < |was| && |Encode(value)| == |done| + 1
    ensures s[p := v as byte] == head + Encode(value) + was[p + 1..]
  {
    assert done + [v as byte] == Encode(value);
  }

  method WriteToBytes(a: array<byte>, at: nat, value: nat)
    requires at + |Encode(value)| <= a.Length
    modifies a
    ensures a[..] == old(a[..at]) + Encode(value) + old(a[at + |Encode(value)|..])
  {
    ghost var was, head, done := a[..], a[..at], [];
    WriteStarts(was, at, value);
    hide Encode, Low, Written;
    var p, v := at, value;
    while v >= 0x80
      invariant |head| + |done| == p <= a.Length && Written(a[..], head, done, was[p..], v, value)
      decreases v
    {
      WriteLow(a[..], was, head, done, p, v, value);
      Put(a, p, Low(v));
      done := done + [Low(v)];
      p, v := p + 1, v / 0x80;
    }
    WriteLast(a[..], was, head, done, p, v, value);
    Put(a, p, v as byte);
  }

  method Put(a: array<byte>, p: nat, b: byte)
    requires p < a.Length
    modifies a
    ensures a[..] == old(a[..])[p := b]
  {
    a[p] := b;
  }

  lemma ReadStep(value: nat, scale: nat, digit: nat, before: nat, rest: nat, total: nat)
    requires value + scale * before == total && before == digit + 0x80 * rest
    ensures value + digit * scale + scale * 0x80 * rest == total && digit * scale >= 0
  {
    assert scale * before == scale * digit + scale * 0x80 * rest;
  }

  lemma DecodeUnfolds(s: seq<byte>, p: nat)
    requires p < |s|
    ensures Decode(s[p..]) == if s[p] < 0x80 then s[p] as nat else (s[p] - 0x80) as nat + 0x80 * Decode(s[p + 1..])
  {
    assert s[p..][1..] == s[p + 1..];
  }

  method ReadFromBytes(a: array<byte>, at: nat) returns (value: nat)
    requires exists n :: at <= n < a.Length && a[n] < 0x80
    ensures value == Decode(a[at..])
  {
    hide Decode;
    var p: nat, scale: nat := at, 1;
    value := 0;
    while a[p] >= 0x80
      invariant at <= p < a.Length
      invariant exists n :: p <= n < a.Length && a[n] < 0x80
      invariant value + scale * Decode(a[p..]) == Decode(a[at..])
      decreases a.Length - p
    {
      DecodeUnfolds(a[..], p);
      ReadStep(value, scale, (a[p] - 0x80) as nat, Decode(a[p..]), Decode(a[p + 1..]), Decode(a[at..]));
      value := value + (a[p] - 0x80) as nat * scale;
      scale := scale * 0x80;
      p := p + 1;
    }
    DecodeUnfolds(a[..], p);
    value := value + a[p] as nat * scale;
  }
}
