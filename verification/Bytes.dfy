/** Canonical byte encoding (src/canonical.cpp): little-endian integers, shortest-form unsigned
    LEB128, fixed-width identities; a writer with a ceiling and a strict reader. */
module Bytes {
  import opened Wrappers
  import opened Values

  type byte = x: nat | x < 256

  /** A parse of the front of a byte string. */
  datatype Parse<+T> = Bad | Good(value: T, rest: seq<byte>) {
    predicate IsFailure() { Bad? }
    function PropagateFailure<U>(): Parse<U>
      requires Bad?
    {
      Bad
    }
    function Extract(): Parse<T>
      requires !Bad?
    {
      this
    }
  }

  /** 256 to the power k. */
  function Pow(k: nat): (r: nat)
    ensures r > 0
  {
    if k == 0 then 1 else 256 * Pow(k - 1)
  }

  lemma Ranges()
    ensures Pow(4) == U32_RANGE && Pow(8) == U64_RANGE && Pow(16) == U64_RANGE * U64_RANGE
    ensures Pow(32) == U64_RANGE * U64_RANGE * (U64_RANGE * U64_RANGE)
  {
    assert Pow(1) == 256 && Pow(2) == 0x1_0000 && Pow(3) == 0x100_0000 && Pow(4) == 0x1_0000_0000;
    assert Pow(5) == 0x100_0000_0000 && Pow(6) == 0x1_0000_0000_0000 && Pow(7) == 0x100_0000_0000_0000 && Pow(8) == U64_RANGE;
    assert Pow(9) == 256 * Pow(8) && Pow(10) == 0x1_0000 * Pow(8) && Pow(11) == 0x100_0000 * Pow(8) && Pow(12) == 0x1_0000_0000 * Pow(8);
    assert Pow(13) == 0x100_0000_0000 * Pow(8) && Pow(14) == 0x1_0000_0000_0000 * Pow(8) && Pow(15) == 0x100_0000_0000_0000 * Pow(8);
    assert Pow(16) == 256 * Pow(15);
    PowAdd(16, 16);
  }

  lemma {:induction false} PowAdd(j: nat, k: nat)
    ensures Pow(j + k) == Pow(j) * Pow(k)
  {
    if j > 0 {
      PowAdd(j - 1, k);
      assert 256 * (Pow(j - 1) * Pow(k)) == 256 * Pow(j - 1) * Pow(k);
    }
  }

  /** Little-endian, k bytes. */
  function Le(k: nat, n: nat): (r: seq<byte>)
    ensures |r| == k
  {
    if k == 0 then [] else [n % 256] + Le(k - 1, n / 256)
  }

  function FromLe(s: seq<byte>): nat {
    if s == [] then 0 else s[0] + 256 * FromLe(s[1..])
  }

  lemma {:induction false} LeRound(k: nat, n: nat)
    requires n < Pow(k)
    ensures FromLe(Le(k, n)) == n
  {
    if k > 0 {
      LeRound(k - 1, n / 256);
      assert Le(k, n)[1..] == Le(k - 1, n / 256);
    }
  }

  lemma {:induction false} LeBack(s: seq<byte>)
    ensures FromLe(s) < Pow(|s|) && Le(|s|, FromLe(s)) == s
  {
    if s != [] {
      LeBack(s[1..]);
      assert s == [s[0]] + s[1..];
      assert FromLe(s) / 256 == FromLe(s[1..]) && FromLe(s) % 256 == s[0];
    }
  }

  /** An identity of k bytes; bytewise order is the order of the numbers. */
  function Be(k: nat, n: nat): (r: seq<byte>)
    ensures |r| == k
  {
    if k == 0 then [] else Be(k - 1, n / 256) + [n % 256]
  }

  function FromBe(s: seq<byte>): nat {
    if s == [] then 0 else FromBe(s[..|s| - 1]) * 256 + s[|s| - 1]
  }

  lemma {:induction false} BeRound(k: nat, n: nat)
    requires n < Pow(k)
    ensures FromBe(Be(k, n)) == n
  {
    if k > 0 {
      BeRound(k - 1, n / 256);
      assert Be(k, n)[..k - 1] == Be(k - 1, n / 256);
    }
  }

  lemma {:induction false} BeBack(s: seq<byte>)
    ensures FromBe(s) < Pow(|s|) && Be(|s|, FromBe(s)) == s
  {
    if s != [] {
      var front: seq<byte> := s[..|s| - 1];
      BeBack(front);
      assert s == front + [s[|s| - 1]];
    }
  }

  /** Unsigned LEB128, shortest form. */
  function Var(n: nat): (r: seq<byte>)
    ensures |r| >= 1
  {
    if n < 128 then [n] else [128 + n % 128] + Var(n / 128)
  }

  /** How large the part of a 64-bit number from 7-bit group i on may be. */
  function GroupBound(i: nat): nat {
    if i == 0 then U64_RANGE
    else if i == 1 then 0x200_0000_0000_0000
    else if i == 2 then 0x4_0000_0000_0000
    else if i == 3 then 0x800_0000_0000
    else if i == 4 then 0x10_0000_0000
    else if i == 5 then 0x2000_0000
    else if i == 6 then 0x40_0000
    else if i == 7 then 0x8000
    else if i == 8 then 0x100
    else if i == 9 then 2
    else 0
  }

  /** Reads from 7-bit group i on: at most ten groups, the tenth at most 1, no empty last group. */
  function ParseGroups(s: seq<byte>, i: nat): Parse<nat>
    decreases |s|
  {
    if i >= 10 || s == [] then Bad
    else if i == 9 && s[0] % 128 > 1 then Bad
    else if s[0] < 128 then
      if i > 0 && s[0] == 0 then Bad else Good(s[0], s[1..])
    else
      var more := ParseGroups(s[1..], i + 1);
      if more.Bad? then Bad else Good(s[0] % 128 + 128 * more.value, more.rest)
  }

  function ParseVar(s: seq<byte>): Parse<nat> {
    ParseGroups(s, 0)
  }

  lemma {:induction false} GroupsRound(n: nat, i: nat, tail: seq<byte>)
    requires n < GroupBound(i) && (i > 0 ==> n > 0)
    ensures ParseGroups(Var(n) + tail, i) == Good(n, tail)
    decreases n
  {
    hide GroupBound;
    GroupBelow(n, i);
    var s := Var(n) + tail;
    if n < 128 {
      assert s[1..] == tail;
    } else {
      GroupsRound(n / 128, i + 1, tail);
      assert s[0] == n % 128 + 128 && s[1..] == Var(n / 128) + tail;
    }
  }

  lemma GroupBelow(n: nat, i: nat)
    requires n < GroupBound(i)
    ensures i < 10 && (i == 9 ==> n <= 1) && (n >= 128 ==> 0 < n / 128 < GroupBound(i + 1))
  {
  }

  lemma {:induction false} GroupsBack(s: seq<byte>, i: nat)
    requires ParseGroups(s, i).Good?
    ensures var p := ParseGroups(s, i); s == Var(p.value) + p.rest && p.value < GroupBound(i) && (i > 0 ==> p.value > 0)
    decreases |s|
  {
    hide GroupBound;
    assert s == [s[0]] + s[1..];
    var p := ParseGroups(s, i);
    if s[0] >= 128 {
      GroupsBack(s[1..], i + 1);
      var m := ParseGroups(s[1..], i + 1);
      GroupAbove(s[0] % 128, m.value, i);
      assert Var(p.value) + p.rest == [s[0]] + (Var(m.value) + m.rest);
    } else {
      LastGroup(s[0], i);
    }
  }

  lemma GroupAbove(low: nat, high: nat, i: nat)
    requires low < 128 && high < GroupBound(i + 1)
    ensures low + 128 * high < GroupBound(i) && (low + 128 * high) / 128 == high && (low + 128 * high) % 128 == low
  {
  }

  lemma LastGroup(low: nat, i: nat)
    requires low < 128 && i < 10 && (i == 9 ==> low <= 1)
    ensures low < GroupBound(i)
  {
  }

  /** The reader accepts exactly the shortest form of every 64-bit number. */
  lemma VarExact(n: nat, s: seq<byte>, tail: seq<byte>)
    ensures n < U64_RANGE && s == Var(n) + tail <==> ParseVar(s) == Good(n, tail)
  {
    if n < U64_RANGE {
      GroupsRound(n, 0, tail);
    }
    if ParseVar(s).Good? {
      GroupsBack(s, 0);
    }
  }

  /** No shortest form is the front of another. */
  lemma {:induction false} VarSame(n: nat, m: nat, t: seq<byte>, u: seq<byte>)
    requires Var(n) + t == Var(m) + u
    ensures n == m && t == u
    decreases n
  {
    VarParts(n, t);
    VarParts(m, u);
    if n >= 128 {
      VarSame(n / 128, m / 128, t, u);
    }
  }

  lemma VarParts(n: nat, t: seq<byte>)
    ensures var x := Var(n) + t; x[0] == (if n < 128 then n else 128 + n % 128) && x[1..] == (if n < 128 then t else Var(n / 128) + t)
  {
  }

  function ParseBytes(s: seq<byte>, k: nat): Parse<seq<byte>> {
    if |s| < k then Bad else Good(s[..k], s[k..])
  }

  function ParseLe(s: seq<byte>, k: nat): Parse<nat> {
    if |s| < k then Bad else Good(FromLe(s[..k]), s[k..])
  }

  function ParseBe(s: seq<byte>, k: nat): Parse<nat> {
    if |s| < k then Bad else Good(FromBe(s[..k]), s[k..])
  }

  function ParseBool(s: seq<byte>): Parse<bool> {
    if s == [] || s[0] > 1 then Bad else Good(s[0] == 1, s[1..])
  }

  function BoolByte(b: bool): seq<byte> {
    if b then [1] else [0]
  }

  lemma LeExact(k: nat, n: nat, s: seq<byte>, tail: seq<byte>)
    ensures n < Pow(k) && s == Le(k, n) + tail <==> ParseLe(s, k) == Good(n, tail)
  {
    if n < Pow(k) && s == Le(k, n) + tail {
      LeRound(k, n);
      assert s[..k] == Le(k, n) && s[k..] == tail;
    }
    if |s| >= k {
      LeBack(s[..k]);
      assert s == s[..k] + s[k..];
    }
  }

  lemma BeExact(k: nat, n: nat, s: seq<byte>, tail: seq<byte>)
    ensures n < Pow(k) && s == Be(k, n) + tail <==> ParseBe(s, k) == Good(n, tail)
  {
    if n < Pow(k) && s == Be(k, n) + tail {
      BeRound(k, n);
      assert s[..k] == Be(k, n) && s[k..] == tail;
    }
    if |s| >= k {
      BeBack(s[..k]);
      assert s == s[..k] + s[k..];
    }
  }

  lemma BoolExact(b: bool, s: seq<byte>, tail: seq<byte>)
    ensures s == BoolByte(b) + tail <==> ParseBool(s) == Good(b, tail)
  {
    if s == BoolByte(b) + tail {
      assert s[1..] == tail;
    }
    if s != [] {
      assert s == [s[0]] + s[1..];
    }
  }

  /** What writing the difference between two streams does to a writer: everything arrives, or the
      ceiling was hit and stays hit. */
  ghost predicate Sent(data: seq<byte>, overflowed: bool, stream: seq<byte>, data': seq<byte>, overflowed': bool, stream': seq<byte>, ceiling: nat) {
    && |stream| >= |stream'|
    && (overflowed ==> overflowed')
    && (!overflowed' ==> data + stream == data' + stream')
    && (overflowed' && !overflowed ==> |data| + |stream| > ceiling + |stream'|)
  }

  class ByteWriter {
    var data: seq<byte>
    var overflowed: bool
    const ceiling: nat

    ghost predicate Valid()
      reads this
    {
      |data| <= ceiling
    }

    constructor (ceiling: nat)
      ensures Valid() && data == [] && !overflowed && this.ceiling == ceiling
    {
      data, overflowed := [], false;
      this.ceiling := ceiling;
    }

    method PutByte(value: byte)
      requires Valid()
      modifies this`data, this`overflowed
      ensures Valid() && forall tail: seq<byte> :: Sent(old(data), old(overflowed), [value] + tail, data, overflowed, tail, ceiling)
    {
      if overflowed {
        return;
      }
      if |data| + 1 > ceiling {
        overflowed := true;
        return;
      }
      data := data + [value];
      forall tail: seq<byte> ensures old(data) + ([value] + tail) == data + tail {
      }
    }

    method Put(value: seq<byte>)
      requires Valid()
      modifies this`data, this`overflowed
      ensures Valid() && forall tail: seq<byte> :: Sent(old(data), old(overflowed), value + tail, data, overflowed, tail, ceiling)
    {
      if overflowed {
        return;
      }
      if |value| > ceiling - |data| {
        overflowed := true;
        return;
      }
      data := data + value;
      forall tail: seq<byte> ensures old(data) + (value + tail) == data + tail {
      }
    }

    /** U8, U16, U32 and U64: the low byte first. */
    method Little(k: nat, n: nat)
      requires Valid() && n < Pow(k)
      modifies this`data, this`overflowed
      ensures Valid() && forall tail: seq<byte> :: Sent(old(data), old(overflowed), Le(k, n) + tail, data, overflowed, tail, ceiling)
    {
      var value: nat := n;
      ghost var start, full := data, overflowed;
      for i := 0 to k
        invariant Valid() && value < Pow(k - i)
        invariant forall tail: seq<byte> :: Sent(start, full, Le(k, n) + tail, data, overflowed, Le(k - i, value) + tail, ceiling)
      {
        ghost var d, o, v := data, overflowed, value;
        PutByte(value % 256);
        value := value / 256;
        forall tail: seq<byte> ensures Sent(start, full, Le(k, n) + tail, data, overflowed, Le(k - i - 1, value) + tail, ceiling) {
          assert Le(k - i, v) + tail == [v % 256] + (Le(k - i - 1, value) + tail);
          SentThrough(start, full, Le(k, n) + tail, d, o, Le(k - i, v) + tail, data, overflowed, Le(k - i - 1, value) + tail, ceiling);
        }
      }
      assert forall tail: seq<byte> :: Le(0, value) + tail == tail;
    }

    method VarU64(n: nat)
      requires Valid()
      modifies this`data, this`overflowed
      ensures Valid() && forall tail: seq<byte> :: Sent(old(data), old(overflowed), Var(n) + tail, data, overflowed, tail, ceiling)
    {
      var value: nat := n;
      ghost var start, full := data, overflowed;
      while value >= 128
        invariant Valid()
        invariant forall tail: seq<byte> :: Sent(start, full, Var(n) + tail, data, overflowed, Var(value) + tail, ceiling)
        decreases value
      {
        ghost var d, o, v := data, overflowed, value;
        PutByte(128 + value % 128);
        value := value / 128;
        forall tail: seq<byte> ensures Sent(start, full, Var(n) + tail, data, overflowed, Var(value) + tail, ceiling) {
          assert Var(v) + tail == [128 + v % 128] + (Var(value) + tail);
          SentThrough(start, full, Var(n) + tail, d, o, Var(v) + tail, data, overflowed, Var(value) + tail, ceiling);
        }
      }
      ghost var d, o := data, overflowed;
      PutByte(value);
      forall tail: seq<byte> ensures Sent(start, full, Var(n) + tail, data, overflowed, tail, ceiling) {
        SentThrough(start, full, Var(n) + tail, d, o, Var(value) + tail, data, overflowed, tail, ceiling);
      }
    }

    method Identity(k: nat, id: nat)
      requires Valid()
      modifies this`data, this`overflowed
      ensures Valid() && forall tail: seq<byte> :: Sent(old(data), old(overflowed), Be(k, id) + tail, data, overflowed, tail, ceiling)
    {
      Put(Be(k, id));
    }

    method Bool(b: bool)
      requires Valid()
      modifies this`data, this`overflowed
      ensures Valid() && forall tail: seq<byte> :: Sent(old(data), old(overflowed), BoolByte(b) + tail, data, overflowed, tail, ceiling)
    {
      PutByte(if b then 1 else 0);
    }
  }

  lemma SentThrough(d0: seq<byte>, o0: bool, s0: seq<byte>, d1: seq<byte>, o1: bool, s1: seq<byte>, d2: seq<byte>, o2: bool, s2: seq<byte>, ceiling: nat)
    requires Sent(d0, o0, s0, d1, o1, s1, ceiling) && Sent(d1, o1, s1, d2, o2, s2, ceiling)
    ensures Sent(d0, o0, s0, d2, o2, s2, ceiling)
  {
  }

  /** r and rest are what the parse p says. */
  ghost predicate Follows<T>(p: Parse<T>, r: Option<T>, rest: seq<byte>) {
    match p
    case Bad => r == None
    case Good(value, tail) => r == Some(value) && rest == tail
  }

  class ByteReader {
    const data: seq<byte>
    var position: nat
    var failed: bool

    ghost predicate Valid()
      reads this
    {
      position <= |data|
    }

    ghost function Rest(): seq<byte>
      reads this
      requires Valid()
    {
      data[position..]
    }

    constructor (data: seq<byte>)
      ensures Valid() && !failed && Rest() == data
    {
      this.data := data;
      position, failed := 0, false;
    }

    method Need(count: nat) returns (ok: bool)
      requires Valid()
      modifies this`failed
      ensures ok <==> !old(failed) && count <= |Rest()|
      ensures failed == !ok
    {
      if failed {
        return false;
      }
      if count > |data| - position {
        failed := true;
        return false;
      }
      ok := true;
    }

    method U8() returns (r: Option<byte>)
      requires Valid()
      modifies this`position, this`failed
      ensures Valid() && failed == r.None?
      ensures r.None? <==> old(failed) || old(Rest()) == []
      ensures r.None? ==> position == old(position)
      ensures r.Some? ==> r.value == old(Rest())[0] && Rest() == old(Rest())[1..]
    {
      var ok := Need(1);
      if !ok {
        return None;
      }
      r := Some(data[position]);
      position := position + 1;
    }

    /** U16, U32 and U64. */
    method Little(k: nat) returns (r: Option<nat>)
      requires Valid()
      modifies this`position, this`failed
      ensures Valid() && failed == r.None? && (if old(failed) then r.None? && position == old(position) else Follows(ParseLe(old(Rest()), k), r, Rest()))
    {
      var ok := Need(k);
      if !ok {
        return None;
      }
      var value: nat := 0;
      ghost var s := Rest()[..k];
      assert s[0..] == s;
      for i := 0 to k
        invariant Valid() && !failed && position == old(position) && FromLe(s) == value + Pow(i) * FromLe(s[i..])
      {
        Shifted(s, i);
        value := value + Pow(i) * data[position + i];
      }
      position := position + k;
      r := Some(value);
    }

    /** One group after the other, up to ten. */
    method VarU64() returns (r: Option<nat>)
      requires Valid()
      modifies this`position, this`failed
      ensures Valid() && failed == r.None? && (if old(failed) then r.None? && position == old(position) else Follows(ParseVar(old(Rest())), r, Rest()))
    {
      hide ParseGroups, ParseVar, Scaled;
      var value: nat, i: nat, weight: nat := 0, 0, 1;
      ghost var s := Rest();
      NoGroups(s);
      while i < 10
        invariant Valid() && failed == old(failed) && (failed ==> i == 0 && position == old(position)) && 0 <= i <= 10 && ParseVar(s) == Scaled(value, weight, ParseGroups(Rest(), i))
      {
        GroupStep(s, Rest(), i, value, weight);
        ghost var rest := Rest();
        var b :- U8();
        var low := b % 128;
        if i == 9 && low > 1 {
          failed := true;
          return None;
        }
        value := value + weight * low;
        if b < 128 {
          if i > 0 && low == 0 {
            failed := true;
            return None;
          }
          return Some(value);
        }
        weight := weight * 128;
        i := i + 1;
      }
      TooManyGroups(Rest(), value, weight);
      failed := true;
      r := None;
    }

    method Bool() returns (r: Option<bool>)
      requires Valid()
      modifies this`position, this`failed
      ensures Valid() && failed == r.None? && (if old(failed) then r.None? && position == old(position) else Follows(ParseBool(old(Rest())), r, Rest()))
    {
      var b :- U8();
      if b > 1 {
        failed := true;
        return None;
      }
      r := Some(b == 1);
    }

    /** A fixed-width identity; nil is allowed here. */
    method FixedBytes(k: nat) returns (r: Option<nat>)
      requires Valid()
      modifies this`position, this`failed
      ensures Valid() && failed == r.None? && (if old(failed) then r.None? && position == old(position) else Follows(ParseBe(old(Rest()), k), r, Rest()))
    {
      var ok := Need(k);
      if !ok {
        return None;
      }
      assert data[position..position + k] == Rest()[..k];
      r := Some(FromBe(data[position..position + k]));
      position := position + k;
    }

    method AtEnd() returns (b: bool)
      requires Valid()
      ensures b <==> Rest() == []
    {
      b := position == |data|;
    }
  }

  lemma Shifted(s: seq<byte>, i: nat)
    requires i < |s|
    ensures Pow(i) * FromLe(s[i..]) == Pow(i) * s[i] + Pow(i + 1) * FromLe(s[i + 1..])
  {
    var f := FromLe(s[i + 1..]);
    assert s[i..][1..] == s[i + 1..];
    assert Pow(i) * (s[i] + 256 * f) == Pow(i) * s[i] + (256 * Pow(i)) * f;
  }

  /** The whole number, when the groups read so far add up to `value`. */
  function Scaled(value: nat, weight: nat, p: Parse<nat>): Parse<nat> {
    match p
    case Bad => Bad
    case Good(more, rest) => Good(value + weight * more, rest)
  }

  lemma NoGroups(s: seq<byte>)
    ensures ParseVar(s) == Scaled(0, 1, ParseGroups(s, 0))
  {
  }

  lemma TooManyGroups(rest: seq<byte>, value: nat, weight: nat)
    ensures Scaled(value, weight, ParseGroups(rest, 10)) == Bad
  {
  }

  lemma GroupStep(s: seq<byte>, rest: seq<byte>, i: nat, value: nat, weight: nat)
    requires i < 10 && ParseVar(s) == Scaled(value, weight, ParseGroups(rest, i))
    ensures rest == [] ==> ParseVar(s) == Bad
    ensures rest != [] && i == 9 && rest[0] % 128 > 1 ==> ParseVar(s) == Bad
    ensures rest != [] && rest[0] < 128 && i > 0 && rest[0] == 0 ==> ParseVar(s) == Bad
    ensures rest != [] && rest[0] < 128 && !(i > 0 && rest[0] == 0) && !(i == 9 && rest[0] > 1) ==> ParseVar(s) == Good(value + weight * rest[0], rest[1..])
    ensures rest != [] && rest[0] >= 128 && !(i == 9 && rest[0] % 128 > 1) ==>
      ParseVar(s) == Scaled(value + weight * (rest[0] % 128), weight * 128, ParseGroups(rest[1..], i + 1))
  {
    hide ParseVar;
    if rest != [] && rest[0] >= 128 && !(i == 9 && rest[0] % 128 > 1) {
      var more := ParseGroups(rest[1..], i + 1);
      if more.Good? {
        Weighted(value, weight, rest[0] % 128, more.value);
      }
    }
  }

  lemma Weighted(value: nat, weight: nat, low: nat, more: nat)
    ensures value + weight * (low + 128 * more) == (value + weight * low) + (weight * 128) * more
  {
  }
}
