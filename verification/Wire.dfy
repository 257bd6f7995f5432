/** Typed fields on top of the byte encoding (src/proto.cpp, EncodeId, EncodeStrong, DecodeId,
    DecodeStrong, DecodeEnumValue, DecodeTypedIdVector).  Put* is what a field adds in front of the
    bytes that follow it; Get* is what the strict reader makes of them. */
module Wire {
  import opened Wrappers
  import opened Values
  import opened Bytes

  function PutU32(n: u32, tail: seq<byte>): seq<byte> { Le(4, n) + tail }
  function PutU64(n: u64, tail: seq<byte>): seq<byte> { Le(8, n) + tail }
  function PutId8(id: id8, tail: seq<byte>): seq<byte> { Be(8, id) + tail }
  function PutId16(id: id16, tail: seq<byte>): seq<byte> { Be(16, id) + tail }
  function PutId32(id: id32, tail: seq<byte>): seq<byte> { Be(32, id) + tail }
  function PutBool(b: bool, tail: seq<byte>): seq<byte> { BoolByte(b) + tail }
  function PutCount(n: nat, tail: seq<byte>): seq<byte> { Var(n) + tail }

  function GetU32(s: seq<byte>): Parse<u32> {
    Ranges();
    var p := ParseLe(s, 4);
    if p.Bad? || p.value >= U32_RANGE then Bad else Good(p.value, p.rest)
  }

  function GetU64(s: seq<byte>): Parse<u64> {
    var p := ParseLe(s, 8);
    if p.Bad? || p.value >= U64_RANGE then Bad else Good(p.value, p.rest)
  }

  function GetAny8(s: seq<byte>): Parse<id8> {
    var p := ParseBe(s, 8);
    if p.Bad? || p.value >= U64_RANGE then Bad else Good(p.value, p.rest)
  }

  function GetAny16(s: seq<byte>): Parse<id16> {
    var p := ParseBe(s, 16);
    if p.Bad? || p.value >= U64_RANGE * U64_RANGE then Bad else Good(p.value, p.rest)
  }

  function GetAny32(s: seq<byte>): Parse<id32> {
    var p := ParseBe(s, 32);
    if p.Bad? || p.value >= U64_RANGE * U64_RANGE * (U64_RANGE * U64_RANGE) then Bad else Good(p.value, p.rest)
  }

  function GetId8(s: seq<byte>): Parse<id8> {
    var p := GetAny8(s);
    if p.Bad? || p.value == 0 then Bad else p
  }

  function GetId16(s: seq<byte>): Parse<id16> {
    var p := GetAny16(s);
    if p.Bad? || p.value == 0 then Bad else p
  }

  function GetBool(s: seq<byte>): Parse<bool> { ParseBool(s) }

  function GetCount(s: seq<byte>): Parse<u64> {
    var p := ParseVar(s);
    if p.Bad? || p.value >= U64_RANGE then Bad else Good(p.value, p.rest)
  }

  /** The known values of the wire enumerations are 1 to some last value. */
  function GetEnum(s: seq<byte>, last: nat): (r: Parse<u32>)
    ensures r.Good? ==> 1 <= r.value <= last
  {
    var p := GetU32(s);
    if p.Bad? || p.value < 1 || p.value > last then Bad else p
  }

  lemma BoundedLe(s: seq<byte>, k: nat)
    ensures ParseLe(s, k).Good? ==> ParseLe(s, k).value < Pow(k) && s == Le(k, ParseLe(s, k).value) + ParseLe(s, k).rest
  {
    if ParseLe(s, k).Good? {
      LeExact(k, ParseLe(s, k).value, s, ParseLe(s, k).rest);
    }
  }

  lemma BoundedBe(s: seq<byte>, k: nat)
    ensures ParseBe(s, k).Good? ==> ParseBe(s, k).value < Pow(k) && s == Be(k, ParseBe(s, k).value) + ParseBe(s, k).rest
  {
    if ParseBe(s, k).Good? {
      BeExact(k, ParseBe(s, k).value, s, ParseBe(s, k).rest);
    }
  }

  /** Every field read back is the field written ... */
  lemma FieldsRound()
    ensures forall n: u32, t: seq<byte> :: GetU32(PutU32(n, t)) == Good(n, t)
    ensures forall n: u64, t: seq<byte> :: GetU64(PutU64(n, t)) == Good(n, t)
    ensures forall n: id8, t: seq<byte> :: GetAny8(PutId8(n, t)) == Good(n, t)
    ensures forall n: id16, t: seq<byte> :: GetAny16(PutId16(n, t)) == Good(n, t)
    ensures forall n: id32, t: seq<byte> :: GetAny32(PutId32(n, t)) == Good(n, t)
    ensures forall n: u64, t: seq<byte> :: GetCount(PutCount(n, t)) == Good(n, t)
    ensures forall b: bool, t: seq<byte> :: GetBool(PutBool(b, t)) == Good(b, t)
  {
    Ranges();
    hide ParseLe, ParseBe, ParseVar, ParseBool, Le, Be, Var, Pow, BoolByte;
    forall n: u32, t: seq<byte> ensures GetU32(PutU32(n, t)) == Good(n, t) { LeExact(4, n, PutU32(n, t), t); }
    forall n: u64, t: seq<byte> ensures GetU64(PutU64(n, t)) == Good(n, t) { LeExact(8, n, PutU64(n, t), t); }
    forall n: id8, t: seq<byte> ensures GetAny8(PutId8(n, t)) == Good(n, t) { BeExact(8, n, PutId8(n, t), t); }
    forall n: id16, t: seq<byte> ensures GetAny16(PutId16(n, t)) == Good(n, t) { BeExact(16, n, PutId16(n, t), t); }
    forall n: id32, t: seq<byte> ensures GetAny32(PutId32(n, t)) == Good(n, t) { BeExact(32, n, PutId32(n, t), t); }
    forall n: u64, t: seq<byte> ensures GetCount(PutCount(n, t)) == Good(n, t) { VarExact(n, PutCount(n, t), t); }
    forall b: bool, t: seq<byte> ensures GetBool(PutBool(b, t)) == Good(b, t) { BoolExact(b, PutBool(b, t), t); }
  }

  /** ... and bytes a field was read from are the bytes that field is written as. */
  lemma FieldsBack()
    ensures forall s: seq<byte> :: GetU32(s).Good? ==> s == PutU32(GetU32(s).value, GetU32(s).rest)
    ensures forall s: seq<byte> :: GetU64(s).Good? ==> s == PutU64(GetU64(s).value, GetU64(s).rest)
    ensures forall s: seq<byte> :: GetAny8(s).Good? ==> s == PutId8(GetAny8(s).value, GetAny8(s).rest)
    ensures forall s: seq<byte> :: GetAny16(s).Good? ==> s == PutId16(GetAny16(s).value, GetAny16(s).rest)
    ensures forall s: seq<byte> :: GetAny32(s).Good? ==> s == PutId32(GetAny32(s).value, GetAny32(s).rest)
    ensures forall s: seq<byte> :: GetCount(s).Good? ==> s == PutCount(GetCount(s).value, GetCount(s).rest)
    ensures forall s: seq<byte> :: GetBool(s).Good? ==> s == PutBool(GetBool(s).value, GetBool(s).rest)
  {
    hide ParseLe, ParseBe, ParseVar, ParseBool, Le, Be, Var, Pow, BoolByte;
    forall s: seq<byte> ensures GetU32(s).Good? ==> s == PutU32(GetU32(s).value, GetU32(s).rest) { BoundedLe(s, 4); }
    forall s: seq<byte> ensures GetU64(s).Good? ==> s == PutU64(GetU64(s).value, GetU64(s).rest) { BoundedLe(s, 8); }
    forall s: seq<byte> ensures GetAny8(s).Good? ==> s == PutId8(GetAny8(s).value, GetAny8(s).rest) { BoundedBe(s, 8); }
    forall s: seq<byte> ensures GetAny16(s).Good? ==> s == PutId16(GetAny16(s).value, GetAny16(s).rest) { BoundedBe(s, 16); }
    forall s: seq<byte> ensures GetAny32(s).Good? ==> s == PutId32(GetAny32(s).value, GetAny32(s).rest) { BoundedBe(s, 32); }
    forall s: seq<byte> ensures GetCount(s).Good? ==> s == PutCount(GetCount(s).value, GetCount(s).rest) {
      if GetCount(s).Good? { VarExact(GetCount(s).value, s, GetCount(s).rest); }
    }
    forall s: seq<byte> ensures GetBool(s).Good? ==> s == PutBool(GetBool(s).value, GetBool(s).rest) {
      if GetBool(s).Good? { BoolExact(GetBool(s).value, s, GetBool(s).rest); }
    }
  }

  /** Different fields, or the same fields before different bytes, are written differently. */
  lemma FieldsSame()
    ensures forall n: u32, m: u32, t: seq<byte>, u: seq<byte> :: PutU32(n, t) == PutU32(m, u) ==> n == m && t == u
    ensures forall n: u64, m: u64, t: seq<byte>, u: seq<byte> :: PutU64(n, t) == PutU64(m, u) ==> n == m && t == u
    ensures forall n: id8, m: id8, t: seq<byte>, u: seq<byte> :: PutId8(n, t) == PutId8(m, u) ==> n == m && t == u
    ensures forall n: id16, m: id16, t: seq<byte>, u: seq<byte> :: PutId16(n, t) == PutId16(m, u) ==> n == m && t == u
    ensures forall n: id32, m: id32, t: seq<byte>, u: seq<byte> :: PutId32(n, t) == PutId32(m, u) ==> n == m && t == u
    ensures forall b: bool, c: bool, t: seq<byte>, u: seq<byte> :: PutBool(b, t) == PutBool(c, u) ==> b == c && t == u
  {
    FieldsRound();
    hide PutU32, PutU64, PutId8, PutId16, PutId32, PutBool, GetU32, GetU64, GetAny8, GetAny16, GetAny32, GetBool;
    forall n: u32, m: u32, t: seq<byte>, u: seq<byte> | PutU32(n, t) == PutU32(m, u) ensures n == m && t == u {
      assert GetU32(PutU32(n, t)) == Good(n, t) && GetU32(PutU32(m, u)) == Good(m, u);
    }
    forall n: u64, m: u64, t: seq<byte>, u: seq<byte> | PutU64(n, t) == PutU64(m, u) ensures n == m && t == u {
      assert GetU64(PutU64(n, t)) == Good(n, t) && GetU64(PutU64(m, u)) == Good(m, u);
    }
    forall n: id8, m: id8, t: seq<byte>, u: seq<byte> | PutId8(n, t) == PutId8(m, u) ensures n == m && t == u {
      assert GetAny8(PutId8(n, t)) == Good(n, t) && GetAny8(PutId8(m, u)) == Good(m, u);
    }
    forall n: id16, m: id16, t: seq<byte>, u: seq<byte> | PutId16(n, t) == PutId16(m, u) ensures n == m && t == u {
      assert GetAny16(PutId16(n, t)) == Good(n, t) && GetAny16(PutId16(m, u)) == Good(m, u);
    }
    forall n: id32, m: id32, t: seq<byte>, u: seq<byte> | PutId32(n, t) == PutId32(m, u) ensures n == m && t == u {
      assert GetAny32(PutId32(n, t)) == Good(n, t) && GetAny32(PutId32(m, u)) == Good(m, u);
    }
    forall b: bool, c: bool, t: seq<byte>, u: seq<byte> | PutBool(b, t) == PutBool(c, u) ensures b == c && t == u {
      assert GetBool(PutBool(b, t)) == Good(b, t) && GetBool(PutBool(c, u)) == Good(c, u);
    }
  }

  /** What is written tells the value and the bytes that follow. */
  ghost predicate Tells<T(!new)>(put: (T, seq<byte>) -> seq<byte>) {
    forall x: T, y: T, t: seq<byte>, u: seq<byte> :: put(x, t) == put(y, u) ==> x == y && t == u
  }

  lemma {:induction false} ManySame<T(!new)>(put: (T, seq<byte>) -> seq<byte>, xs: seq<T>, ys: seq<T>, t: seq<byte>, u: seq<byte>)
    requires Tells(put) && |xs| == |ys| && PutMany(put, xs, t) == PutMany(put, ys, u)
    ensures xs == ys && t == u
  {
    if xs != [] {
      assert put(xs[0], PutMany(put, xs[1..], t)) == put(ys[0], PutMany(put, ys[1..], u));
      ManySame(put, xs[1..], ys[1..], t, u);
      assert xs == [xs[0]] + xs[1..] && ys == [ys[0]] + ys[1..];
    }
  }

  lemma ListSame<T(!new)>(put: (T, seq<byte>) -> seq<byte>, xs: seq<T>, ys: seq<T>, t: seq<byte>, u: seq<byte>)
    requires Tells(put) && PutList(put, xs, t) == PutList(put, ys, u)
    ensures xs == ys && t == u
  {
    hide Var, Tells, PutMany;
    VarSame(|xs|, |ys|, PutMany(put, xs, t), PutMany(put, ys, u));
    ManySame(put, xs, ys, t, u);
  }

  /** Repeated fields. */
  function PutMany<T>(put: (T, seq<byte>) -> seq<byte>, xs: seq<T>, tail: seq<byte>): seq<byte> {
    if xs == [] then tail else put(xs[0], PutMany(put, xs[1..], tail))
  }

  function GetMany<T>(get: seq<byte> -> Parse<T>, s: seq<byte>, count: nat): Parse<seq<T>>
    decreases count
  {
    if count == 0 then Good([], s) else
      var first :- get(s);
      var more :- GetMany(get, first.rest, count - 1);
      Good([first.value] + more.value, more.rest)
  }

  /** A counted list, refused above the limit. */
  function PutList<T>(put: (T, seq<byte>) -> seq<byte>, xs: seq<T>, tail: seq<byte>): seq<byte> {
    PutCount(|xs|, PutMany(put, xs, tail))
  }

  function GetList<T>(get: seq<byte> -> Parse<T>, s: seq<byte>, limit: nat): Parse<seq<T>> {
    var count :- GetCount(s);
    if count.value > limit then Bad else GetMany(get, count.rest, count.value)
  }

  ghost predicate ReadsBack<T>(put: (T, seq<byte>) -> seq<byte>, get: seq<byte> -> Parse<T>, x: T) {
    forall t: seq<byte> :: get(put(x, t)) == Good(x, t)
  }

  ghost predicate WritesBack<T>(put: (T, seq<byte>) -> seq<byte>, get: seq<byte> -> Parse<T>) {
    forall s: seq<byte> :: get(s).Good? ==> s == put(get(s).value, get(s).rest)
  }

  lemma {:induction false} ManyRound<T>(put: (T, seq<byte>) -> seq<byte>, get: seq<byte> -> Parse<T>, xs: seq<T>, tail: seq<byte>)
    requires forall i :: 0 <= i < |xs| ==> ReadsBack(put, get, xs[i])
    ensures GetMany(get, PutMany(put, xs, tail), |xs|) == Good(xs, tail)
  {
    if xs != [] {
      ManyRound(put, get, xs[1..], tail);
      assert ReadsBack(put, get, xs[0]);
      assert xs == [xs[0]] + xs[1..];
    }
  }

  lemma {:induction false} ManyBack<T>(put: (T, seq<byte>) -> seq<byte>, get: seq<byte> -> Parse<T>, s: seq<byte>, count: nat)
    requires WritesBack(put, get) && GetMany(get, s, count).Good?
    ensures var p := GetMany(get, s, count); |p.value| == count && s == PutMany(put, p.value, p.rest)
    decreases count
  {
    if count > 0 {
      var first := get(s);
      ManyBack(put, get, first.rest, count - 1);
      var p := GetMany(get, s, count);
      assert p.value[1..] == GetMany(get, first.rest, count - 1).value;
    }
  }

  lemma ListRound<T>(put: (T, seq<byte>) -> seq<byte>, get: seq<byte> -> Parse<T>, xs: seq<T>, tail: seq<byte>, limit: nat)
    requires |xs| < U64_RANGE && |xs| <= limit && forall i :: 0 <= i < |xs| ==> ReadsBack(put, get, xs[i])
    ensures GetList(get, PutList(put, xs, tail), limit) == Good(xs, tail)
  {
    FieldsRound();
    hide GetCount, PutCount, ReadsBack;
    ManyRound(put, get, xs, tail);
  }

  lemma ListBack<T>(put: (T, seq<byte>) -> seq<byte>, get: seq<byte> -> Parse<T>, s: seq<byte>, limit: nat)
    requires WritesBack(put, get) && GetList(get, s, limit).Good?
    ensures var p := GetList(get, s, limit); |p.value| <= limit && s == PutList(put, p.value, p.rest)
  {
    FieldsBack();
    hide GetCount, PutCount, WritesBack;
    ManyBack(put, get, GetCount(s).rest, GetCount(s).value);
  }

  /** What is left to collect after `out`. */
  ghost function Collected<T>(out: seq<T>, p: Parse<seq<T>>): Parse<seq<T>> {
    match p
    case Bad => Bad
    case Good(more, rest) => Good(out + more, rest)
  }

  lemma CollectedStep<T>(get: seq<byte> -> Parse<T>, out: seq<T>, s: seq<byte>, count: nat)
    requires count > 0
    ensures get(s).Bad? ==> Collected(out, GetMany(get, s, count)) == Bad
    ensures get(s).Good? ==> Collected(out, GetMany(get, s, count)) == Collected(out + [get(s).value], GetMany(get, get(s).rest, count - 1))
  {
    if get(s).Good? {
      var more := GetMany(get, get(s).rest, count - 1);
      if more.Good? {
        assert out + ([get(s).value] + more.value) == out + [get(s).value] + more.value;
      }
    }
  }

  method ReadU32(r: ByteReader) returns (n: Option<u32>)
    requires r.Valid() && !r.failed
    modifies r
    ensures r.Valid() && (n.Some? ==> !r.failed) && Follows(GetU32(old(r.Rest())), n, r.Rest())
  {
    BoundedLe(r.Rest(), 4);
    Ranges();
    var v :- r.Little(4);
    n := Some(v);
  }

  method ReadU64(r: ByteReader) returns (n: Option<u64>)
    requires r.Valid() && !r.failed
    modifies r
    ensures r.Valid() && (n.Some? ==> !r.failed) && Follows(GetU64(old(r.Rest())), n, r.Rest())
  {
    BoundedLe(r.Rest(), 8);
    Ranges();
    var v :- r.Little(8);
    n := Some(v);
  }

  method ReadBool(r: ByteReader) returns (b: Option<bool>)
    requires r.Valid() && !r.failed
    modifies r
    ensures r.Valid() && (b.Some? ==> !r.failed) && Follows(GetBool(old(r.Rest())), b, r.Rest())
  {
    b := r.Bool();
  }

  method ReadCount(r: ByteReader, limit: nat) returns (n: Option<u64>)
    requires r.Valid() && !r.failed
    modifies r
    ensures r.Valid() && (n.Some? ==> !r.failed && n.value <= limit)
    ensures n.Some? ==> GetCount(old(r.Rest())) == Good(n.value, r.Rest())
    ensures n.None? ==> GetCount(old(r.Rest())).Bad? || GetCount(old(r.Rest())).value > limit
  {
    ghost var s := r.Rest();
    if ParseVar(s).Good? {
      GroupsBack(s, 0);
    }
    hide ParseVar, GroupBound;
    var v :- r.VarU64();
    if v > limit {
      return None;
    }
    n := Some(v);
  }

  method ReadAny8(r: ByteReader) returns (id: Option<id8>)
    requires r.Valid() && !r.failed
    modifies r
    ensures r.Valid() && (id.Some? ==> !r.failed) && Follows(GetAny8(old(r.Rest())), id, r.Rest())
  {
    BoundedBe(r.Rest(), 8);
    Ranges();
    var v :- r.FixedBytes(8);
    id := Some(v);
  }

  method ReadAny16(r: ByteReader) returns (id: Option<id16>)
    requires r.Valid() && !r.failed
    modifies r
    ensures r.Valid() && (id.Some? ==> !r.failed) && Follows(GetAny16(old(r.Rest())), id, r.Rest())
  {
    BoundedBe(r.Rest(), 16);
    Ranges();
    var v :- r.FixedBytes(16);
    id := Some(v);
  }

  method ReadAny32(r: ByteReader) returns (id: Option<id32>)
    requires r.Valid() && !r.failed
    modifies r
    ensures r.Valid() && (id.Some? ==> !r.failed) && Follows(GetAny32(old(r.Rest())), id, r.Rest())
  {
    BoundedBe(r.Rest(), 32);
    Ranges();
    var v :- r.FixedBytes(32);
    id := Some(v);
  }

  method ReadId8(r: ByteReader) returns (id: Option<id8>)
    requires r.Valid() && !r.failed
    modifies r
    ensures r.Valid() && (id.Some? ==> !r.failed) && Follows(GetId8(old(r.Rest())), id, r.Rest())
  {
    hide GetAny8;
    id := ReadAny8(r);
    if id == Some(0) {
      return None;
    }
  }

  method ReadId16(r: ByteReader) returns (id: Option<id16>)
    requires r.Valid() && !r.failed
    modifies r
    ensures r.Valid() && (id.Some? ==> !r.failed) && Follows(GetId16(old(r.Rest())), id, r.Rest())
  {
    hide GetAny16;
    id := ReadAny16(r);
    if id == Some(0) {
      return None;
    }
  }

  method ReadEnum(r: ByteReader, last: nat) returns (n: Option<u32>)
    requires r.Valid() && !r.failed
    modifies r
    ensures r.Valid() && (n.Some? ==> !r.failed && 1 <= n.value <= last) && Follows(GetEnum(old(r.Rest()), last), n, r.Rest())
  {
    hide GetU32;
    n := ReadU32(r);
    if n.Some? && (n.value < 1 || n.value > last) {
      return None;
    }
  }

  method ReadIds8(r: ByteReader, limit: nat) returns (ids: Option<seq<id8>>)
    requires r.Valid() && !r.failed
    modifies r
    ensures r.Valid() && (ids.Some? ==> !r.failed) && Follows(GetList(GetId8, old(r.Rest()), limit), ids, r.Rest())
  {
    hide GetId8, GetCount, GetMany;
    var count :- ReadCount(r, limit);
    ghost var s := r.Rest();
    var out: seq<id8> := [];
    NothingLeft(GetId8, s, count);
    for i := 0 to count
      invariant r.Valid() && !r.failed && GetMany(GetId8, s, count) == Collected(out, GetMany(GetId8, r.Rest(), count - i))
    {
      CollectedStep(GetId8, out, r.Rest(), count - i);
      var id :- ReadId8(r);
      out := out + [id];
    }
    NoneLeft(GetId8, out, r.Rest());
    ids := Some(out);
  }

  method ReadIds16(r: ByteReader, limit: nat) returns (ids: Option<seq<id16>>)
    requires r.Valid() && !r.failed
    modifies r
    ensures r.Valid() && (ids.Some? ==> !r.failed) && Follows(GetList(GetId16, old(r.Rest()), limit), ids, r.Rest())
  {
    hide GetId16, GetCount, GetMany;
    var count :- ReadCount(r, limit);
    ghost var s := r.Rest();
    var out: seq<id16> := [];
    NothingLeft(GetId16, s, count);
    for i := 0 to count
      invariant r.Valid() && !r.failed && GetMany(GetId16, s, count) == Collected(out, GetMany(GetId16, r.Rest(), count - i))
    {
      CollectedStep(GetId16, out, r.Rest(), count - i);
      var id :- ReadId16(r);
      out := out + [id];
    }
    NoneLeft(GetId16, out, r.Rest());
    ids := Some(out);
  }

  lemma NothingLeft<T>(get: seq<byte> -> Parse<T>, s: seq<byte>, count: nat)
    ensures GetMany(get, s, count) == Collected([], GetMany(get, s, count))
  {
    var p := GetMany(get, s, count);
    if p.Good? {
      assert [] + p.value == p.value;
    }
  }

  lemma NoneLeft<T>(get: seq<byte> -> Parse<T>, out: seq<T>, s: seq<byte>)
    ensures Collected(out, GetMany(get, s, 0)) == Good(out, s)
  {
    assert out + [] == out;
  }

  method WriteU32(w: ByteWriter, n: u32)
    requires w.Valid()
    modifies w
    ensures w.Valid() && forall t: seq<byte> :: Sent(old(w.data), old(w.overflowed), PutU32(n, t), w.data, w.overflowed, t, w.ceiling)
  {
    Ranges();
    w.Little(4, n);
  }

  method WriteU64(w: ByteWriter, n: u64)
    requires w.Valid()
    modifies w
    ensures w.Valid() && forall t: seq<byte> :: Sent(old(w.data), old(w.overflowed), PutU64(n, t), w.data, w.overflowed, t, w.ceiling)
  {
    Ranges();
    w.Little(8, n);
  }

  method WriteBool(w: ByteWriter, b: bool)
    requires w.Valid()
    modifies w
    ensures w.Valid() && forall t: seq<byte> :: Sent(old(w.data), old(w.overflowed), PutBool(b, t), w.data, w.overflowed, t, w.ceiling)
  {
    w.Bool(b);
  }

  method WriteCount(w: ByteWriter, n: nat)
    requires w.Valid()
    modifies w
    ensures w.Valid() && forall t: seq<byte> :: Sent(old(w.data), old(w.overflowed), PutCount(n, t), w.data, w.overflowed, t, w.ceiling)
  {
    w.VarU64(n);
  }

  method WriteId8(w: ByteWriter, id: id8)
    requires w.Valid()
    modifies w
    ensures w.Valid() && forall t: seq<byte> :: Sent(old(w.data), old(w.overflowed), PutId8(id, t), w.data, w.overflowed, t, w.ceiling)
  {
    w.Identity(8, id);
  }

  method WriteId16(w: ByteWriter, id: id16)
    requires w.Valid()
    modifies w
    ensures w.Valid() && forall t: seq<byte> :: Sent(old(w.data), old(w.overflowed), PutId16(id, t), w.data, w.overflowed, t, w.ceiling)
  {
    w.Identity(16, id);
  }

  method WriteId32(w: ByteWriter, id: id32)
    requires w.Valid()
    modifies w
    ensures w.Valid() && forall t: seq<byte> :: Sent(old(w.data), old(w.overflowed), PutId32(id, t), w.data, w.overflowed, t, w.ceiling)
  {
    w.Identity(32, id);
  }

  method WriteIds8(w: ByteWriter, ids: seq<id8>)
    requires w.Valid()
    modifies w
    ensures w.Valid() && forall t: seq<byte> :: Sent(old(w.data), old(w.overflowed), PutList(PutId8, ids, t), w.data, w.overflowed, t, w.ceiling)
  {
    hide PutId8, PutCount, PutMany;
    ghost var d0, o0 := w.data, w.overflowed;
    WriteCount(w, |ids|);
    assert ids[0..] == ids;
    for i := 0 to |ids|
      invariant w.Valid()
      invariant forall t: seq<byte> :: Sent(d0, o0, PutList(PutId8, ids, t), w.data, w.overflowed, PutMany(PutId8, ids[i..], t), w.ceiling)
    {
      ManyStep(PutId8, ids, i);
      WriteId8(w, ids[i]);
    }
    ManyEnd(PutId8, ids);
  }

  method WriteIds16(w: ByteWriter, ids: seq<id16>)
    requires w.Valid()
    modifies w
    ensures w.Valid() && forall t: seq<byte> :: Sent(old(w.data), old(w.overflowed), PutList(PutId16, ids, t), w.data, w.overflowed, t, w.ceiling)
  {
    hide PutId16, PutCount, PutMany;
    ghost var d0, o0 := w.data, w.overflowed;
    WriteCount(w, |ids|);
    assert ids[0..] == ids;
    for i := 0 to |ids|
      invariant w.Valid()
      invariant forall t: seq<byte> :: Sent(d0, o0, PutList(PutId16, ids, t), w.data, w.overflowed, PutMany(PutId16, ids[i..], t), w.ceiling)
    {
      ManyStep(PutId16, ids, i);
      WriteId16(w, ids[i]);
    }
    ManyEnd(PutId16, ids);
  }

  lemma ManyStep<T>(put: (T, seq<byte>) -> seq<byte>, xs: seq<T>, i: nat)
    requires i < |xs|
    ensures forall t: seq<byte> :: PutMany(put, xs[i..], t) == put(xs[i], PutMany(put, xs[i + 1..], t))
  {
    assert xs[i..][1..] == xs[i + 1..];
  }

  lemma ManyEnd<T>(put: (T, seq<byte>) -> seq<byte>, xs: seq<T>)
    ensures forall t: seq<byte> :: PutMany(put, xs[|xs|..], t) == t
  {
  }
}
