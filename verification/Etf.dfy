/** The Erlang External Term Format: what encoding and decoding compute, and that they agree.
    Tag values follow the chapter "External Term Format" of the ERTS User's Guide. */
module Etf {
  import opened Options

  type byte = x: int | 0 <= x < 256
  type bytes = seq<byte>

  const TWO_16 := 0x1_0000
  const TWO_31 := 0x8000_0000
  const TWO_32 := 0x1_0000_0000
  const TWO_63 := 0x8000_0000_0000_0000
  const TWO_64 := 0x1_0000_0000_0000_0000

  type uint32 = x: int | 0 <= x < 0x1_0000_0000
  type uint64 = x: int | 0 <= x < 0x1_0000_0000_0000_0000
  type int64 = x: int | -0x8000_0000_0000_0000 <= x < 0x8000_0000_0000_0000

  const MAGIC: byte := 131
  const COMPRESSED: byte := 80
  const NEW_FLOAT: byte := 70
  const SMALL_INTEGER: byte := 97
  const INTEGER: byte := 98
  const ATOM: byte := 100
  const REFERENCE: byte := 101
  const PORT: byte := 102
  const PID: byte := 103
  const SMALL_TUPLE: byte := 104
  const LARGE_TUPLE: byte := 105
  const NIL: byte := 106
  const STRING: byte := 107
  const LIST: byte := 108
  const BINARY: byte := 109
  const SMALL_BIG: byte := 110
  const LARGE_BIG: byte := 111
  const NEW_REFERENCE: byte := 114
  const SMALL_ATOM: byte := 115
  const ATOM_UTF8: byte := 118
  const SMALL_ATOM_UTF8: byte := 119
  const NEW_PID: byte := 88
  const NEW_PORT: byte := 89
  const NEWER_REFERENCE: byte := 90

  /** The values the encoder accepts or the decoder returns; floats are their 64-bit patterns,
      atoms and strings their UTF-8 bytes. */
  datatype Term =
    | Bool(b: bool)
    | GoInt(i: int64)
    | Int(i: int64)
    | BigInt(n: int)
    | Float(bits: uint64)
    | Atom(name: bytes)
    | Str(text: bytes)
    | Binary(data: bytes)
    | Tuple(elems: seq<Term>)
    | List(elems: seq<Term>)
    | Pid(node: bytes, id: uint32, serial: uint32, creation: uint32)
    | Port(node: bytes, id: uint32, creation: uint32)
    | Reference(node: bytes, creation: uint32, ids: seq<uint32>)
    | Nil

  datatype Error = Eof | UnsupportedTag(tag: byte, at: nat) | NodeNotAtom | Deflated | TooShort | BadMagic

  /** A value and the cursor after it, or an error. */
  datatype Read<T> = Ok(value: T, next: nat) | Fail(error: Error) {
    predicate IsFailure() { Fail? }
    function PropagateFailure<U>(): Read<U>
      requires Fail?
    { Fail(error) }
    function Extract(): (T, nat)
      requires Ok?
    { (value, next) }
  }

  // ---- Numbers as bytes

  function Be(n: nat, k: nat): (r: bytes)
    ensures |r| == k
  {
    if k == 0 then [] else Be(n / 256, k - 1) + [n % 256]
  }

  function FromBe(b: bytes): nat {
    if b == [] then 0 else FromBe(b[..|b|-1]) * 256 + b[|b|-1]
  }

  function Le(n: nat): bytes {
    if n == 0 then [] else [n % 256] + Le(n / 256)
  }

  function FromLe(b: bytes): nat {
    if b == [] then 0 else b[0] + 256 * FromLe(b[1..])
  }

  function Pow256(k: nat): nat { if k == 0 then 1 else 256 * Pow256(k - 1) }

  lemma {:induction false} BeRoundTrip(n: nat, k: nat)
    requires n < Pow256(k)
    ensures FromBe(Be(n, k)) == n
  {
    if k > 0 {
      BeRoundTrip(n / 256, k - 1);
      assert Be(n, k)[..k-1] == Be(n / 256, k - 1);
    }
  }

  lemma {:induction false} FromBeBound(b: bytes)
    ensures FromBe(b) < Pow256(|b|)
  {
    if b != [] { FromBeBound(b[..|b|-1]); }
  }

  lemma {:induction false} LeRoundTrip(n: nat)
    ensures FromLe(Le(n)) == n
  {
    if n > 0 { LeRoundTrip(n / 256); }
  }

  lemma {:induction false} LeSize(n: nat, k: nat)
    requires n < Pow256(k)
    ensures |Le(n)| <= k
  {
    if n > 0 { LeSize(n / 256, k - 1); }
  }

  lemma Powers()
    ensures Pow256(1) == 256 && Pow256(2) == TWO_16 && Pow256(4) == TWO_32 && Pow256(8) == TWO_64
  {
    assert Pow256(3) == 0x100_0000;
    assert Pow256(5) == 0x100_0000_0000 && Pow256(6) == 0x1_0000_0000_0000 && Pow256(7) == 0x100_0000_0000_0000;
  }

  /** The signed reading of a 32-bit pattern. */
  function Signed32(n: uint32): int64 { if n < TWO_31 then n else n - TWO_32 }

  // ---- Encoding

  function TrueName(): bytes { [116, 114, 117, 101] }
  function FalseName(): bytes { [102, 97, 108, 115, 101] }

  /** The absolute value as 64-bit arithmetic has it. */
  function Magnitude(v: int): uint64
    requires -TWO_63 <= v < TWO_63
  {
    if v < 0 then (-v) % TWO_64 else v
  }

  function EncInt(v: int64): bytes {
    if 0 <= v <= 255 then [SMALL_INTEGER, v]
    else if -TWO_31 <= v < TWO_31 then [INTEGER] + Be(v % TWO_32, 4)
    else
      var digits := Le(Magnitude(v));
      [SMALL_BIG, |digits| % 256, if v < 0 then 1 else 0] + digits
  }

  function EncAtom(name: bytes): Option<bytes> {
    if |name| > 65535 then None
    else if |name| <= 255 then Some([SMALL_ATOM_UTF8, |name|] + name)
    else Some([ATOM_UTF8] + Be(|name|, 2) + name)
  }

  /** Lengths are written modulo the width of their field. */
  function EncBinary(data: bytes): bytes {
    [BINARY] + Be(|data| % TWO_32, 4) + data
  }

  function TupleHeader(n: nat): bytes {
    if n <= 255 then [SMALL_TUPLE, n] else [LARGE_TUPLE] + Be(n % TWO_32, 4)
  }

  function EncIds(ids: seq<uint32>): bytes {
    if ids == [] then [] else Be(ids[0], 4) + EncIds(ids[1..])
  }

  function Append(a: Option<bytes>, b: Option<bytes>): Option<bytes> {
    if a.Some? && b.Some? then Some(a.value + b.value) else None
  }

  function EncTerm(t: Term): Option<bytes>
    decreases t, 1
  {
    match t
    case Bool(b) => EncAtom(if b then TrueName() else FalseName())
    case GoInt(i) => Some(EncInt(i))
    case Int(i) => Some(EncInt(i))
    case BigInt(_) => None
    case Float(bits) => Some([NEW_FLOAT] + Be(bits, 8))
    case Atom(name) => EncAtom(name)
    case Str(text) => Some(EncBinary(text))
    case Binary(data) => Some(EncBinary(data))
    case Tuple(elems) => Append(Some(TupleHeader(|elems|)), EncAll(elems))
    case List(elems) =>
      if elems == [] then Some([NIL])
      else Append(Append(Some([LIST] + Be(|elems| % TWO_32, 4)), EncAll(elems)), Some([NIL]))
    case Pid(node, id, serial, creation) =>
      Append(Append(Some([NEW_PID]), EncAtom(node)), Some(Be(id, 4) + Be(serial, 4) + Be(creation, 4)))
    case Port(node, id, creation) =>
      Append(Append(Some([NEW_PORT]), EncAtom(node)), Some(Be(id, 4) + Be(creation, 4)))
    case Reference(node, creation, ids) =>
      Append(Append(Some([NEWER_REFERENCE] + Be(|ids| % TWO_16, 2)), EncAtom(node)),
             Some(Be(creation, 4) + EncIds(ids)))
    case Nil => Some([NIL])
  }

  function EncAll(ts: seq<Term>): Option<bytes>
    decreases ts, 0
  {
    if ts == [] then Some([]) else Append(EncTerm(ts[0]), EncAll(ts[1..]))
  }

  function Encode(t: Term): Option<bytes> {
    Append(Some([MAGIC]), EncTerm(t))
  }

  // ---- Decoding

  function ReadByte(buf: bytes, pos: nat): Read<byte> {
    if pos < |buf| then Ok(buf[pos], pos + 1) else Fail(Eof)
  }

  function ReadBytes(buf: bytes, pos: nat, n: nat): Read<bytes> {
    if pos + n <= |buf| then Ok(buf[pos..pos+n], pos + n) else Fail(Eof)
  }

  function ReadBe(buf: bytes, pos: nat, k: nat): (r: Read<nat>)
    ensures r.Ok? ==> r.next == pos + k <= |buf| && r.value < Pow256(k)
  {
    var (b, p) :- ReadBytes(buf, pos, k);
    FromBeBound(b);
    Ok(FromBe(b), p)
  }

  function ReadU32(buf: bytes, pos: nat): (r: Read<uint32>)
    ensures r.Ok? ==> r.next == pos + 4 <= |buf|
  {
    Powers();
    var (n, p) :- ReadBe(buf, pos, 4);
    Ok(n, p)
  }

  /** Latin-1 code points as UTF-8. */
  function Latin1(b: bytes): bytes {
    if b == [] then [] else Latin1(b[..|b|-1]) + Rune(b[|b|-1])
  }

  function Rune(c: byte): bytes {
    if c < 128 then [c] else [192 + c / 64, 128 + c % 64]
  }

  /** A length of `k` bytes, then that many bytes. */
  function ReadSized(buf: bytes, pos: nat, k: nat): (r: Read<bytes>)
    ensures r.Ok? ==> pos + k <= r.next <= |buf| && |r.value| <= r.next - pos
  {
    var (n, p) :- ReadBe(buf, pos, k);
    ReadBytes(buf, p, n)
  }

  function Chars(b: bytes): (r: seq<Term>)
    ensures |r| == |b|
  {
    seq(|b|, i requires 0 <= i < |b| => Int(b[i]))
  }

  function ReadBig(buf: bytes, pos: nat, n: nat): (r: Read<Term>)
    ensures r.Ok? ==> r.next == pos + 1 + n <= |buf| && (r.value.Int? || r.value.BigInt?)
  {
    var (sign, p) :- ReadByte(buf, pos);
    var (digits, q) :- ReadBytes(buf, p, n);
    var v: int := FromLe(digits) * (if sign != 0 then -1 else 1);
    Ok(if -TWO_63 <= v < TWO_63 then Int(v) else BigInt(v), q)
  }

  function ReadIds(buf: bytes, pos: nat, n: nat): (r: Read<seq<uint32>>)
    ensures r.Ok? ==> |r.value| == n && r.next == pos + 4 * n && pos <= r.next && (n > 0 ==> r.next <= |buf|)
    decreases n
  {
    if n == 0 then Ok([], pos) else
      var (id, p) :- ReadU32(buf, pos);
      var (ids, q) :- ReadIds(buf, p, n - 1);
      Ok([id] + ids, q)
  }

  function ReadCreation(buf: bytes, pos: nat, wide: bool): (r: Read<uint32>)
    ensures r.Ok? ==> pos < r.next <= |buf|
  {
    if wide then ReadU32(buf, pos)
    else var (b, p) :- ReadByte(buf, pos); Ok(b, p)
  }

  function DecTerm(buf: bytes, pos: nat): (r: Read<Term>)
    ensures r.Ok? ==> pos < r.next <= |buf|
    decreases |buf| - pos, 0
  {
    var (tag, p) :- ReadByte(buf, pos);
    if tag == COMPRESSED then Fail(Deflated)
    else if tag == NEW_FLOAT then var (n, q) :- ReadBe(buf, p, 8); Powers(); Ok(Float(n), q)
    else if tag == SMALL_INTEGER then var (b, q) :- ReadByte(buf, p); Ok(Int(b), q)
    else if tag == INTEGER then var (n, q) :- ReadU32(buf, p); Ok(Int(Signed32(n)), q)
    else if tag == ATOM then var (b, q) :- ReadSized(buf, p, 2); Ok(Atom(Latin1(b)), q)
    else if tag == SMALL_ATOM then var (b, q) :- ReadSized(buf, p, 1); Ok(Atom(Latin1(b)), q)
    else if tag == ATOM_UTF8 then var (b, q) :- ReadSized(buf, p, 2); Ok(Atom(b), q)
    else if tag == SMALL_ATOM_UTF8 then var (b, q) :- ReadSized(buf, p, 1); Ok(Atom(b), q)
    else if tag == SMALL_TUPLE then
      var (n, q) :- ReadByte(buf, p);
      TupleAt(buf, q, n)
    else if tag == LARGE_TUPLE then
      var (n, q) :- ReadU32(buf, p);
      TupleAt(buf, q, n)
    else if tag == NIL then Ok(List([]), p)
    else if tag == STRING then var (b, q) :- ReadSized(buf, p, 2); Ok(List(Chars(b)), q)
    else if tag == LIST then ListAt(buf, p)
    else if tag == BINARY then var (b, q) :- ReadSized(buf, p, 4); Ok(Binary(b), q)
    else if tag == SMALL_BIG then var (n, q) :- ReadByte(buf, p); ReadBig(buf, q, n)
    else if tag == LARGE_BIG then var (n, q) :- ReadU32(buf, p); ReadBig(buf, q, n)
    else if tag == PID || tag == NEW_PID then PidAt(buf, p, tag == NEW_PID)
    else if tag == PORT || tag == NEW_PORT then PortAt(buf, p, tag == NEW_PORT)
    else if tag == REFERENCE then OldReferenceAt(buf, p)
    else if tag == NEW_REFERENCE || tag == NEWER_REFERENCE then ReferenceAt(buf, p, tag == NEWER_REFERENCE)
    else Fail(UnsupportedTag(tag, pos))
  }

  function TupleAt(buf: bytes, pos: nat, n: nat): (r: Read<Term>)
    ensures r.Ok? ==> pos <= r.next && (pos <= |buf| ==> r.next <= |buf|)
    decreases |buf| - pos, 2
  {
    var (ts, p) :- DecTerms(buf, pos, n);
    Ok(Tuple(ts), p)
  }

  /** The elements, then the tail: a list is spliced in, anything else becomes the last element. */
  function ListAt(buf: bytes, pos: nat): (r: Read<Term>)
    ensures r.Ok? ==> pos < r.next <= |buf|
    decreases |buf| - pos, 2
  {
    var (n, p) :- ReadU32(buf, pos);
    var (ts, q) :- DecTerms(buf, p, n);
    var (tail, z) :- DecTerm(buf, q);
    Ok(List(ts + (if tail.List? then tail.elems else [tail])), z)
  }

  function PidAt(buf: bytes, pos: nat, wide: bool): (r: Read<Term>)
    ensures r.Ok? ==> pos < r.next <= |buf| && r.value.Pid?
    decreases |buf| - pos, 2
  {
    var (node, p) :- DecNode(buf, pos);
    var (id, q) :- ReadU32(buf, p);
    var (serial, y) :- ReadU32(buf, q);
    var (creation, z) :- ReadCreation(buf, y, wide);
    Ok(Pid(node, id, serial, creation), z)
  }

  function PortAt(buf: bytes, pos: nat, wide: bool): (r: Read<Term>)
    ensures r.Ok? ==> pos < r.next <= |buf| && r.value.Port?
    decreases |buf| - pos, 2
  {
    var (node, p) :- DecNode(buf, pos);
    var (id, q) :- ReadU32(buf, p);
    var (creation, z) :- ReadCreation(buf, q, wide);
    Ok(Port(node, id, creation), z)
  }

  function OldReferenceAt(buf: bytes, pos: nat): (r: Read<Term>)
    ensures r.Ok? ==> pos < r.next <= |buf| && r.value.Reference? && |r.value.ids| == 1
    decreases |buf| - pos, 2
  {
    var (node, p) :- DecNode(buf, pos);
    var (id, q) :- ReadU32(buf, p);
    var (creation, z) :- ReadByte(buf, q);
    Ok(Reference(node, creation, [id]), z)
  }

  function ReferenceAt(buf: bytes, pos: nat, wide: bool): (r: Read<Term>)
    ensures r.Ok? ==> pos < r.next <= |buf| && r.value.Reference? && |r.value.ids| < TWO_16
    decreases |buf| - pos, 2
  {
    Powers();
    var (n, p) :- ReadBe(buf, pos, 2);
    var (node, q) :- DecNode(buf, p);
    var (creation, y) :- ReadCreation(buf, q, wide);
    var (ids, z) :- ReadIds(buf, y, n);
    Ok(Reference(node, creation, ids), z)
  }

  /** A node name: any term, which must turn out to be an atom. */
  function DecNode(buf: bytes, pos: nat): (r: Read<bytes>)
    ensures r.Ok? ==> pos < r.next <= |buf|
    decreases |buf| - pos, 1
  {
    var (t, p) :- DecTerm(buf, pos);
    if t.Atom? then Ok(t.name, p) else Fail(NodeNotAtom)
  }

  function DecTerms(buf: bytes, pos: nat, n: nat): (r: Read<seq<Term>>)
    ensures r.Ok? ==> |r.value| == n && pos + n <= r.next && (n > 0 ==> r.next <= |buf|) && (n == 0 ==> r.next == pos)
    decreases |buf| - pos, 1
  {
    if n == 0 then Ok([], pos) else
      var (t, p) :- DecTerm(buf, pos);
      var (ts, q) :- DecTerms(buf, p, n - 1);
      Ok([t] + ts, q)
  }

  function Decode(buf: bytes): Read<Term> {
    if |buf| < 2 then Fail(TooShort)
    else if buf[0] != MAGIC then Fail(BadMagic)
    else DecTerm(buf, 1)
  }

  // ---- Round trip

  /** What decoding gives back. */
  function Normal(t: Term): Term
    decreases t, 1
  {
    match t
    case Bool(b) => Atom(if b then TrueName() else FalseName())
    case GoInt(i) => Int(i)
    case Str(text) => Binary(text)
    case Tuple(elems) => Tuple(NormalAll(elems))
    case List(elems) => List(NormalAll(elems))
    case Nil => List([])
    case _ => t
  }

  function NormalAll(ts: seq<Term>): (r: seq<Term>)
    ensures |r| == |ts|
    decreases ts, 0
  {
    if ts == [] then [] else [Normal(ts[0])] + NormalAll(ts[1..])
  }

  /** Every length fits the field the format has for it. */
  ghost predicate InLimits(t: Term)
    decreases t, 1
  {
    match t
    case Str(text) => |text| < TWO_32
    case Binary(data) => |data| < TWO_32
    case Tuple(elems) => |elems| < TWO_32 && AllInLimits(elems)
    case List(elems) => |elems| < TWO_32 && AllInLimits(elems)
    case Reference(_, _, ids) => |ids| < TWO_16
    case _ => true
  }

  ghost predicate AllInLimits(ts: seq<Term>)
    decreases ts, 0
  {
    ts == [] || (InLimits(ts[0]) && AllInLimits(ts[1..]))
  }

  /** `part` stands in `buf` at `pos`. */
  ghost predicate At(buf: bytes, pos: nat, part: bytes) {
    pos + |part| <= |buf| && buf[pos..pos+|part|] == part
  }

  lemma AtSplit(buf: bytes, pos: nat, a: bytes, b: bytes)
    requires At(buf, pos, a + b)
    ensures At(buf, pos, a) && At(buf, pos + |a|, b)
  {
    assert buf[pos..pos+|a|] == buf[pos..pos+|a+b|][..|a|];
    assert buf[pos+|a|..pos+|a|+|b|] == buf[pos..pos+|a+b|][|a|..];
  }

  lemma ReadBeAt(buf: bytes, pos: nat, n: nat, k: nat)
    requires At(buf, pos, Be(n, k)) && n < Pow256(k)
    ensures ReadBe(buf, pos, k) == Ok(n, pos + k)
  {
    BeRoundTrip(n, k);
  }

  lemma ReadU32At(buf: bytes, pos: nat, n: uint32)
    requires At(buf, pos, Be(n, 4))
    ensures ReadU32(buf, pos) == Ok(n, pos + 4)
  {
    Powers();
    ReadBeAt(buf, pos, n, 4);
  }

  lemma ReadSizedAt(buf: bytes, pos: nat, k: nat, data: bytes)
    requires At(buf, pos, Be(|data|, k) + data) && |data| < Pow256(k)
    ensures ReadSized(buf, pos, k) == Ok(data, pos + k + |data|)
  {
    hide *;
    AtSplit(buf, pos, Be(|data|, k), data);
    ReadBeAt(buf, pos, |data|, k);
    SizedBy(buf, pos, k, data);
  }

  lemma SizedBy(buf: bytes, pos: nat, k: nat, data: bytes)
    requires ReadBe(buf, pos, k) == Ok(|data|, pos + k) && At(buf, pos + k, data)
    ensures ReadSized(buf, pos, k) == Ok(data, pos + k + |data|)
  {
    hide ReadBe;
  }

  lemma AtByte(buf: bytes, pos: nat, part: bytes, i: nat)
    requires At(buf, pos, part) && i < |part|
    ensures pos + i < |buf| && buf[pos + i] == part[i]
  {
    assert buf[pos..pos+|part|][i] == part[i];
  }

  lemma MagnitudeIs(v: int)
    requires -TWO_63 <= v < TWO_63
    ensures Magnitude(v) == if v < 0 then -v else v
  {}

  lemma DecSmallBig(buf: bytes, pos: nat, n: byte, sign: byte, digits: bytes)
    requires At(buf, pos, [SMALL_BIG, n, sign]) && At(buf, pos + 3, digits) && |digits| == n
    ensures DecTerm(buf, pos) == ReadBig(buf, pos + 2, n)
    ensures ReadByte(buf, pos + 2) == Ok(sign, pos + 3) && ReadBytes(buf, pos + 3, n) == Ok(digits, pos + 3 + n)
  {
    hide ReadBig;
    AtByte(buf, pos, [SMALL_BIG, n, sign], 0);
    AtByte(buf, pos, [SMALL_BIG, n, sign], 1);
    AtByte(buf, pos, [SMALL_BIG, n, sign], 2);
  }

  lemma BigRoundTrip(buf: bytes, pos: nat, v: int64)
    requires !(-TWO_31 <= v < TWO_31) && At(buf, pos, EncInt(v))
    ensures DecTerm(buf, pos) == Ok(Int(v), pos + |EncInt(v)|)
  {
    hide DecTerm, Le, FromLe, At, Pow256, ReadBytes, ReadByte;
    var abs := Magnitude(v);
    var digits := Le(abs);
    MagnitudeIs(v);
    hide Magnitude;
    Powers();
    LeSize(abs, 8);
    LeRoundTrip(abs);
    var sign: byte := if v < 0 then 1 else 0;
    AtSplit(buf, pos, [SMALL_BIG, |digits| % 256, sign], digits);
    DecSmallBig(buf, pos, |digits|, sign, digits);
  }

  lemma IntRoundTrip(buf: bytes, pos: nat, v: int64)
    requires At(buf, pos, EncInt(v))
    ensures DecTerm(buf, pos) == Ok(Int(v), pos + |EncInt(v)|)
  {
    AtByte(buf, pos, EncInt(v), 0);
    if 0 <= v <= 255 {
      AtByte(buf, pos, EncInt(v), 1);
    } else if -TWO_31 <= v < TWO_31 {
      hide Be;
      AtSplit(buf, pos, [INTEGER], Be(v % TWO_32, 4));
      ReadU32At(buf, pos + 1, v % TWO_32);
      hide ReadU32;
      assert Signed32(v % TWO_32) == v;
    } else {
      BigRoundTrip(buf, pos, v);
    }
  }

  lemma SmallAtomRoundTrip(buf: bytes, pos: nat, name: bytes)
    requires |name| <= 255 && At(buf, pos, [SMALL_ATOM_UTF8, |name|] + name)
    ensures DecTerm(buf, pos) == Ok(Atom(name), pos + 2 + |name|)
  {
    assert Be(|name|, 1) == Be(|name| / 256, 0) + [|name|] == [|name|];
    Powers();
    hide Be, Pow256;
    assert [SMALL_ATOM_UTF8, |name|] + name == [SMALL_ATOM_UTF8] + (Be(|name|, 1) + name);
    AtSplit(buf, pos, [SMALL_ATOM_UTF8], Be(|name|, 1) + name);
    ReadSizedAt(buf, pos + 1, 1, name);
    hide ReadSized;
  }

  lemma AtomRoundTrip(buf: bytes, pos: nat, name: bytes)
    requires EncAtom(name).Some? && At(buf, pos, EncAtom(name).value)
    ensures DecTerm(buf, pos) == Ok(Atom(name), pos + |EncAtom(name).value|)
  {
    Powers();
    hide Be, Pow256;
    if |name| <= 255 {
      SmallAtomRoundTrip(buf, pos, name);
    } else {
      assert [ATOM_UTF8] + Be(|name|, 2) + name == [ATOM_UTF8] + (Be(|name|, 2) + name);
      AtSplit(buf, pos, [ATOM_UTF8], Be(|name|, 2) + name);
      ReadSizedAt(buf, pos + 1, 2, name);
      hide ReadSized;
    }
  }

  lemma BinaryRoundTrip(buf: bytes, pos: nat, data: bytes)
    requires |data| < TWO_32 && At(buf, pos, EncBinary(data))
    ensures DecTerm(buf, pos) == Ok(Binary(data), pos + |EncBinary(data)|)
  {
    Powers();
    hide Be;
    assert EncBinary(data) == [BINARY] + (Be(|data|, 4) + data);
    AtSplit(buf, pos, [BINARY], Be(|data|, 4) + data);
    ReadSizedAt(buf, pos + 1, 4, data);
    hide ReadSized;
  }

  lemma {:induction false} IdsRoundTrip(buf: bytes, pos: nat, ids: seq<uint32>)
    requires At(buf, pos, EncIds(ids))
    ensures ReadIds(buf, pos, |ids|) == Ok(ids, pos + |EncIds(ids)|)
    decreases |ids|
  {
    if ids != [] {
      AtSplit(buf, pos, Be(ids[0], 4), EncIds(ids[1..]));
      ReadU32At(buf, pos, ids[0]);
      IdsRoundTrip(buf, pos + 4, ids[1..]);
      assert [ids[0]] + ids[1..] == ids;
    }
  }

  lemma NodeRoundTrip(buf: bytes, pos: nat, name: bytes)
    requires EncAtom(name).Some? && At(buf, pos, EncAtom(name).value)
    ensures DecNode(buf, pos) == Ok(name, pos + |EncAtom(name).value|)
  {
    AtomRoundTrip(buf, pos, name);
  }

  // One step of the decoder per compound tag.

  lemma DecTuple(buf: bytes, pos: nat, n: nat, ts: seq<Term>, end: nat)
    requires At(buf, pos, TupleHeader(n)) && n < TWO_32
    requires DecTerms(buf, pos + |TupleHeader(n)|, n) == Ok(ts, end)
    ensures DecTerm(buf, pos) == Ok(Tuple(ts), end)
  {
    hide DecTerms, Be;
    AtByte(buf, pos, TupleHeader(n), 0);
    if n <= 255 {
      AtByte(buf, pos, TupleHeader(n), 1);
    } else {
      AtSplit(buf, pos, [LARGE_TUPLE], Be(n % TWO_32, 4));
      ReadU32At(buf, pos + 1, n);
      hide ReadU32;
    }
  }

  lemma DecList(buf: bytes, pos: nat, n: nat, ts: seq<Term>, end: nat)
    requires At(buf, pos, [LIST] + Be(n, 4)) && n < TWO_32
    requires DecTerms(buf, pos + 5, n) == Ok(ts, end) && At(buf, end, [NIL])
    ensures DecTerm(buf, pos) == Ok(List(ts), end + 1)
  {
    hide DecTerms, Be;
    AtSplit(buf, pos, [LIST], Be(n, 4));
    AtByte(buf, pos, [LIST], 0);
    ReadU32At(buf, pos + 1, n);
    hide ReadU32;
    AtByte(buf, end, [NIL], 0);
    assert DecTerm(buf, end) == Ok(List([]), end + 1);
    assert ts + [] == ts;
  }

  lemma DecPid(buf: bytes, pos: nat, node: bytes, id: uint32, serial: uint32, creation: uint32, q: nat)
    requires At(buf, pos, [NEW_PID]) && DecNode(buf, pos + 1) == Ok(node, q)
    requires ReadU32(buf, q) == Ok(id, q + 4) && ReadU32(buf, q + 4) == Ok(serial, q + 8)
             && ReadU32(buf, q + 8) == Ok(creation, q + 12)
    ensures DecTerm(buf, pos) == Ok(Pid(node, id, serial, creation), q + 12)
  {
    hide DecNode, ReadU32;
    AtByte(buf, pos, [NEW_PID], 0);
  }

  lemma DecPort(buf: bytes, pos: nat, node: bytes, id: uint32, creation: uint32, q: nat)
    requires At(buf, pos, [NEW_PORT]) && DecNode(buf, pos + 1) == Ok(node, q)
    requires ReadU32(buf, q) == Ok(id, q + 4) && ReadU32(buf, q + 4) == Ok(creation, q + 8)
    ensures DecTerm(buf, pos) == Ok(Port(node, id, creation), q + 8)
  {
    hide DecNode, ReadU32;
    AtByte(buf, pos, [NEW_PORT], 0);
  }

  lemma DecReference(buf: bytes, pos: nat, n: nat, node: bytes, creation: uint32, ids: seq<uint32>, q: nat, end: nat)
    requires At(buf, pos, [NEWER_REFERENCE]) && ReadBe(buf, pos + 1, 2) == Ok(n, pos + 3)
    requires DecNode(buf, pos + 3) == Ok(node, q) && ReadU32(buf, q) == Ok(creation, q + 4)
    requires ReadIds(buf, q + 4, n) == Ok(ids, end)
    ensures DecTerm(buf, pos) == Ok(Reference(node, creation, ids), end)
  {
    hide DecNode, ReadU32, ReadBe, ReadIds;
    AtByte(buf, pos, [NEWER_REFERENCE], 0);
  }

  /** Decoding an encoding, wherever it stands, gives the normalised term and stops exactly at its end. */
  lemma {:induction false} RoundTrip(buf: bytes, pos: nat, t: Term)
    requires EncTerm(t).Some? && InLimits(t) && At(buf, pos, EncTerm(t).value)
    ensures DecTerm(buf, pos) == Ok(Normal(t), pos + |EncTerm(t).value|)
    decreases t, 1
  {
    hide DecTerm, DecTerms, Be, At, TupleHeader, EncAtom, EncInt, EncBinary, EncIds;
    if t.Tuple? {
      AtSplit(buf, pos, TupleHeader(|t.elems|), EncAll(t.elems).value);
      RoundTripAll(buf, pos + |TupleHeader(|t.elems|)|, t.elems);
      DecTuple(buf, pos, |t.elems|, NormalAll(t.elems), pos + |EncTerm(t).value|);
    } else if t.List? && t.elems != [] {
      var body := EncAll(t.elems).value;
      ListParts(buf, pos, t.elems, body);
      RoundTripAll(buf, pos + 5, t.elems);
      DecList(buf, pos, |t.elems|, NormalAll(t.elems), pos + 5 + |body|);
    } else {
      LeafRoundTrip(buf, pos, t);
    }
  }

  lemma LeafRoundTrip(buf: bytes, pos: nat, t: Term)
    requires !t.Tuple? && (t.List? ==> t.elems == [])
    requires EncTerm(t).Some? && InLimits(t) && At(buf, pos, EncTerm(t).value)
    ensures DecTerm(buf, pos) == Ok(Normal(t), pos + |EncTerm(t).value|)
  {
    hide DecTerm, Be, EncInt, EncAtom, EncBinary, EncIds, At;
    match t
    case Bool(b) => AtomRoundTrip(buf, pos, if b then TrueName() else FalseName());
    case GoInt(i) => IntRoundTrip(buf, pos, i);
    case Int(i) => IntRoundTrip(buf, pos, i);
    case BigInt(_) =>
    case Float(bits) => FloatRoundTrip(buf, pos, bits);
    case Atom(name) => AtomRoundTrip(buf, pos, name);
    case Str(text) => BinaryRoundTrip(buf, pos, text);
    case Binary(data) => BinaryRoundTrip(buf, pos, data);
    case List(_) => NilRoundTrip(buf, pos);
    case Pid(_, _, _, _) => PidRoundTrip(buf, pos, t);
    case Port(_, _, _) => PortRoundTrip(buf, pos, t);
    case Reference(_, _, _) => ReferenceRoundTrip(buf, pos, t);
    case Nil => NilRoundTrip(buf, pos);
  }

  lemma ListParts(buf: bytes, pos: nat, elems: seq<Term>, body: bytes)
    requires 0 < |elems| < TWO_32 && EncAll(elems) == Some(body)
    requires At(buf, pos, EncTerm(List(elems)).value)
    ensures |EncTerm(List(elems)).value| == 6 + |body|
    ensures At(buf, pos, [LIST] + Be(|elems|, 4)) && At(buf, pos + 5, body) && At(buf, pos + 5 + |body|, [NIL])
  {
    hide At, EncAll, Be;
    var header := [LIST] + Be(|elems|, 4);
    AtSplit(buf, pos, header + body, [NIL]);
    AtSplit(buf, pos, header, body);
  }

  lemma {:induction false} RoundTripAll(buf: bytes, pos: nat, ts: seq<Term>)
    requires EncAll(ts).Some? && AllInLimits(ts) && At(buf, pos, EncAll(ts).value)
    ensures DecTerms(buf, pos, |ts|) == Ok(NormalAll(ts), pos + |EncAll(ts).value|)
    decreases ts, 0
  {
    hide DecTerm, EncTerm, Normal, InLimits, At;
    if ts != [] {
      var first, rest := EncTerm(ts[0]).value, EncAll(ts[1..]).value;
      AtSplit(buf, pos, first, rest);
      RoundTrip(buf, pos, ts[0]);
      RoundTripAll(buf, pos + |first|, ts[1..]);
      assert DecTerms(buf, pos + |first|, |ts| - 1) == Ok(NormalAll(ts[1..]), pos + |first| + |rest|);
    }
  }

  lemma NilRoundTrip(buf: bytes, pos: nat)
    requires At(buf, pos, [NIL])
    ensures DecTerm(buf, pos) == Ok(List([]), pos + 1)
  {
    AtByte(buf, pos, [NIL], 0);
  }

  lemma FloatRoundTrip(buf: bytes, pos: nat, bits: uint64)
    requires At(buf, pos, [NEW_FLOAT] + Be(bits, 8))
    ensures DecTerm(buf, pos) == Ok(Float(bits), pos + 9)
  {
    hide Be;
    AtSplit(buf, pos, [NEW_FLOAT], Be(bits, 8));
    AtByte(buf, pos, [NEW_FLOAT], 0);
    Powers();
    hide Pow256;
    ReadBeAt(buf, pos + 1, bits, 8);
    hide ReadBe;
  }

  lemma PidRoundTrip(buf: bytes, pos: nat, t: Term)
    requires t.Pid? && EncTerm(t).Some? && At(buf, pos, EncTerm(t).value)
    ensures DecTerm(buf, pos) == Ok(t, pos + |EncTerm(t).value|)
  {
    hide DecTerm, DecNode, Be, ReadU32, EncAtom, At;
    var name := EncAtom(t.node).value;
    var a, b, c := Be(t.id, 4), Be(t.serial, 4), Be(t.creation, 4);
    AtSplit(buf, pos, [NEW_PID] + name, a + b + c);
    AtSplit(buf, pos, [NEW_PID], name);
    NodeRoundTrip(buf, pos + 1, t.node);
    var q := pos + 1 + |name|;
    AtSplit(buf, q, a + b, c);
    AtSplit(buf, q, a, b);
    ReadU32At(buf, q, t.id);
    ReadU32At(buf, q + 4, t.serial);
    ReadU32At(buf, q + 8, t.creation);
    DecPid(buf, pos, t.node, t.id, t.serial, t.creation, q);
  }

  lemma PortRoundTrip(buf: bytes, pos: nat, t: Term)
    requires t.Port? && EncTerm(t).Some? && At(buf, pos, EncTerm(t).value)
    ensures DecTerm(buf, pos) == Ok(t, pos + |EncTerm(t).value|)
  {
    hide DecTerm, DecNode, Be, ReadU32, EncAtom, At;
    var name := EncAtom(t.node).value;
    var a, b := Be(t.id, 4), Be(t.creation, 4);
    AtSplit(buf, pos, [NEW_PORT] + name, a + b);
    AtSplit(buf, pos, [NEW_PORT], name);
    NodeRoundTrip(buf, pos + 1, t.node);
    var q := pos + 1 + |name|;
    AtSplit(buf, q, a, b);
    ReadU32At(buf, q, t.id);
    ReadU32At(buf, q + 4, t.creation);
    DecPort(buf, pos, t.node, t.id, t.creation, q);
  }

  lemma ReferenceRoundTrip(buf: bytes, pos: nat, t: Term)
    requires t.Reference? && |t.ids| < TWO_16 && EncTerm(t).Some? && At(buf, pos, EncTerm(t).value)
    ensures DecTerm(buf, pos) == Ok(t, pos + |EncTerm(t).value|)
  {
    Powers();
    hide DecTerm, DecNode, Be, ReadU32, EncAtom, At, ReadIds, EncIds, ReadBe, Pow256;
    var name := EncAtom(t.node).value;
    var n, c, ids := Be(|t.ids|, 2), Be(t.creation, 4), EncIds(t.ids);
    AtSplit(buf, pos, [NEWER_REFERENCE] + n + name, c + ids);
    AtSplit(buf, pos, [NEWER_REFERENCE] + n, name);
    AtSplit(buf, pos, [NEWER_REFERENCE], n);
    ReadBeAt(buf, pos + 1, |t.ids|, 2);
    NodeRoundTrip(buf, pos + 3, t.node);
    var q := pos + 3 + |name|;
    AtSplit(buf, q, c, ids);
    ReadU32At(buf, q, t.creation);
    IdsRoundTrip(buf, q + 4, t.ids);
    DecReference(buf, pos, |t.ids|, t.node, t.creation, t.ids, q, q + 4 + |ids|);
  }

  // ---- Consequences

  /** The top-level pair, with anything after the encoding left unread. */
  lemma EncodeDecode(t: Term, suffix: bytes)
    requires Encode(t).Some? && InLimits(t)
    ensures Decode(Encode(t).value + suffix) == Ok(Normal(t), |Encode(t).value|)
  {
    var e := EncTerm(t).value;
    var buf := Encode(t).value + suffix;
    assert buf[1..1+|e|] == e;
    RoundTrip(buf, 1, t);
    EncNonempty(t);
  }

  lemma EncNonempty(t: Term)
    requires EncTerm(t).Some?
    ensures EncTerm(t).value != []
  {
    hide Be, Le;
  }

  /** No encoding is a proper prefix of another, and equal encodings mean equal terms up to normalisation. */
  lemma PrefixFree(t: Term, u: Term, s: bytes, v: bytes)
    requires EncTerm(t).Some? && EncTerm(u).Some? && InLimits(t) && InLimits(u)
    requires EncTerm(t).value + s == EncTerm(u).value + v
    ensures Normal(t) == Normal(u) && EncTerm(t).value == EncTerm(u).value && s == v
  {
    var a, b := EncTerm(t).value, EncTerm(u).value;
    var buf := a + s;
    assert buf[0..|a|] == a && buf[0..|b|] == (b + v)[0..|b|] == b;
    RoundTrip(buf, 0, t);
    RoundTrip(buf, 0, u);
    assert s == buf[|a|..] && v == buf[|b|..];
  }

  // ---- Decoding arbitrary input

  ghost predicate Good(t: Term) { Normal(t) == t && InLimits(t) }

  ghost predicate AllGood(ts: seq<Term>) { NormalAll(ts) == ts && AllInLimits(ts) }

  lemma AllGoodCons(t: Term, ts: seq<Term>)
    requires Good(t) && AllGood(ts)
    ensures AllGood([t] + ts)
  {
    hide Normal, InLimits;
    var all := [t] + ts;
    assert all[0] == t && all[1..] == ts;
    assert NormalAll(all) == [Normal(all[0])] + NormalAll(all[1..]);
  }

  lemma {:induction false} AllGoodConcat(a: seq<Term>, b: seq<Term>)
    requires AllGood(a) && AllGood(b)
    ensures AllGood(a + b)
  {
    if a == [] {
      assert a + b == b;
    } else {
      AllGoodConcat(a[1..], b);
      AllGoodCons(a[0], a[1..] + b);
      assert a + b == [a[0]] + (a[1..] + b);
    }
  }

  lemma {:induction false} AllGoodInts(ts: seq<Term>)
    requires forall t :: t in ts ==> t.Int?
    ensures AllGood(ts)
  {
    if ts != [] {
      assert ts[0] in ts && Good(ts[0]);
      AllGoodInts(ts[1..]);
      AllGoodCons(ts[0], ts[1..]);
      assert ts == [ts[0]] + ts[1..];
    }
  }

  /** How much of the input the length of a value accounts for. */
  function Extent(t: Term): nat {
    match t
    case Tuple(elems) => |elems|
    case List(elems) => |elems|
    case Binary(data) => |data|
    case _ => 0
  }

  /** Whatever is decoded is already normal and within the format's limits. */
  lemma {:induction false} DecodedGood(buf: bytes, pos: nat)
    requires |buf| < TWO_32 && DecTerm(buf, pos).Ok?
    ensures Good(DecTerm(buf, pos).value)
    ensures Extent(DecTerm(buf, pos).value) <= DecTerm(buf, pos).next - pos
    decreases |buf| - pos, 0
  {
    hide ReadBe, ReadU32, ReadSized, ReadBig, Latin1, DecTerms, TupleAt, ListAt, PidAt, PortAt, OldReferenceAt,
        ReferenceAt;
    var tag := buf[pos];
    if tag == SMALL_TUPLE || tag == LARGE_TUPLE {
      DecodedTuple(buf, pos);
    } else if tag == LIST {
      DecodedList(buf, pos);
    } else if tag == STRING {
      AllGoodInts(DecTerm(buf, pos).value.elems);
    }
  }

  lemma {:induction false} DecodedTuple(buf: bytes, pos: nat)
    requires |buf| < TWO_32 && DecTerm(buf, pos).Ok? && buf[pos] in {SMALL_TUPLE, LARGE_TUPLE}
    ensures Good(DecTerm(buf, pos).value)
    ensures Extent(DecTerm(buf, pos).value) <= DecTerm(buf, pos).next - pos
    decreases |buf| - pos, 0, 0
  {
    hide ReadU32, DecTerms;
    if buf[pos] == SMALL_TUPLE {
      DecodedAllGood(buf, pos + 2, buf[pos + 1]);
    } else {
      DecodedAllGood(buf, pos + 5, ReadU32(buf, pos + 1).value);
    }
  }

  lemma {:induction false} DecodedList(buf: bytes, pos: nat)
    requires |buf| < TWO_32 && DecTerm(buf, pos).Ok? && buf[pos] == LIST
    ensures Good(DecTerm(buf, pos).value)
    ensures Extent(DecTerm(buf, pos).value) <= DecTerm(buf, pos).next - pos
    decreases |buf| - pos, 0, 0
  {
    hide ReadU32, DecTerms;
    var n := ReadU32(buf, pos + 1).value;
    var front := DecTerms(buf, pos + 5, n);
    DecodedAllGood(buf, pos + 5, n);
    DecodedGood(buf, front.next);
    var tail := DecTerm(buf, front.next).value;
    var rest := if tail.List? then tail.elems else [tail];
    hide Good, AllGood;
    GoodTail(tail);
    AllGoodConcat(front.value, rest);
    ListGood(front.value + rest);
  }

  lemma GoodTail(tail: Term)
    requires Good(tail)
    ensures AllGood(if tail.List? then tail.elems else [tail])
  {
    if !tail.List? {
      AllGoodCons(tail, []);
      assert [tail] + [] == [tail];
    }
  }

  lemma ListGood(ts: seq<Term>)
    requires AllGood(ts) && |ts| < TWO_32
    ensures Good(List(ts))
  {}

  lemma {:induction false} DecodedAllGood(buf: bytes, pos: nat, n: nat)
    requires |buf| < TWO_32 && DecTerms(buf, pos, n).Ok?
    ensures AllGood(DecTerms(buf, pos, n).value)
    decreases |buf| - pos, 1
  {
    hide DecTerm;
    if n > 0 {
      var first := DecTerm(buf, pos);
      DecodedGood(buf, pos);
      DecodedAllGood(buf, first.next, n - 1);
      AllGoodCons(first.value, DecTerms(buf, first.next, n - 1).value);
    }
  }

  // ---- What can be encoded

  function Subterms(t: Term): set<Term>
    decreases t, 1
  {
    {t} + match t
      case Tuple(elems) => SubtermsAll(elems)
      case List(elems) => SubtermsAll(elems)
      case _ => {}
  }

  function SubtermsAll(ts: seq<Term>): set<Term>
    decreases ts, 0
  {
    if ts == [] then {} else Subterms(ts[0]) + SubtermsAll(ts[1..])
  }

  /** A big integer has no encoding, nor has a name of more than 65535 bytes; a Latin-1 atom can
      grow past that when it is decoded. */
  predicate Writable(t: Term) {
    match t
    case BigInt(_) => false
    case Atom(name) => |name| <= 65535
    case Pid(node, _, _, _) => |node| <= 65535
    case Port(node, _, _) => |node| <= 65535
    case Reference(node, _, _) => |node| <= 65535
    case _ => true
  }

  lemma {:induction false} EncodesExactly(t: Term)
    ensures EncTerm(t).Some? <==> forall s :: s in Subterms(t) ==> Writable(s)
    decreases t, 1
  {
    hide Be, EncInt, EncBinary, EncIds;
    assert t in Subterms(t);
    match t
    case Tuple(elems) =>
      EncodesAllExactly(elems);
      assert Subterms(t) == {t} + SubtermsAll(elems);
    case List(elems) =>
      EncodesAllExactly(elems);
      assert Subterms(t) == {t} + SubtermsAll(elems);
      assert elems == [] ==> SubtermsAll(elems) == {};
    case _ => LeafEncodes(t);
  }

  lemma LeafEncodes(t: Term)
    requires !t.Tuple? && !t.List?
    ensures EncTerm(t).Some? <==> forall s :: s in Subterms(t) ==> Writable(s)
  {
    assert Subterms(t) == {t} && t in Subterms(t);
    if t.BigInt? {
      assert !Writable(t);
    } else if t.Pid? || t.Port? || t.Reference? {
      assert EncTerm(t).Some? <==> EncAtom(t.node).Some?;
    }
  }

  lemma {:induction false} EncodesAllExactly(ts: seq<Term>)
    ensures EncAll(ts).Some? <==> forall s :: s in SubtermsAll(ts) ==> Writable(s)
    decreases ts, 0
  {
    hide EncTerm, Subterms;
    if ts != [] {
      EncodesExactly(ts[0]);
      EncodesAllExactly(ts[1..]);
    }
  }

  /** A decoded value encodes again exactly when all its parts are writable, and decoding that
      gives the same value. */
  lemma DecodeEncodeDecode(buf: bytes)
    requires |buf| < TWO_32 && Decode(buf).Ok?
    ensures Encode(Decode(buf).value).Some? <==> forall s :: s in Subterms(Decode(buf).value) ==> Writable(s)
    ensures Encode(Decode(buf).value).Some? ==>
              var again := Encode(Decode(buf).value).value;
              Decode(again) == Ok(Decode(buf).value, |again|)
  {
    var t := Decode(buf).value;
    EncodesExactly(t);
    DecodedGood(buf, 1);
    hide DecTerm, EncTerm, Subterms;
    if Encode(t).Some? {
      EncodeDecode(t, []);
      assert Encode(t).value + [] == Encode(t).value;
    }
  }
}
