/** The codec as it runs: a read cursor over a byte slice, and a buffer that grows.
    Every routine is proved to compute what module Etf says. */
module EtfCode {
  import opened Options
  import opened Etf

  datatype Result<T> = Value(value: T) | Error(error: Etf.Error)

  /** A routine that ended at `pos` did what `spec` says. */
  ghost predicate Agrees<T>(r: Result<T>, pos: nat, spec: Read<T>) {
    match spec
    case Ok(value, next) => r == Value(value) && pos == next
    case Fail(error) => r == Error(error)
  }

  function Reverse(b: bytes): (r: bytes)
    ensures |r| == |b|
  {
    if b == [] then [] else Reverse(b[1..]) + [b[0]]
  }

  lemma {:induction false} ReverseAt(b: bytes, k: nat)
    requires k < |b|
    ensures Reverse(b)[k] == b[|b| - 1 - k]
  {
    if k < |b| - 1 { ReverseAt(b[1..], k); }
  }

  /** Reading the reversed digits big-endian reads the digits little-endian. */
  lemma {:induction false} FromBeReverse(b: bytes)
    ensures FromBe(Reverse(b)) == FromLe(b)
  {
    if b != [] {
      FromBeReverse(b[1..]);
      assert Reverse(b)[..|b|-1] == Reverse(b[1..]);
    }
  }

  lemma {:induction false} DecTermsPrepend(buf: bytes, pos: nat, n: nat, done: seq<Term>)
    requires n > 0
    ensures DecTerm(buf, pos).Ok? ==>
              Prepend(done, DecTerms(buf, pos, n)) ==
                  Prepend(done + [DecTerm(buf, pos).value], DecTerms(buf, DecTerm(buf, pos).next, n - 1))
    ensures DecTerm(buf, pos).Fail? ==> Prepend(done, DecTerms(buf, pos, n)) == Fail(DecTerm(buf, pos).error)
  {
    hide DecTerm;
    var first := DecTerm(buf, pos);
    if first.Ok? {
      var rest := DecTerms(buf, first.next, n - 1);
      if rest.Ok? { assert done + ([first.value] + rest.value) == (done + [first.value]) + rest.value; }
    }
  }

  function Prepend<T>(done: seq<T>, r: Read<seq<T>>): Read<seq<T>> {
    match r
    case Ok(ts, next) => Ok(done + ts, next)
    case Fail(e) => Fail(e)
  }

  lemma PrependNothing<T>(r: Read<seq<T>>)
    ensures Prepend([], r) == r
  {
    if r.Ok? { assert [] + r.value == r.value; }
  }

  lemma {:induction false} ReadIdsPrepend(buf: bytes, pos: nat, n: nat, done: seq<uint32>)
    requires n > 0
    ensures ReadU32(buf, pos).Ok? ==>
              Prepend(done, ReadIds(buf, pos, n)) ==
                  Prepend(done + [ReadU32(buf, pos).value], ReadIds(buf, pos + 4, n - 1))
    ensures ReadU32(buf, pos).Fail? ==> Prepend(done, ReadIds(buf, pos, n)) == Fail(ReadU32(buf, pos).error)
  {
    hide ReadU32;
    var first := ReadU32(buf, pos);
    if first.Ok? {
      var rest := ReadIds(buf, pos + 4, n - 1);
      if rest.Ok? { assert done + ([first.value] + rest.value) == (done + [first.value]) + rest.value; }
    }
  }

  class Decoder {
    const buf: bytes
    var pos: nat

    constructor (buf: bytes, pos: nat)
      requires pos <= |buf|
      ensures this.buf == buf && this.pos == pos
    {
      this.buf, this.pos := buf, pos;
    }

    method Byte() returns (r: Result<byte>)
      requires pos <= |buf|
      modifies this
      ensures old(pos) <= pos <= |buf| && Agrees(r, pos, ReadByte(buf, old(pos)))
    {
      if pos >= |buf| { return Error(Eof); }
      r := Value(buf[pos]);
      pos := pos + 1;
    }

    method Bytes(n: nat) returns (r: Result<bytes>)
      requires pos <= |buf|
      modifies this
      ensures old(pos) <= pos <= |buf| && Agrees(r, pos, ReadBytes(buf, old(pos), n))
    {
      if pos + n > |buf| { return Error(Eof); }
      r := Value(buf[pos..pos+n]);
      pos := pos + n;
    }

    /** A big-endian number of `k` bytes: Uint16, Uint32 and Uint64. */
    method Unsigned(k: nat) returns (r: Result<nat>)
      requires pos <= |buf|
      modifies this
      ensures old(pos) <= pos <= |buf| && Agrees(r, pos, ReadBe(buf, old(pos), k))
    {
      var b := Bytes(k);
      if b.Error? { return Error(b.error); }
      r := Value(FromBe(b.value));
    }

    method Uint32() returns (r: Result<uint32>)
      requires pos <= |buf|
      modifies this
      ensures old(pos) <= pos <= |buf| && Agrees(r, pos, ReadU32(buf, old(pos)))
    {
      Powers();
      var n := Unsigned(4);
      if n.Error? { return Error(n.error); }
      r := Value(n.value);
    }

    /** A length of one byte (small), two or four bytes, then that many bytes. */
    method Sized(k: nat) returns (r: Result<bytes>)
      requires pos <= |buf|
      modifies this
      ensures old(pos) <= pos <= |buf| && Agrees(r, pos, ReadSized(buf, old(pos), k))
    {
      hide ReadBe, ReadBytes;
      var n := Unsigned(k);
      if n.Error? { return Error(n.error); }
      r := Bytes(n.value);
    }

    method AtomLatin1(small: bool) returns (r: Result<Term>)
      requires pos <= |buf|
      modifies this
      ensures old(pos) <= pos <= |buf|
      ensures var spec := ReadSized(buf, old(pos), if small then 1 else 2);
              Agrees(r, pos, if spec.Ok? then Ok(Atom(Latin1(spec.value)), spec.next) else Fail(spec.error))
    {
      hide ReadSized;
      var b := Sized(if small then 1 else 2);
      if b.Error? { return Error(b.error); }
      var name, i := [], 0;
      while i < |b.value|
        invariant 0 <= i <= |b.value|
        invariant name == Latin1(b.value[..i])
      {
        assert b.value[..i+1][..i] == b.value[..i];
        name := name + Rune(b.value[i]);
        i := i + 1;
      }
      assert b.value[..|b.value|] == b.value;
      r := Value(Atom(name));
    }

    method StringExt() returns (r: Result<Term>)
      requires pos <= |buf|
      modifies this
      ensures old(pos) <= pos <= |buf|
      ensures var spec := ReadSized(buf, old(pos), 2);
              Agrees(r, pos, if spec.Ok? then Ok(List(Chars(spec.value)), spec.next) else Fail(spec.error))
    {
      hide ReadSized;
      var b := Sized(2);
      if b.Error? { return Error(b.error); }
      var elems, i := [], 0;
      while i < |b.value|
        invariant 0 <= i <= |b.value|
        invariant elems == Chars(b.value)[..i]
      {
        elems := elems + [Int(b.value[i])];
        i := i + 1;
      }
      assert Chars(b.value)[..|b.value|] == Chars(b.value);
      r := Value(List(elems));
    }

    method BigInt(n: nat) returns (r: Result<Term>)
      requires pos <= |buf|
      modifies this
      ensures old(pos) <= pos <= |buf| && Agrees(r, pos, ReadBig(buf, old(pos), n))
    {
      var sign := Byte();
      if sign.Error? { return Error(sign.error); }
      var digits := Bytes(n);
      if digits.Error? { return Error(digits.error); }
      var rev := new byte[n];
      var i := 0;
      while i < n
        invariant 0 <= i <= n && fresh(rev)
        invariant forall j :: n - i <= j < n ==> rev[j] == digits.value[n - 1 - j]
        modifies rev
      {
        rev[n - 1 - i] := digits.value[i];
        i := i + 1;
      }
      assert rev[..] == Reverse(digits.value) by {
        forall k | 0 <= k < n ensures rev[k] == Reverse(digits.value)[k] { ReverseAt(digits.value, k); }
      }
      FromBeReverse(digits.value);
      var v: int := FromBe(rev[..]);
      if sign.value != 0 { v := -v; }
      r := Value(if -TWO_63 <= v < TWO_63 then Int(v) else Term.BigInt(v));
    }

    method Creation(wide: bool) returns (r: Result<uint32>)
      requires pos <= |buf|
      modifies this
      ensures old(pos) <= pos <= |buf| && Agrees(r, pos, ReadCreation(buf, old(pos), wide))
    {
      hide ReadU32;
      if wide {
        r := Uint32();
      } else {
        var b := Byte();
        r := if b.Error? then Error(b.error) else Value(b.value);
      }
    }

    method Ids(n: nat) returns (r: Result<seq<uint32>>)
      requires pos <= |buf|
      modifies this
      ensures old(pos) <= pos <= |buf| && Agrees(r, pos, ReadIds(buf, old(pos), n))
    {
      hide ReadU32;
      var ids: seq<uint32>, i := [], 0;
      PrependNothing(ReadIds(buf, pos, n));
      while i < n
        invariant 0 <= i <= n && old(pos) <= pos <= |buf|
        invariant ReadIds(buf, old(pos), n) == Prepend(ids, ReadIds(buf, pos, n - i))
      {
        ReadIdsPrepend(buf, pos, n - i, ids);
        var id := Uint32();
        if id.Error? { return Error(id.error); }
        ids := ids + [id.value];
        i := i + 1;
      }
      assert ids + [] == ids;
      r := Value(ids);
    }

    // ---- Recursive routines

    method Node() returns (r: Result<bytes>)
      requires pos <= |buf|
      modifies this
      ensures old(pos) <= pos <= |buf| && Agrees(r, pos, DecNode(buf, old(pos)))
      decreases |buf| - pos, 1
    {
      hide DecTerm;
      var t := DecodeTerm();
      if t.Error? { return Error(t.error); }
      if !t.value.Atom? { return Error(NodeNotAtom); }
      r := Value(t.value.name);
    }

    /** Fills a tuple or the front of a list. */
    method Terms(n: nat) returns (r: Result<seq<Term>>)
      requires pos <= |buf|
      modifies this
      ensures old(pos) <= pos <= |buf| && Agrees(r, pos, DecTerms(buf, old(pos), n))
      decreases |buf| - pos, 1
    {
      hide DecTerm;
      var elems: seq<Term>, i := [], 0;
      PrependNothing(DecTerms(buf, pos, n));
      while i < n
        invariant 0 <= i <= n && old(pos) <= pos <= |buf|
        invariant DecTerms(buf, old(pos), n) == Prepend(elems, DecTerms(buf, pos, n - i))
        decreases n - i
      {
        DecTermsPrepend(buf, pos, n - i, elems);
        var t := DecodeTerm();
        if t.Error? { return Error(t.error); }
        elems := elems + [t.value];
        i := i + 1;
      }
      assert elems + [] == elems;
      r := Value(elems);
    }

    method ListTerm() returns (r: Result<Term>)
      requires pos <= |buf|
      modifies this
      ensures old(pos) <= pos <= |buf| && Agrees(r, pos, ListAt(buf, old(pos)))
      decreases |buf| - pos, 2
    {
      hide DecTerm, DecTerms, ReadU32;
      var n := Uint32();
      if n.Error? { return Error(n.error); }
      var elems := Terms(n.value);
      if elems.Error? { return Error(elems.error); }
      var tail := DecodeTerm();
      if tail.Error? { return Error(tail.error); }
      if tail.value.List? && |tail.value.elems| > 0 {
        return Value(List(elems.value + tail.value.elems));
      } else if !tail.value.List? {
        return Value(List(elems.value + [tail.value]));
      }
      assert tail.value.elems == [] && elems.value + [] == elems.value;
      r := Value(List(elems.value));
    }

    method PidTerm(isNew: bool) returns (r: Result<Term>)
      requires pos <= |buf|
      modifies this
      ensures old(pos) <= pos <= |buf| && Agrees(r, pos, PidAt(buf, old(pos), isNew))
      decreases |buf| - pos, 2
    {
      hide DecNode, ReadU32, ReadCreation;
      var node := Node();
      if node.Error? { return Error(node.error); }
      var id := Uint32();
      if id.Error? { return Error(id.error); }
      var serial := Uint32();
      if serial.Error? { return Error(serial.error); }
      var creation := Creation(isNew);
      if creation.Error? { return Error(creation.error); }
      r := Value(Pid(node.value, id.value, serial.value, creation.value));
    }

    method PortTerm(isNew: bool) returns (r: Result<Term>)
      requires pos <= |buf|
      modifies this
      ensures old(pos) <= pos <= |buf| && Agrees(r, pos, PortAt(buf, old(pos), isNew))
      decreases |buf| - pos, 2
    {
      hide DecNode, ReadU32, ReadCreation;
      var node := Node();
      if node.Error? { return Error(node.error); }
      var id := Uint32();
      if id.Error? { return Error(id.error); }
      var creation := Creation(isNew);
      if creation.Error? { return Error(creation.error); }
      r := Value(Port(node.value, id.value, creation.value));
    }

    method ReferenceOld() returns (r: Result<Term>)
      requires pos <= |buf|
      modifies this
      ensures old(pos) <= pos <= |buf| && Agrees(r, pos, OldReferenceAt(buf, old(pos)))
      decreases |buf| - pos, 2
    {
      hide DecNode, ReadU32;
      var node := Node();
      if node.Error? { return Error(node.error); }
      var id := Uint32();
      if id.Error? { return Error(id.error); }
      var creation := Byte();
      if creation.Error? { return Error(creation.error); }
      r := Value(Reference(node.value, creation.value, [id.value]));
    }

    method NewReference(newer: bool) returns (r: Result<Term>)
      requires pos <= |buf|
      modifies this
      ensures old(pos) <= pos <= |buf| && Agrees(r, pos, ReferenceAt(buf, old(pos), newer))
      decreases |buf| - pos, 2
    {
      hide DecNode, ReadBe, ReadCreation, ReadIds;
      var n := Unsigned(2);
      if n.Error? { return Error(n.error); }
      var node := Node();
      if node.Error? { return Error(node.error); }
      var creation := Creation(newer);
      if creation.Error? { return Error(creation.error); }
      var ids := Ids(n.value);
      if ids.Error? { return Error(ids.error); }
      r := Value(Reference(node.value, creation.value, ids.value));
    }

    method TupleTerm(n: nat) returns (r: Result<Term>)
      requires pos <= |buf|
      modifies this
      ensures old(pos) <= pos <= |buf| && Agrees(r, pos, TupleAt(buf, old(pos), n))
      decreases |buf| - pos, 2
    {
      hide DecTerms;
      var elems := Terms(n);
      r := if elems.Error? then Error(elems.error) else Value(Tuple(elems.value));
    }

    /** Fixed-size and length-prefixed terms, dispatched by a tag already read. */
    method Flat(tag: byte) returns (r: Result<Term>)
      requires 0 < pos <= |buf| && buf[pos - 1] == tag
      requires tag in {NEW_FLOAT, SMALL_INTEGER, INTEGER, ATOM, SMALL_ATOM, ATOM_UTF8, SMALL_ATOM_UTF8, NIL, STRING,
                       BINARY, SMALL_BIG, LARGE_BIG}
      modifies this
      ensures old(pos) <= pos <= |buf| && Agrees(r, pos, DecTerm(buf, old(pos) - 1))
    {
      hide ReadBe, ReadU32, ReadSized, ReadBig, Latin1;
      if tag == NEW_FLOAT {
        var n := Unsigned(8);
        r := if n.Error? then Error(n.error) else (Powers(); Value(Float(n.value)));
      } else if tag == SMALL_INTEGER {
        var b := Byte();
        r := if b.Error? then Error(b.error) else Value(Int(b.value));
      } else if tag == INTEGER {
        var n := Uint32();
        r := if n.Error? then Error(n.error) else Value(Int(Signed32(n.value)));
      } else if tag == ATOM || tag == SMALL_ATOM {
        r := AtomLatin1(tag == SMALL_ATOM);
      } else if tag == ATOM_UTF8 || tag == SMALL_ATOM_UTF8 {
        var b := Sized(if tag == SMALL_ATOM_UTF8 then 1 else 2);
        r := if b.Error? then Error(b.error) else Value(Atom(b.value));
      } else if tag == NIL {
        r := Value(List([]));
      } else if tag == STRING {
        r := StringExt();
      } else if tag == BINARY {
        var b := Sized(4);
        r := if b.Error? then Error(b.error) else Value(Binary(b.value));
      } else if tag == SMALL_BIG {
        var n := Byte();
        if n.Error? { return Error(n.error); }
        r := BigInt(n.value);
      } else {
        var n := Uint32();
        if n.Error? { return Error(n.error); }
        r := BigInt(n.value);
      }
    }

    /** One term: for every input this ends, stays inside the buffer and never moves back. */
    method DecodeTerm() returns (r: Result<Term>)
      requires pos <= |buf|
      modifies this
      ensures old(pos) <= pos <= |buf| && Agrees(r, pos, DecTerm(buf, old(pos)))
      decreases |buf| - pos, 0
    {
      hide ReadBe, ReadU32, ReadSized, ReadBig, Latin1, TupleAt, ListAt, PidAt, PortAt, OldReferenceAt, ReferenceAt;
      var start := pos;
      var t := Byte();
      if t.Error? { return Error(t.error); }
      var tag := t.value;
      if tag == COMPRESSED { return Error(Deflated); }
      if tag == SMALL_TUPLE {
        var n := Byte();
        if n.Error? { return Error(n.error); }
        r := TupleTerm(n.value);
      } else if tag == LARGE_TUPLE {
        var n := Uint32();
        if n.Error? { return Error(n.error); }
        r := TupleTerm(n.value);
      } else if tag == LIST {
        r := ListTerm();
      } else if tag == PID || tag == NEW_PID {
        r := PidTerm(tag == NEW_PID);
      } else if tag == PORT || tag == NEW_PORT {
        r := PortTerm(tag == NEW_PORT);
      } else if tag == REFERENCE {
        r := ReferenceOld();
      } else if tag == NEW_REFERENCE || tag == NEWER_REFERENCE {
        r := NewReference(tag == NEWER_REFERENCE);
      } else if tag in {NEW_FLOAT, SMALL_INTEGER, INTEGER, ATOM, SMALL_ATOM, ATOM_UTF8, SMALL_ATOM_UTF8, NIL, STRING,
                        BINARY, SMALL_BIG, LARGE_BIG} {
        r := Flat(tag);
      } else {
        r := Error(UnsupportedTag(tag, start));
      }
    }
  }

  method DecodeBytes(data: bytes) returns (r: Result<Term>)
    ensures r == (match Decode(data) case Ok(t, _) => Value(t) case Fail(e) => Error(e))
  {
    if |data| < 2 { return Error(TooShort); }
    if data[0] != MAGIC { return Error(BadMagic); }
    var d := new Decoder(data, 1);
    r := d.DecodeTerm();
  }

  // ---- The encoder

  /** On success the buffer has grown by exactly the encoding; on failure there is none. */
  ghost predicate Wrote(before: bytes, after: bytes, ok: bool, spec: Option<bytes>) {
    (ok <==> spec.Some?) && (ok ==> after == before + spec.value)
  }

  lemma {:induction false} EncAllSnoc(ts: seq<Term>, n: nat)
    requires n < |ts|
    ensures EncAll(ts[..n+1]) == Append(EncAll(ts[..n]), EncTerm(ts[n]))
    decreases n
  {
    hide EncTerm;
    if n == 0 {
      assert ts[..1] == [ts[0]] && [ts[0]][1..] == [] && ts[..0] == [];
      var e := EncTerm(ts[0]);
      if e.Some? { assert e.value + [] == e.value && [] + e.value == e.value; }
    } else {
      EncAllSnoc(ts[1..], n - 1);
      assert ts[..n+1][1..] == ts[1..][..n] && ts[..n][1..] == ts[1..][..n-1];
      AppendAssociative(EncTerm(ts[0]), EncAll(ts[1..][..n-1]), EncTerm(ts[n]));
    }
  }

  lemma AppendAssociative(a: Option<bytes>, b: Option<bytes>, c: Option<bytes>)
    ensures Append(a, Append(b, c)) == Append(Append(a, b), c)
  {
    if a.Some? && b.Some? && c.Some? {
      assert a.value + (b.value + c.value) == (a.value + b.value) + c.value;
    }
  }

  lemma {:induction false} EncIdsSnoc(ids: seq<uint32>, n: nat)
    requires n < |ids|
    ensures EncIds(ids[..n+1]) == EncIds(ids[..n]) + Be(ids[n], 4)
    decreases n
  {
    hide Be;
    if n == 0 {
      assert ids[..1] == [ids[0]] && [ids[0]][1..] == [] && ids[..0] == [];
    } else {
      EncIdsSnoc(ids[1..], n - 1);
      assert ids[..n+1][1..] == ids[1..][..n] && ids[..n][1..] == ids[1..][..n-1];
    }
  }

  /** All of the elements encode only if every prefix does. */
  lemma {:induction false} EncAllPrefix(ts: seq<Term>, n: nat)
    requires n <= |ts| && EncAll(ts[..n]).None?
    ensures EncAll(ts).None?
    decreases |ts| - n
  {
    if n == |ts| {
      assert ts[..n] == ts;
    } else {
      EncAllSnoc(ts, n);
      EncAllPrefix(ts, n + 1);
    }
  }

  /** The little-endian digits of a number, lowest byte first. */
  method Digits(n: nat) returns (digits: bytes)
    ensures digits == Le(n)
  {
    var abs := n;
    digits := [];
    while abs > 0
      invariant digits + Le(abs) == Le(n)
    {
      assert digits + ([abs % 256] + Le(abs / 256)) == (digits + [abs % 256]) + Le(abs / 256);
      digits := digits + [abs % 256];
      abs := abs / 256;
    }
    assert digits + [] == digits;
  }

  class Buffer {
    var data: bytes

    constructor ()
      ensures data == []
    {
      data := [];
    }

    method Write(b: bytes)
      modifies this
      ensures data == old(data) + b
    {
      data := data + b;
    }

    method PutInt(v: int64)
      modifies this
      ensures data == old(data) + EncInt(v)
    {
      hide Be, Le;
      if 0 <= v <= 255 {
        Write([SMALL_INTEGER, v]);
      } else if -2147483648 <= v <= 2147483647 {
        Write([INTEGER]);
        Write(Be(v % TWO_32, 4));
        assert old(data) + [INTEGER] + Be(v % TWO_32, 4) == old(data) + ([INTEGER] + Be(v % TWO_32, 4));
      } else {
        var sign: byte := if v < 0 then 1 else 0;
        var digits := Digits(Magnitude(v));
        Write([SMALL_BIG, |digits| % 256]);
        Write([sign]);
        Write(digits);
        assert old(data) + [SMALL_BIG, |digits| % 256] + [sign] + digits ==
            old(data) + ([SMALL_BIG, |digits| % 256, sign] + digits);
      }
    }

    method PutAtom(name: bytes) returns (ok: bool)
      modifies this
      ensures Wrote(old(data), data, ok, EncAtom(name))
    {
      hide Be;
      if |name| > 65535 { return false; }
      if |name| <= 255 {
        Write([SMALL_ATOM_UTF8, |name|]);
      } else {
        Write([ATOM_UTF8] + Be(|name|, 2));
      }
      Write(name);
      assert data == old(data) + EncAtom(name).value;
      return true;
    }

    method PutBinary(b: bytes)
      modifies this
      ensures data == old(data) + EncBinary(b)
    {
      hide Be;
      Write([BINARY] + Be(|b| % TWO_32, 4));
      Write(b);
      assert data == old(data) + EncBinary(b);
    }

    method PutAll(ts: seq<Term>) returns (ok: bool)
      modifies this
      ensures Wrote(old(data), data, ok, EncAll(ts))
      decreases ts, 0
    {
      hide EncTerm;
      var i := 0;
      while i < |ts|
        invariant 0 <= i <= |ts|
        invariant Wrote(old(data), data, true, EncAll(ts[..i]))
      {
        EncAllSnoc(ts, i);
        ok := PutTerm(ts[i]);
        if !ok {
          EncAllPrefix(ts, i + 1);
          return;
        }
        assert data == old(data) + EncAll(ts[..i+1]).value;
        i := i + 1;
      }
      assert ts[..|ts|] == ts;
      return true;
    }

    method PutIds(ids: seq<uint32>)
      modifies this
      ensures data == old(data) + EncIds(ids)
    {
      hide Be;
      var i := 0;
      while i < |ids|
        invariant 0 <= i <= |ids|
        invariant data == old(data) + EncIds(ids[..i])
      {
        EncIdsSnoc(ids, i);
        Write(Be(ids[i], 4));
        i := i + 1;
      }
      assert ids[..|ids|] == ids;
    }

    /** Pids, ports and references: a header, the node name, the numbers. */
    method PutIdentifier(header: bytes, node: bytes, tail: bytes) returns (ok: bool)
      modifies this
      ensures Wrote(old(data), data, ok, Append(Append(Some(header), EncAtom(node)), Some(tail)))
    {
      hide EncAtom;
      Write(header);
      ok := PutAtom(node);
      if !ok { return; }
      Write(tail);
      assert data == old(data) + Append(Append(Some(header), EncAtom(node)), Some(tail)).value;
    }

    method PutTerm(t: Term) returns (ok: bool)
      modifies this
      ensures Wrote(old(data), data, ok, EncTerm(t))
      decreases t, 1
    {
      hide Be, EncAll, EncAtom, EncInt, EncBinary, EncIds;
      match t
      case Bool(b) => ok := PutAtom(if b then TrueName() else FalseName());
      case GoInt(i) => PutInt(i); ok := true;
      case Int(i) => PutInt(i); ok := true;
      case BigInt(_) => ok := false;
      case Float(bits) => Write([NEW_FLOAT] + Be(bits, 8)); ok := true;
      case Atom(name) => ok := PutAtom(name);
      case Str(text) => PutBinary(text); ok := true;
      case Binary(b) => PutBinary(b); ok := true;
      case Tuple(elems) =>
        Write(TupleHeader(|elems|));
        ok := PutAll(elems);
        if ok { assert data == old(data) + EncTerm(t).value; }
      case List(elems) =>
        if |elems| == 0 {
          Write([NIL]);
          return true;
        }
        Write([LIST] + Be(|elems| % TWO_32, 4));
        ok := PutAll(elems);
        if ok {
          Write([NIL]);
          assert data == old(data) + EncTerm(t).value;
        }
      case Pid(node, id, serial, creation) =>
        ok := PutIdentifier([NEW_PID], node, Be(id, 4) + Be(serial, 4) + Be(creation, 4));
      case Port(node, id, creation) =>
        ok := PutIdentifier([NEW_PORT], node, Be(id, 4) + Be(creation, 4));
      case Reference(node, creation, ids) =>
        ok := PutIdentifier([NEWER_REFERENCE] + Be(|ids| % TWO_16, 2), node, Be(creation, 4));
        if ok {
          PutIds(ids);
          assert data == old(data) + EncTerm(t).value;
        }
      case Nil => Write([NIL]); ok := true;
    }
  }

  method EncodeTerm(t: Term) returns (r: Option<bytes>)
    ensures r == Encode(t)
  {
    var b := new Buffer();
    b.Write([MAGIC]);
    var ok := b.PutTerm(t);
    assert [] + [MAGIC] == [MAGIC];
    r := if ok then Some(b.data) else None;
  }
}
