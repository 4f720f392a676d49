/** The format as a grammar on the bytes themselves, with the tag numbers written out: which bytes
    stand for which value.  The decoder returns exactly what the grammar says. */
module EtfFormat {
  import opened Options
  import opened Etf

  // ---- Fields

  function Octet(buf: bytes, pos: nat): nat
    requires pos < |buf|
  {
    buf[pos]
  }

  /** Two and four bytes, most significant first. */
  function Half(buf: bytes, pos: nat): nat
    requires pos + 2 <= |buf|
  {
    Octet(buf, pos) * 0x100 + buf[pos + 1]
  }

  function Word(buf: bytes, pos: nat): uint32
    requires pos + 4 <= |buf|
  {
    Octet(buf, pos) * 0x100_0000 + Octet(buf, pos + 1) * 0x1_0000 + Octet(buf, pos + 2) * 0x100 + buf[pos + 3]
  }

  /** The digits of a big integer, least significant first: the sum of d[i] * 256^i. */
  ghost function Weighted(d: bytes): nat {
    if d == [] then 0 else Weighted(d[..|d| - 1]) + d[|d| - 1] * Pow256(|d| - 1)
  }

  /** `text` is the UTF-8 form of the code points `codes`, all below 256. */
  ghost predicate Utf8(codes: bytes, text: bytes) {
    if codes == [] then text == []
    else if codes[0] < 0x80 then text != [] && text[0] == codes[0] && Utf8(codes[1..], text[1..])
    else
      && |text| >= 2 && 0xC2 <= text[0] <= 0xC3 && 0x80 <= text[1] < 0xC0
      && (text[0] - 0xC0) * 0x40 + (text[1] - 0x80) == codes[0]
      && Utf8(codes[1..], text[2..])
  }

  // ---- Terms

  /** The bytes of `buf` from `pos` to `end` write `v`. */
  ghost predicate Form(buf: bytes, pos: nat, end: nat, v: Term)
    decreases end - pos, 0
  {
    && pos < end <= |buf|
    && (var size, body := end - pos, pos + 1;
        match buf[pos]
        case 70 => size == 9 && v == Float(Word(buf, body) * 0x1_0000_0000 + Word(buf, body + 4))
        case 88 => PidForm(buf, body, end, v, true)
        case 89 => PortForm(buf, body, end, v, true)
        case 90 => ReferenceForm(buf, body, end, v, true)
        case 97 => size == 2 && v == Int(buf[body])
        case 98 =>
          size == 5 && v == Int(if buf[body] < 0x80 then Word(buf, body) else Word(buf, body) - 0x1_0000_0000)
        case 100 => size >= 3 && size == 3 + Half(buf, body) && v.Atom? && Utf8(buf[body + 2..end], v.name)
        case 101 => OldReferenceForm(buf, body, end, v)
        case 102 => PortForm(buf, body, end, v, false)
        case 103 => PidForm(buf, body, end, v, false)
        case 104 => size >= 2 && v.Tuple? && |v.elems| == buf[body] && Forms(buf, body + 1, end, v.elems)
        case 105 => size >= 5 && v.Tuple? && |v.elems| == Word(buf, body) && Forms(buf, body + 4, end, v.elems)
        case 106 => size == 1 && v == List([])
        case 107 =>
          && size >= 3 && size == 3 + Half(buf, body) && v.List? && |v.elems| == Half(buf, body)
          && forall i :: 0 <= i < |v.elems| ==> v.elems[i] == Int(buf[body + 2 + i])
        case 108 => ListForm(buf, body, end, v)
        case 109 => size >= 5 && size == 5 + Word(buf, body) && v == Binary(buf[body + 4..end])
        case 110 => size >= 3 && size == 3 + Octet(buf, body) && v == Number(buf[body + 1], buf[body + 2..end])
        case 111 => size >= 6 && size == 6 + Word(buf, body) && v == Number(buf[body + 4], buf[body + 5..end])
        case 114 => ReferenceForm(buf, body, end, v, false)
        case 115 => size >= 2 && size == 2 + Octet(buf, body) && v.Atom? && Utf8(buf[body + 1..end], v.name)
        case 118 => size >= 3 && size == 3 + Half(buf, body) && v == Atom(buf[body + 2..end])
        case 119 => size >= 2 && size == 2 + Octet(buf, body) && v == Atom(buf[body + 1..end])
        case _ => false)
  }

  /** One after the other. */
  ghost predicate Forms(buf: bytes, pos: nat, end: nat, vs: seq<Term>)
    decreases end - pos, 3, |vs|
  {
    if vs == [] then pos == end
    else exists mid: nat :: pos < mid <= end && Form(buf, pos, mid, vs[0]) && Forms(buf, mid, end, vs[1..])
  }

  /** A node name is an atom in any of its forms. */
  ghost predicate NodeForm(buf: bytes, pos: nat, end: nat, node: bytes)
    decreases end - pos, 1
  {
    Form(buf, pos, end, Atom(node))
  }

  /** A creation is four bytes wide in the newer forms, one in the older. */
  ghost predicate Creation(buf: bytes, pos: nat, end: nat, wide: bool, creation: nat) {
    if wide then pos + 4 == end <= |buf| && creation == Word(buf, pos)
    else pos + 1 == end <= |buf| && creation == buf[pos]
  }

  ghost predicate PidForm(buf: bytes, pos: nat, end: nat, v: Term, wide: bool)
    decreases end - pos, 2
  {
    && v.Pid?
    && exists mid: nat :: pos <= mid <= end && NodeForm(buf, pos, mid, v.node) && PidFields(buf, mid, end, v, wide)
  }

  ghost predicate PidFields(buf: bytes, pos: nat, end: nat, v: Term, wide: bool)
    requires v.Pid?
  {
    && pos + 8 <= |buf| && v.id == Word(buf, pos) && v.serial == Word(buf, pos + 4)
    && Creation(buf, pos + 8, end, wide, v.creation)
  }

  ghost predicate PortForm(buf: bytes, pos: nat, end: nat, v: Term, wide: bool)
    decreases end - pos, 2
  {
    && v.Port?
    && exists mid: nat :: pos <= mid <= end && NodeForm(buf, pos, mid, v.node) && PortFields(buf, mid, end, v, wide)
  }

  ghost predicate PortFields(buf: bytes, pos: nat, end: nat, v: Term, wide: bool)
    requires v.Port?
  {
    pos + 4 <= |buf| && v.id == Word(buf, pos) && Creation(buf, pos + 4, end, wide, v.creation)
  }

  ghost predicate OldReferenceForm(buf: bytes, pos: nat, end: nat, v: Term)
    decreases end - pos, 2
  {
    && v.Reference? && |v.ids| == 1
    && exists mid: nat :: pos <= mid <= end && NodeForm(buf, pos, mid, v.node) && OldReferenceFields(buf, mid, end, v)
  }

  ghost predicate OldReferenceFields(buf: bytes, pos: nat, end: nat, v: Term)
    requires v.Reference? && |v.ids| == 1
  {
    pos + 5 == end <= |buf| && v.ids[0] == Word(buf, pos) && v.creation == buf[pos + 4]
  }

  /** The number of id words, the node, the creation and the words. */
  ghost predicate ReferenceForm(buf: bytes, pos: nat, end: nat, v: Term, wide: bool)
    decreases end - pos, 2
  {
    && v.Reference? && pos + 2 <= end <= |buf| && |v.ids| == Half(buf, pos)
    && exists mid: nat :: pos + 2 <= mid <= end && NodeForm(buf, pos + 2, mid, v.node)
         && ReferenceFields(buf, mid, end, v, wide)
  }

  ghost predicate ReferenceFields(buf: bytes, pos: nat, end: nat, v: Term, wide: bool)
    requires v.Reference?
  {
    var ids := pos + if wide then 4 else 1;
    && Creation(buf, pos, ids, wide, v.creation) && ids + 4 * |v.ids| == end <= |buf|
    && forall k :: 0 <= k < |v.ids| ==> v.ids[k] == Word(buf, ids + 4 * k)
  }

  /** A length, that many elements and a tail: the rest of the list, or one last element. */
  ghost predicate ListForm(buf: bytes, pos: nat, end: nat, v: Term)
    decreases end - pos, 5
  {
    && v.List? && pos + 4 <= |buf| && Word(buf, pos) <= |v.elems|
    && exists mid: nat, tail: Term :: ListParts(buf, pos, mid, tail, end, v)
  }

  ghost predicate ListParts(buf: bytes, pos: nat, mid: nat, tail: Term, end: nat, v: Term)
    requires v.List? && pos + 4 <= |buf| && Word(buf, pos) <= |v.elems|
    decreases end - pos, 4
  {
    var n := Word(buf, pos);
    && pos + 4 <= mid <= end && Forms(buf, pos + 4, mid, v.elems[..n])
    && Form(buf, mid, end, tail) && v.elems[n..] == Spliced(tail)
  }

  function Spliced(tail: Term): seq<Term> { if tail.List? then tail.elems else [tail] }

  /** Sign and digits, as the narrowest of the two integer values. */
  ghost function Number(sign: byte, digits: bytes): Term {
    var n: int := (if sign == 0 then 1 else -1) * Weighted(digits);
    if -0x8000_0000_0000_0000 <= n < 0x8000_0000_0000_0000 then Int(n) else BigInt(n)
  }

  // ---- The fields are what the decoder reads

  lemma HalfIs(buf: bytes, pos: nat)
    ensures ReadBe(buf, pos, 2) == if pos + 2 <= |buf| then Ok(Half(buf, pos), pos + 2) else Fail(Eof)
  {
    if pos + 2 <= |buf| {
      var b := buf[pos..pos + 2];
      assert b[..1] == [buf[pos]] && b[..1][..0] == [];
      assert FromBe(b[..1]) == buf[pos];
    }
  }

  lemma WordIs(buf: bytes, pos: nat)
    ensures ReadU32(buf, pos) == if pos + 4 <= |buf| then Ok(Word(buf, pos), pos + 4) else Fail(Eof)
  {
    if pos + 4 <= |buf| {
      var b := buf[pos..pos + 4];
      FromBeFour(b);
    }
  }

  lemma FromBeFour(b: bytes)
    requires |b| == 4
    ensures FromBe(b) == Word(b, 0)
  {
    assert b[..3][..2] == b[..2] && b[..2][..1] == b[..1] && b[..1][..0] == [];
    assert FromBe(b[..1]) == b[0];
    assert FromBe(b[..2]) == Half(b, 0);
    assert FromBe(b[..3]) == Half(b, 0) * 0x100 + b[2];
  }

  lemma {:induction false} FromBeSplit(a: bytes, b: bytes)
    ensures FromBe(a + b) == FromBe(a) * Pow256(|b|) + FromBe(b)
  {
    if b == [] {
      assert a + b == a;
    } else {
      var n := |b| - 1;
      FromBeSplit(a, b[..n]);
      assert (a + b)[..|a| + n] == a + b[..n];
      assert FromBe(a) * Pow256(n) * 256 == FromBe(a) * Pow256(|b|) by { Regroup(FromBe(a), Pow256(n)); }
    }
  }

  lemma Regroup(a: nat, p: nat)
    ensures a * p * 256 == a * (256 * p)
  {
  }

  lemma LongIs(buf: bytes, pos: nat)
    ensures ReadBe(buf, pos, 8) ==
            if pos + 8 <= |buf| then Ok(Word(buf, pos) * 0x1_0000_0000 + Word(buf, pos + 4), pos + 8) else Fail(Eof)
  {
    if pos + 8 <= |buf| {
      var a, b := buf[pos..pos + 4], buf[pos + 4..pos + 8];
      assert buf[pos..pos + 8] == a + b;
      FromBeFour(a);
      FromBeFour(b);
      Powers();
      FromBeSplit(a, b);
    }
  }

  lemma {:induction false} WeightedFront(d: bytes)
    requires d != []
    ensures Weighted(d) == d[0] + 256 * Weighted(d[1..])
  {
    var n := |d| - 1;
    if n == 0 {
      assert d[1..] == [] && d[..0] == [];
    } else {
      WeightedFront(d[..n]);
      assert d[..n][1..] == d[1..][..n - 1];
      Regroup(d[n], Pow256(n - 1));
    }
  }

  lemma {:induction false} WeightedIs(d: bytes)
    ensures FromLe(d) == Weighted(d)
  {
    if d != [] {
      WeightedFront(d);
      WeightedIs(d[1..]);
    }
  }

  lemma NumberIs(buf: bytes, pos: nat, n: nat)
    ensures ReadBig(buf, pos, n) ==
            if pos + 1 + n <= |buf| then Ok(Number(buf[pos], buf[pos + 1..pos + 1 + n]), pos + 1 + n) else Fail(Eof)
  {
    if pos + 1 + n <= |buf| {
      WeightedIs(buf[pos + 1..pos + 1 + n]);
    }
  }

  lemma {:induction false} Utf8Of(codes: bytes, text: bytes)
    ensures Utf8(codes, text) <==> text == Latin1(codes)
  {
    if codes != [] {
      var k := if codes[0] < 0x80 then 1 else 2;
      Latin1Front(codes);
      RuneForm(codes[0], text);
      if |text| >= k {
        Utf8Of(codes[1..], text[k..]);
        assert text == text[..k] + text[k..];
      }
      hide Rune, Latin1;
      var first, rest := Rune(codes[0]), Latin1(codes[1..]);
      assert (first + rest)[..k] == first && (first + rest)[k..] == rest;
    }
  }

  lemma RuneForm(code: byte, text: bytes)
    ensures |Rune(code)| == if code < 0x80 then 1 else 2
    ensures code < 0x80 && |text| >= 1 ==> (text[..1] == Rune(code) <==> text[0] == code)
    ensures code >= 0x80 && |text| >= 2 ==>
              (text[..2] == Rune(code) <==>
               && 0xC2 <= text[0] <= 0xC3 && 0x80 <= text[1] < 0xC0
               && (text[0] - 0xC0) * 0x40 + (text[1] - 0x80) == code)
  {
    if |text| >= 2 {
      assert text[..2] == [text[0], text[1]];
    }
    if |text| >= 1 {
      assert text[..1] == [text[0]];
    }
  }

  lemma {:induction false} Latin1Front(codes: bytes)
    requires codes != []
    ensures Latin1(codes) == Rune(codes[0]) + Latin1(codes[1..])
  {
    hide Rune;
    var n := |codes| - 1;
    if n > 0 {
      Latin1Front(codes[..n]);
      assert codes[..n][1..] == codes[1..][..n - 1];
    }
  }

  lemma SizedIs(buf: bytes, pos: nat, k: nat, n: nat)
    requires ReadBe(buf, pos, k) == Ok(n, pos + k)
    ensures ReadSized(buf, pos, k) ==
            if pos + k + n <= |buf| then Ok(buf[pos + k..pos + k + n], pos + k + n) else Fail(Eof)
  {
    hide ReadBe;
  }

  lemma ByteIs(buf: bytes, pos: nat)
    ensures ReadBe(buf, pos, 1) == if pos < |buf| then Ok(buf[pos], pos + 1) else Fail(Eof)
  {
    if pos < |buf| {
      assert buf[pos..pos + 1][..0] == [];
    }
  }

  lemma {:induction false} IdsAre(buf: bytes, pos: nat, n: nat)
    ensures n > 0 && pos + 4 * n > |buf| ==> ReadIds(buf, pos, n).Fail?
    ensures n == 0 || pos + 4 * n <= |buf| ==>
              var r := ReadIds(buf, pos, n);
              && r.Ok? && r.next == pos + 4 * n && |r.value| == n
              && forall k :: 0 <= k < n ==> r.value[k] == Word(buf, pos + 4 * k)
    decreases n
  {
    hide Word, ReadU32;
    WordIs(buf, pos);
    if n > 0 {
      IdsAre(buf, pos + 4, n - 1);
    }
  }

  lemma CreationIs(buf: bytes, pos: nat, end: nat, wide: bool, c: uint32)
    ensures ReadCreation(buf, pos, wide) == Ok(c, end) <==> Creation(buf, pos, end, wide, c)
  {
    hide Word, ReadU32;
    WordIs(buf, pos);
  }

  // ---- The decoder follows the grammar

  /** Forms without parts. */
  lemma PlainForm(buf: bytes, pos: nat, end: nat, v: Term)
    requires pos < |buf| && buf[pos] in {70, 97, 98, 106}
    ensures DecTerm(buf, pos) == Ok(v, end) <==> Form(buf, pos, end, v)
  {
    hide ReadBe, ReadU32, Word, Pow256;
    LongIs(buf, pos + 1);
    WordIs(buf, pos + 1);
    if buf[pos] == 98 && pos + 5 <= |buf| {
      WordSign(buf, pos + 1);
    }
  }

  lemma WordSign(buf: bytes, pos: nat)
    requires pos + 4 <= |buf|
    ensures buf[pos] < 0x80 <==> Word(buf, pos) < TWO_31
  {
  }

  lemma BigForm(buf: bytes, pos: nat, end: nat, v: Term)
    requires pos < |buf| && buf[pos] in {110, 111}
    ensures DecTerm(buf, pos) == Ok(v, end) <==> Form(buf, pos, end, v)
  {
    hide ReadU32, ReadBig, Number, Word;
    var p := pos + 1;
    WordIs(buf, p);
    if buf[pos] == 110 && p < |buf| {
      NumberIs(buf, p + 1, buf[p]);
    } else if buf[pos] == 111 && p + 4 <= |buf| {
      NumberIs(buf, p + 4, Word(buf, p));
    }
  }

  /** Forms that are a length, of one or two bytes, and that many bytes. */
  lemma NameForm(buf: bytes, pos: nat, end: nat, v: Term)
    requires pos < |buf| && buf[pos] in {100, 115, 118, 119}
    ensures DecTerm(buf, pos) == Ok(v, end) <==> Form(buf, pos, end, v)
  {
    var k := if buf[pos] in {115, 119} then 1 else 2;
    NameRead(buf, pos, end, v);
    NameParts(buf, pos, end, v);
    hide *;
    SizedOf(buf, pos + 1, k);
    if Sized(buf, pos + 1, k, end) {
      var b := buf[pos + 1 + k..end];
      assert ReadSized(buf, pos + 1, k) == Ok(b, end);
      if v.Atom? {
        Utf8Of(b, v.name);
      }
    }
  }

  ghost predicate Sized(buf: bytes, pos: nat, k: nat, end: nat)
    requires k in {1, 2}
  {
    pos + k <= end <= |buf| && end == pos + k + if k == 1 then Octet(buf, pos) else Half(buf, pos)
  }

  lemma SizedOf(buf: bytes, pos: nat, k: nat)
    requires k in {1, 2}
    ensures forall end: nat :: Sized(buf, pos, k, end) ==>
              pos + k <= end <= |buf| && ReadSized(buf, pos, k) == Ok(buf[pos + k..end], end)
    ensures ReadSized(buf, pos, k).Ok? ==> Sized(buf, pos, k, ReadSized(buf, pos, k).next)
  {
    hide ReadBe, Half;
    HalfIs(buf, pos);
    ByteIs(buf, pos);
  }

  lemma NameRead(buf: bytes, pos: nat, end: nat, v: Term)
    requires pos < |buf| && buf[pos] in {100, 115, 118, 119}
    ensures DecTerm(buf, pos) == Ok(v, end) <==>
            var r := ReadSized(buf, pos + 1, if buf[pos] in {115, 119} then 1 else 2);
            r.Ok? && r.next == end && v == Atom(if buf[pos] in {100, 115} then Latin1(r.value) else r.value)
  {
    hide ReadSized, Latin1;
  }

  lemma NameParts(buf: bytes, pos: nat, end: nat, v: Term)
    requires pos < |buf| && buf[pos] in {100, 115, 118, 119}
    ensures var k := if buf[pos] in {115, 119} then 1 else 2;
            Form(buf, pos, end, v) <==>
              && Sized(buf, pos + 1, k, end) && pos + 1 + k <= end <= |buf| && v.Atom?
              && (var b := buf[pos + 1 + k..end];
                  if buf[pos] in {100, 115} then Utf8(b, v.name) else v.name == b)
  {
    hide Utf8, Half;
  }

  lemma BinaryForm(buf: bytes, pos: nat, end: nat, v: Term)
    requires pos < |buf| && buf[pos] == 109
    ensures DecTerm(buf, pos) == Ok(v, end) <==> Form(buf, pos, end, v)
  {
    hide ReadBe, ReadSized, Word, ReadU32;
    var p := pos + 1;
    WordIs(buf, p);
    if p + 4 <= |buf| {
      WordRead(buf, p);
      SizedIs(buf, p, 4, Word(buf, p));
    } else {
      NoWord(buf, p);
    }
  }

  lemma NoWord(buf: bytes, pos: nat)
    requires pos + 4 > |buf|
    ensures ReadSized(buf, pos, 4).Fail?
  {
    WordIs(buf, pos);
    hide ReadBe;
  }

  lemma StringForm(buf: bytes, pos: nat, end: nat, v: Term)
    requires pos < |buf| && buf[pos] == 107
    ensures DecTerm(buf, pos) == Ok(v, end) <==> Form(buf, pos, end, v)
  {
    hide ReadSized, Half;
    SizedOf(buf, pos + 1, 2);
    if Form(buf, pos, end, v) {
      assert Sized(buf, pos + 1, 2, end);
      assert v.elems == Chars(buf[pos + 3..end]);
    }
  }

  lemma WordRead(buf: bytes, pos: nat)
    requires pos + 4 <= |buf|
    ensures ReadBe(buf, pos, 4) == Ok(Word(buf, pos), pos + 4)
  {
    WordIs(buf, pos);
    hide ReadBe, Word;
  }

  /** Where each tag leads, in the decoder and in the grammar. */
  lemma Dispatch(buf: bytes, pos: nat)
    requires pos < |buf|
    ensures buf[pos] == 108 ==> DecTerm(buf, pos) == ListAt(buf, pos + 1)
    ensures buf[pos] in {88, 103} ==> DecTerm(buf, pos) == PidAt(buf, pos + 1, buf[pos] == 88)
    ensures buf[pos] in {89, 102} ==> DecTerm(buf, pos) == PortAt(buf, pos + 1, buf[pos] == 89)
    ensures buf[pos] == 101 ==> DecTerm(buf, pos) == OldReferenceAt(buf, pos + 1)
    ensures buf[pos] in {90, 114} ==> DecTerm(buf, pos) == ReferenceAt(buf, pos + 1, buf[pos] == 90)
  {
    hide ListAt, PidAt, PortAt, OldReferenceAt, ReferenceAt;
  }

  lemma FormDispatch(buf: bytes, pos: nat, end: nat, v: Term)
    requires pos < |buf| && buf[pos] in {88, 89, 90, 101, 102, 103, 108, 114}
    ensures Form(buf, pos, end, v) <==>
            && pos < end <= |buf|
            && match buf[pos] {
                 case 108 => ListForm(buf, pos + 1, end, v)
                 case 101 => OldReferenceForm(buf, pos + 1, end, v)
                 case 88 | 103 => PidForm(buf, pos + 1, end, v, buf[pos] == 88)
                 case 89 | 102 => PortForm(buf, pos + 1, end, v, buf[pos] == 89)
                 case _ => ReferenceForm(buf, pos + 1, end, v, buf[pos] == 90)
               }
  {
    hide Forms, Word, Half, Number, Utf8;
  }

  lemma FormsParts(buf: bytes, pos: nat, end: nat, vs: seq<Term>) returns (mid: nat)
    requires vs != [] && Forms(buf, pos, end, vs)
    ensures pos < mid <= end && Form(buf, pos, mid, vs[0]) && Forms(buf, mid, end, vs[1..])
  {
    mid :| pos < mid <= end && Form(buf, pos, mid, vs[0]) && Forms(buf, mid, end, vs[1..]);
  }

  lemma FormsJoin(buf: bytes, pos: nat, mid: nat, end: nat, vs: seq<Term>)
    requires vs != [] && pos < mid <= end && Form(buf, pos, mid, vs[0]) && Forms(buf, mid, end, vs[1..])
    ensures Forms(buf, pos, end, vs)
  {
  }

  /** The decoder returns a value exactly for the bytes that write it. */
  lemma {:induction false} DecodesForm(buf: bytes, pos: nat, end: nat, v: Term)
    ensures DecTerm(buf, pos) == Ok(v, end) <==> Form(buf, pos, end, v)
    decreases |buf| - pos, 0
  {
    if pos < |buf| {
      var tag := buf[pos];
      if tag in {88, 89, 90, 101, 102, 103, 108, 114} {
        CompoundForm(buf, pos, end, v);
      } else if tag in {104, 105} {
        TupleForm(buf, pos, end, v);
      } else if tag in {70, 97, 98, 106} {
        PlainForm(buf, pos, end, v);
      } else if tag in {110, 111} {
        BigForm(buf, pos, end, v);
      } else if tag in {100, 115, 118, 119} {
        NameForm(buf, pos, end, v);
      } else if tag == 107 {
        StringForm(buf, pos, end, v);
      } else if tag == 109 {
        BinaryForm(buf, pos, end, v);
      }
    }
  }

  lemma {:induction false} CompoundForm(buf: bytes, pos: nat, end: nat, v: Term)
    requires pos < |buf| && buf[pos] in {88, 89, 90, 101, 102, 103, 108, 114}
    ensures DecTerm(buf, pos) == Ok(v, end) <==> Form(buf, pos, end, v)
    decreases |buf| - pos, 0, 0
  {
    Dispatch(buf, pos);
    FormDispatch(buf, pos, end, v);
    var p := pos + 1;
    if p == |buf| {
      NothingFollows(buf);
    } else if buf[pos] == 108 {
      DecodesList(buf, p, end, v);
    } else if buf[pos] == 101 {
      DecodesOldReference(buf, p, end, v);
    } else if buf[pos] in {88, 103} {
      DecodesPid(buf, p, end, v, buf[pos] == 88);
    } else if buf[pos] in {89, 102} {
      DecodesPort(buf, p, end, v, buf[pos] == 89);
    } else {
      DecodesReference(buf, p, end, v, buf[pos] == 90);
    }
    hide DecTerm, Form;
  }

  lemma {:induction false} DecodesForms(buf: bytes, pos: nat, end: nat, vs: seq<Term>)
    ensures DecTerms(buf, pos, |vs|) == Ok(vs, end) <==> Forms(buf, pos, end, vs)
    decreases |buf| - pos, 1
  {
    if vs == [] {
      NoForms(buf, pos, end);
    } else {
      if Forms(buf, pos, end, vs) {
        var mid := FormsParts(buf, pos, end, vs);
        FormFits(buf, pos, mid, vs[0]);
        DecodesForm(buf, pos, mid, vs[0]);
        DecodesForms(buf, mid, end, vs[1..]);
        TermsJoin(buf, pos, mid, end, vs);
      }
      if DecTerms(buf, pos, |vs|) == Ok(vs, end) {
        var mid := TermsParts(buf, pos, end, vs);
        DecodesForm(buf, pos, mid, vs[0]);
        DecodesForms(buf, mid, end, vs[1..]);
        FormsJoin(buf, pos, mid, end, vs);
      }
      hide *;
    }
  }

  lemma TermsParts(buf: bytes, pos: nat, end: nat, vs: seq<Term>) returns (mid: nat)
    requires vs != [] && DecTerms(buf, pos, |vs|) == Ok(vs, end)
    ensures pos < mid <= |buf| && mid <= end && DecTerm(buf, pos) == Ok(vs[0], mid)
    ensures DecTerms(buf, mid, |vs[1..]|) == Ok(vs[1..], end)
  {
    mid := DecTerm(buf, pos).next;
  }

  lemma TermsJoin(buf: bytes, pos: nat, mid: nat, end: nat, vs: seq<Term>)
    requires vs != [] && DecTerm(buf, pos) == Ok(vs[0], mid) && DecTerms(buf, mid, |vs[1..]|) == Ok(vs[1..], end)
    ensures DecTerms(buf, pos, |vs|) == Ok(vs, end)
  {
    assert vs == [vs[0]] + vs[1..];
  }

  lemma NoForms(buf: bytes, pos: nat, end: nat)
    ensures Forms(buf, pos, end, []) <==> pos == end
  {
  }

  lemma FormFits(buf: bytes, pos: nat, end: nat, v: Term)
    requires Form(buf, pos, end, v)
    ensures pos < end <= |buf|
  {
  }

  lemma {:induction false} TupleForm(buf: bytes, pos: nat, end: nat, v: Term)
    requires pos < |buf| && buf[pos] in {104, 105}
    ensures DecTerm(buf, pos) == Ok(v, end) <==> Form(buf, pos, end, v)
    decreases |buf| - pos, 0, 0
  {
    hide ReadU32, DecTerms, Forms, Word;
    var p := pos + 1;
    WordIs(buf, p);
    if v.Tuple? {
      if buf[pos] == 104 && p < |buf| {
        DecodesForms(buf, p + 1, end, v.elems);
      } else if buf[pos] == 105 && p + 4 <= |buf| {
        DecodesForms(buf, p + 4, end, v.elems);
      }
    }
  }

  lemma NothingFollows(buf: bytes)
    ensures ListAt(buf, |buf|).Fail? && OldReferenceAt(buf, |buf|).Fail?
    ensures forall wide ::
              && PidAt(buf, |buf|, wide).Fail? && PortAt(buf, |buf|, wide).Fail? && ReferenceAt(buf, |buf|, wide).Fail?
  {
    HalfIs(buf, |buf|);
    WordIs(buf, |buf|);
    hide ReadBe, ReadU32;
  }

  // What the decoder reads for each compound form.

  ghost predicate ListRead(buf: bytes, pos: nat, mid: nat, tail: Term, end: nat, v: Term)
    requires v.List? && pos + 4 <= |buf| && Word(buf, pos) <= |v.elems|
  {
    var n := Word(buf, pos);
    && DecTerms(buf, pos + 4, n) == Ok(v.elems[..n], mid) && DecTerm(buf, mid) == Ok(tail, end)
    && v.elems[n..] == Spliced(tail)
  }

  lemma ListReads(buf: bytes, pos: nat, end: nat, v: Term)
    requires pos + 4 <= |buf|
    ensures ListAt(buf, pos) == Ok(v, end) <==>
            && v.List? && Word(buf, pos) <= |v.elems|
            && exists mid: nat, tail: Term :: ListRead(buf, pos, mid, tail, end, v)
  {
    var n := Word(buf, pos);
    WordIs(buf, pos);
    hide ReadU32, Word;
    var front := DecTerms(buf, pos + 4, n);
    if ListAt(buf, pos) == Ok(v, end) {
      var last := DecTerm(buf, front.next);
      assert v.elems[..n] == front.value && v.elems[n..] == Spliced(last.value);
      assert ListRead(buf, pos, front.next, last.value, end, v);
    }
    if v.List? && n <= |v.elems| {
      if mid: nat, tail: Term :| ListRead(buf, pos, mid, tail, end, v) {
        assert v.elems == v.elems[..n] + v.elems[n..];
      }
    }
  }

  lemma ListTooShort(buf: bytes, pos: nat)
    requires pos + 4 > |buf|
    ensures ListAt(buf, pos).Fail?
  {
    WordIs(buf, pos);
    hide ReadU32, Word;
  }

  lemma {:induction false} DecodesList(buf: bytes, pos: nat, end: nat, v: Term)
    requires pos < |buf|
    ensures ListAt(buf, pos) == Ok(v, end) <==> ListForm(buf, pos, end, v)
    decreases |buf| - pos, 4
  {
    if pos + 4 > |buf| {
      ListTooShort(buf, pos);
    } else {
      ListReads(buf, pos, end, v);
      hide ListAt, Word;
      if v.List? && Word(buf, pos) <= |v.elems| {
        forall mid: nat, tail: Term
          ensures ListRead(buf, pos, mid, tail, end, v) <==> ListParts(buf, pos, mid, tail, end, v)
        {
          SameListParts(buf, pos, mid, tail, end, v);
        }
      }
    }
  }

  lemma {:induction false} SameListParts(buf: bytes, pos: nat, mid: nat, tail: Term, end: nat, v: Term)
    requires v.List? && pos + 4 <= |buf| && Word(buf, pos) <= |v.elems|
    ensures ListRead(buf, pos, mid, tail, end, v) <==> ListParts(buf, pos, mid, tail, end, v)
    decreases |buf| - pos, 3
  {
    ListPartsAre(buf, pos, mid, tail, end, v);
    hide DecTerm, Form, DecTerms, Forms, ListParts, Word, ReadBe, FromBe;
    var front := v.elems[..Word(buf, pos)];
    DecodesForms(buf, pos + 4, mid, front);
    if pos < mid {
      DecodesForm(buf, mid, end, tail);
    }
  }

  lemma ListPartsAre(buf: bytes, pos: nat, mid: nat, tail: Term, end: nat, v: Term)
    requires v.List? && pos + 4 <= |buf| && Word(buf, pos) <= |v.elems|
    ensures ListParts(buf, pos, mid, tail, end, v) <==>
            var n := Word(buf, pos);
            && pos + 4 <= mid <= end && Forms(buf, pos + 4, mid, v.elems[..n])
            && Form(buf, mid, end, tail) && v.elems[n..] == Spliced(tail)
  {
    hide Word;
  }

  lemma {:induction false} DecodesNode(buf: bytes, pos: nat, end: nat, node: bytes)
    ensures DecNode(buf, pos) == Ok(node, end) <==> pos <= end && NodeForm(buf, pos, end, node)
    decreases |buf| - pos, 1
  {
    DecodesForm(buf, pos, end, Atom(node));
    hide DecTerm, Form;
  }

  ghost predicate PidRead(buf: bytes, pos: nat, mid: nat, end: nat, v: Term, wide: bool)
    requires v.Pid?
  {
    && DecNode(buf, pos) == Ok(v.node, mid) && ReadU32(buf, mid) == Ok(v.id, mid + 4)
    && ReadU32(buf, mid + 4) == Ok(v.serial, mid + 8) && ReadCreation(buf, mid + 8, wide) == Ok(v.creation, end)
  }

  lemma PidReads(buf: bytes, pos: nat, end: nat, v: Term, wide: bool)
    ensures PidAt(buf, pos, wide) == Ok(v, end) <==> v.Pid? && exists mid: nat :: PidRead(buf, pos, mid, end, v, wide)
  {
    hide ReadU32, ReadCreation;
    if PidAt(buf, pos, wide) == Ok(v, end) {
      assert PidRead(buf, pos, DecNode(buf, pos).next, end, v, wide);
    }
  }

  lemma {:induction false} DecodesPid(buf: bytes, pos: nat, end: nat, v: Term, wide: bool)
    requires pos < |buf|
    ensures PidAt(buf, pos, wide) == Ok(v, end) <==> PidForm(buf, pos, end, v, wide)
    decreases |buf| - pos, 4
  {
    PidReads(buf, pos, end, v, wide);
    hide PidAt, PidRead, PidFields, NodeForm;
    if v.Pid? {
      forall mid: nat
        ensures PidRead(buf, pos, mid, end, v, wide) <==>
                pos <= mid <= end && NodeForm(buf, pos, mid, v.node) && PidFields(buf, mid, end, v, wide)
      {
        SamePidParts(buf, pos, mid, end, v, wide);
      }
    }
  }

  lemma {:induction false} SamePidParts(buf: bytes, pos: nat, mid: nat, end: nat, v: Term, wide: bool)
    requires pos < |buf| && v.Pid?
    ensures PidRead(buf, pos, mid, end, v, wide) <==>
            pos <= mid <= end && NodeForm(buf, pos, mid, v.node) && PidFields(buf, mid, end, v, wide)
    decreases |buf| - pos, 3
  {
    hide DecTerm, Form, DecNode, NodeForm, ReadU32, ReadCreation, Creation, Word, ReadBe, FromBe;
    DecodesNode(buf, pos, mid, v.node);
    WordIs(buf, mid);
    WordIs(buf, mid + 4);
    CreationIs(buf, mid + 8, end, wide, v.creation);
    CreationEnd(buf, mid + 8, end, wide, v.creation);
  }

  lemma CreationEnd(buf: bytes, pos: nat, end: nat, wide: bool, creation: nat)
    ensures Creation(buf, pos, end, wide, creation) ==> end == pos + if wide then 4 else 1
  {
  }

  ghost predicate PortRead(buf: bytes, pos: nat, mid: nat, end: nat, v: Term, wide: bool)
    requires v.Port?
  {
    && DecNode(buf, pos) == Ok(v.node, mid) && ReadU32(buf, mid) == Ok(v.id, mid + 4)
    && ReadCreation(buf, mid + 4, wide) == Ok(v.creation, end)
  }

  lemma PortReads(buf: bytes, pos: nat, end: nat, v: Term, wide: bool)
    ensures PortAt(buf, pos, wide) == Ok(v, end) <==>
            v.Port? && exists mid: nat :: PortRead(buf, pos, mid, end, v, wide)
  {
    hide ReadU32, ReadCreation;
    if PortAt(buf, pos, wide) == Ok(v, end) {
      assert PortRead(buf, pos, DecNode(buf, pos).next, end, v, wide);
    }
  }

  lemma {:induction false} DecodesPort(buf: bytes, pos: nat, end: nat, v: Term, wide: bool)
    requires pos < |buf|
    ensures PortAt(buf, pos, wide) == Ok(v, end) <==> PortForm(buf, pos, end, v, wide)
    decreases |buf| - pos, 4
  {
    PortReads(buf, pos, end, v, wide);
    hide PortAt, PortRead, PortFields, NodeForm;
    if v.Port? {
      forall mid: nat
        ensures PortRead(buf, pos, mid, end, v, wide) <==>
                pos <= mid <= end && NodeForm(buf, pos, mid, v.node) && PortFields(buf, mid, end, v, wide)
      {
        SamePortParts(buf, pos, mid, end, v, wide);
      }
    }
  }

  lemma {:induction false} SamePortParts(buf: bytes, pos: nat, mid: nat, end: nat, v: Term, wide: bool)
    requires pos < |buf| && v.Port?
    ensures PortRead(buf, pos, mid, end, v, wide) <==>
            pos <= mid <= end && NodeForm(buf, pos, mid, v.node) && PortFields(buf, mid, end, v, wide)
    decreases |buf| - pos, 3
  {
    hide DecTerm, Form, DecNode, NodeForm, ReadU32, ReadCreation, Creation, Word, ReadBe, FromBe;
    DecodesNode(buf, pos, mid, v.node);
    WordIs(buf, mid);
    CreationIs(buf, mid + 4, end, wide, v.creation);
    CreationEnd(buf, mid + 4, end, wide, v.creation);
  }

  ghost predicate OldReferenceRead(buf: bytes, pos: nat, mid: nat, end: nat, v: Term)
    requires v.Reference? && |v.ids| == 1
  {
    && DecNode(buf, pos) == Ok(v.node, mid) && ReadU32(buf, mid) == Ok(v.ids[0], mid + 4)
    && ReadCreation(buf, mid + 4, false) == Ok(v.creation, end)
  }

  lemma OldReferenceReads(buf: bytes, pos: nat, end: nat, v: Term)
    ensures OldReferenceAt(buf, pos) == Ok(v, end) <==>
            v.Reference? && |v.ids| == 1 && exists mid: nat :: OldReferenceRead(buf, pos, mid, end, v)
  {
    hide ReadU32;
    if OldReferenceAt(buf, pos) == Ok(v, end) {
      assert OldReferenceRead(buf, pos, DecNode(buf, pos).next, end, v);
    }
    if v.Reference? && |v.ids| == 1 {
      assert v.ids == [v.ids[0]];
    }
  }

  lemma {:induction false} DecodesOldReference(buf: bytes, pos: nat, end: nat, v: Term)
    requires pos < |buf|
    ensures OldReferenceAt(buf, pos) == Ok(v, end) <==> OldReferenceForm(buf, pos, end, v)
    decreases |buf| - pos, 4
  {
    OldReferenceReads(buf, pos, end, v);
    hide OldReferenceAt, OldReferenceRead, OldReferenceFields, NodeForm;
    if v.Reference? && |v.ids| == 1 {
      forall mid: nat
        ensures OldReferenceRead(buf, pos, mid, end, v) <==>
                pos <= mid <= end && NodeForm(buf, pos, mid, v.node) && OldReferenceFields(buf, mid, end, v)
      {
        SameOldReferenceParts(buf, pos, mid, end, v);
      }
    }
  }

  lemma {:induction false} SameOldReferenceParts(buf: bytes, pos: nat, mid: nat, end: nat, v: Term)
    requires pos < |buf| && v.Reference? && |v.ids| == 1
    ensures OldReferenceRead(buf, pos, mid, end, v) <==>
            pos <= mid <= end && NodeForm(buf, pos, mid, v.node) && OldReferenceFields(buf, mid, end, v)
    decreases |buf| - pos, 3
  {
    hide DecTerm, Form, DecNode, NodeForm, ReadU32, ReadCreation, Word, ReadBe, FromBe;
    DecodesNode(buf, pos, mid, v.node);
    WordIs(buf, mid);
    CreationIs(buf, mid + 4, end, false, v.creation);
  }

  ghost predicate ReferenceRead(buf: bytes, pos: nat, mid: nat, end: nat, v: Term, wide: bool)
    requires v.Reference?
  {
    var ids := mid + if wide then 4 else 1;
    && DecNode(buf, pos + 2) == Ok(v.node, mid) && ReadCreation(buf, mid, wide) == Ok(v.creation, ids)
    && ReadIds(buf, ids, |v.ids|) == Ok(v.ids, end)
  }

  lemma ReferenceReads(buf: bytes, pos: nat, end: nat, v: Term, wide: bool)
    requires pos + 2 <= |buf|
    ensures ReferenceAt(buf, pos, wide) == Ok(v, end) <==>
            v.Reference? && |v.ids| == Half(buf, pos) && exists mid: nat :: ReferenceRead(buf, pos, mid, end, v, wide)
  {
    HalfIs(buf, pos);
    hide ReadBe, Half, ReadIds, Pow256;
    if ReferenceAt(buf, pos, wide) == Ok(v, end) {
      var mid := DecNode(buf, pos + 2).next;
      CreationNext(buf, mid, wide);
      hide ReadCreation;
      assert ReferenceRead(buf, pos, mid, end, v, wide);
    }
    hide ReadCreation;
  }

  lemma CreationNext(buf: bytes, pos: nat, wide: bool)
    ensures var r := ReadCreation(buf, pos, wide); r.Ok? ==> r.next == pos + if wide then 4 else 1
  {
  }

  lemma {:induction false} DecodesReference(buf: bytes, pos: nat, end: nat, v: Term, wide: bool)
    requires pos < |buf|
    ensures ReferenceAt(buf, pos, wide) == Ok(v, end) <==> ReferenceForm(buf, pos, end, v, wide)
    decreases |buf| - pos, 4
  {
    if pos + 2 > |buf| {
      HalfIs(buf, pos);
      hide ReadBe;
    } else {
      ReferenceReads(buf, pos, end, v, wide);
      hide ReferenceAt, Half, ReferenceRead, ReferenceFields, NodeForm;
      if v.Reference? && |v.ids| == Half(buf, pos) {
        forall mid: nat
          ensures ReferenceRead(buf, pos, mid, end, v, wide) <==>
                  pos + 2 <= mid <= end && NodeForm(buf, pos + 2, mid, v.node)
                      && ReferenceFields(buf, mid, end, v, wide)
        {
          SameReferenceParts(buf, pos, mid, end, v, wide);
        }
      }
    }
  }

  lemma {:induction false} SameReferenceParts(buf: bytes, pos: nat, mid: nat, end: nat, v: Term, wide: bool)
    requires v.Reference? && pos + 2 <= |buf|
    ensures ReferenceRead(buf, pos, mid, end, v, wide) <==>
            pos + 2 <= mid <= end && NodeForm(buf, pos + 2, mid, v.node) && ReferenceFields(buf, mid, end, v, wide)
    decreases |buf| - pos, 3
  {
    DecodesNode(buf, pos + 2, mid, v.node);
    SameReferenceFields(buf, mid, end, v, wide);
    ReferenceFieldsFit(buf, mid, end, v, wide);
    hide DecNode, NodeForm, ReadCreation, ReadIds, ReferenceFields;
  }

  lemma ReferenceFieldsFit(buf: bytes, pos: nat, end: nat, v: Term, wide: bool)
    requires v.Reference?
    ensures ReferenceFields(buf, pos, end, v, wide) ==> pos <= end
  {
  }

  lemma SameReferenceFields(buf: bytes, pos: nat, end: nat, v: Term, wide: bool)
    requires v.Reference?
    ensures var ids := pos + if wide then 4 else 1;
            ReadCreation(buf, pos, wide) == Ok(v.creation, ids) && ReadIds(buf, ids, |v.ids|) == Ok(v.ids, end) <==>
            ReferenceFields(buf, pos, end, v, wide)
  {
    hide ReadCreation, ReadIds, Word;
    var ids := pos + if wide then 4 else 1;
    CreationIs(buf, pos, ids, wide, v.creation);
    IdsAre(buf, ids, |v.ids|);
    if ReferenceFields(buf, pos, end, v, wide) {
      assert ReadIds(buf, ids, |v.ids|).value == v.ids;
    }
  }

  // ---- Consequences on literal bytes

  /** A whole input: the version byte, then one term; what follows it is not looked at. */
  lemma DecodeIsForm(buf: bytes, v: Term, end: nat)
    ensures Decode(buf) == Ok(v, end) <==> |buf| >= 2 && buf[0] == 131 && Form(buf, 1, end, v)
  {
    DecodesForm(buf, 1, end, v);
    hide DecTerm, Form;
  }

  /** What is refused at once, and how. */
  lemma Refusals(buf: bytes)
    ensures |buf| < 2 ==> Decode(buf) == Fail(TooShort)
    ensures |buf| >= 2 && buf[0] != 131 ==> Decode(buf) == Fail(BadMagic)
    ensures |buf| >= 2 && buf[0] == 131 && buf[1] == 80 ==> Decode(buf) == Fail(Deflated)
    ensures |buf| >= 2 && buf[0] == 131 && !(buf[1] in {70, 80, 88, 89, 90, 114, 115, 118, 119} || 97 <= buf[1] <= 111)
            ==> Decode(buf) == Fail(UnsupportedTag(buf[1], 1))
  {
  }

  /** A length in two bytes. */
  function Size(n: nat): (b: bytes)
    requires n < 0x1_0000
    ensures |b| == 2
  {
    [n / 0x100, n % 0x100]
  }

  /** A charlist of n bytes is the list of n small integers, in order. */
  lemma Charlist(b: bytes)
    requires |b| < 0x1_0000
    ensures var r := Decode([131, 107] + Size(|b|) + b);
            && r.Ok? && r.next == 4 + |b| && r.value.List? && |r.value.elems| == |b|
            && forall i :: 0 <= i < |b| ==> r.value.elems[i] == Int(b[i])
  {
    var buf: bytes := [131, 107] + Size(|b|) + b;
    var v := List(seq(|b|, i requires 0 <= i < |b| => Int(b[i])));
    assert Half(buf, 2) == |b|;
    DecodeIsForm(buf, v, 4 + |b|);
  }

  /** Both Latin-1 atom forms come back as the UTF-8 text of their code points. */
  lemma LongAtom(b: bytes, buf: bytes)
    requires |b| < 0x1_0000 && buf == [131, 100] + Size(|b|) + b
    ensures var r := Decode(buf); r.Ok? && r.next == 4 + |b| && r.value.Atom? && Utf8(b, r.value.name)
  {
    LongAtomForm(b, buf);
    hide *;
    DecodeIsForm(buf, Atom(Latin1(b)), 4 + |b|);
  }

  lemma LongAtomForm(b: bytes, buf: bytes)
    requires |b| < 0x1_0000 && buf == [131, 100] + Size(|b|) + b
    ensures Form(buf, 1, 4 + |b|, Atom(Latin1(b))) && Utf8(b, Latin1(b))
  {
    assert Half(buf, 2) == |b| && buf[4..4 + |b|] == b;
    Utf8Of(b, Latin1(b));
    hide Utf8, Latin1, Half, Form, Size;
    NameForms(buf, 1, 4 + |b|, Latin1(b));
  }

  lemma ShortAtom(b: bytes, buf: bytes)
    requires |b| < 0x100 && buf == [131, 115, |b|] + b
    ensures var r := Decode(buf); r.Ok? && r.next == 3 + |b| && r.value.Atom? && Utf8(b, r.value.name)
  {
    ShortAtomForm(b, buf);
    hide *;
    DecodeIsForm(buf, Atom(Latin1(b)), 3 + |b|);
  }

  lemma ShortAtomForm(b: bytes, buf: bytes)
    requires |b| < 0x100 && buf == [131, 115, |b|] + b
    ensures Form(buf, 1, 3 + |b|, Atom(Latin1(b))) && Utf8(b, Latin1(b))
  {
    Utf8Of(b, Latin1(b));
    hide Utf8, Latin1, Half, Form;
    assert buf[3..3 + |b|] == b && Octet(buf, 2) == |b|;
    NameForms(buf, 1, 3 + |b|, Latin1(b));
  }

  lemma NameForms(buf: bytes, pos: nat, end: nat, name: bytes)
    requires pos + 2 <= end <= |buf|
    ensures buf[pos] == 100 && pos + 3 <= end && end == pos + 3 + Half(buf, pos + 1) ==>
              (Form(buf, pos, end, Atom(name)) <==> Utf8(buf[pos + 3..end], name))
    ensures buf[pos] == 115 && end == pos + 2 + Octet(buf, pos + 1) ==>
              (Form(buf, pos, end, Atom(name)) <==> Utf8(buf[pos + 2..end], name))
  {
    hide Utf8, Half;
  }

  /** Big integers, however many digits. */
  lemma LargeBig(size: bytes, sign: byte, d: bytes)
    requires |size| == 4 && |d| == Word(size, 0)
    ensures Decode([131, 111] + size + [sign] + d) == Ok(Number(sign, d), 7 + |d|)
  {
    var buf: bytes := [131, 111] + size + [sign] + d;
    assert Word(buf, 2) == Word(size, 0) && buf[6] == sign && buf[7..7 + |d|] == d;
    hide Word, Number;
    DecodeIsForm(buf, Number(sign, d), 7 + |d|);
  }

  /** A node name in its one-byte UTF-8 form. */
  ghost predicate Node(x: bytes, name: bytes) { |name| < 0x100 && x == [119, |name|] + name }

  lemma NodeAt(buf: bytes, pos: nat, x: bytes, name: bytes)
    requires Node(x, name) && At(buf, pos, x)
    ensures NodeForm(buf, pos, pos + |x|, name)
  {
    AtByte(buf, pos, x, 0);
    AtByte(buf, pos, x, 1);
    assert buf[pos..pos + |x|][2..] == name;
  }

  lemma WordAt(buf: bytes, pos: nat, w: bytes)
    requires |w| == 4 && At(buf, pos, w)
    ensures pos + 4 <= |buf| && Word(buf, pos) == Word(w, 0)
  {
    AtByte(buf, pos, w, 0);
    AtByte(buf, pos, w, 1);
    AtByte(buf, pos, w, 2);
    AtByte(buf, pos, w, 3);
  }

  /** Identifiers: node, two words and a creation of one byte (103) or four (88). */
  lemma PidBytes(x: bytes, name: bytes, id: bytes, serial: bytes, c: bytes)
    requires Node(x, name) && |id| == |serial| == 4 && |c| in {1, 4}
    ensures var buf := [131, if |c| == 1 then 103 else 88] + x + id + serial + c;
            Decode(buf) == Ok(Pid(name, Word(id, 0), Word(serial, 0), CreationOf(c)), |buf|)
  {
    var tag: byte := if |c| == 1 then 103 else 88;
    var head: bytes := [131, tag];
    var buf := head + x + id + serial + c;
    var v, mid := Pid(name, Word(id, 0), Word(serial, 0), CreationOf(c)), 2 + |x|;
    hide Word, NodeForm, At, Node, Creation, Form, FromBe;
    AtWhole(buf);
    AtSplit(buf, 0, head + x + id + serial, c);
    AtSplit(buf, 0, head + x + id, serial);
    AtSplit(buf, 0, head + x, id);
    AtSplit(buf, 0, head, x);
    NodeAt(buf, 2, x, name);
    WordAt(buf, mid, id);
    WordAt(buf, mid + 4, serial);
    CreationAt(buf, mid + 8, c);
    PidFormAt(buf, mid, |buf|, v, |c| == 4);
  }

  function CreationOf(c: bytes): uint32
    requires |c| in {1, 4}
  {
    if |c| == 1 then c[0] else Word(c, 0)
  }

  lemma AtWhole(buf: bytes)
    ensures At(buf, 0, buf)
  {
    assert buf[0..|buf|] == buf;
  }

  lemma CreationAt(buf: bytes, pos: nat, c: bytes)
    requires |c| in {1, 4} && At(buf, pos, c)
    ensures Creation(buf, pos, pos + |c|, |c| == 4, CreationOf(c))
  {
    if |c| == 1 { AtByte(buf, pos, c, 0); } else { WordAt(buf, pos, c); }
  }

  lemma PidFormAt(buf: bytes, mid: nat, end: nat, v: Term, wide: bool)
    requires v.Pid? && 2 <= mid <= end == |buf| && buf[0] == 131 && buf[1] == if wide then 88 else 103
    requires NodeForm(buf, 2, mid, v.node) && PidFields(buf, mid, end, v, wide)
    ensures Decode(buf) == Ok(v, end)
  {
    assert PidForm(buf, 2, end, v, wide);
    FormDispatch(buf, 1, end, v);
    DecodeIsForm(buf, v, end);
    hide *;
  }

  /** Ports: 102, or 89 with the wide creation. */
  lemma PortBytes(x: bytes, name: bytes, id: bytes, c: bytes)
    requires Node(x, name) && |id| == 4 && |c| in {1, 4}
    ensures var buf := [131, if |c| == 1 then 102 else 89] + x + id + c;
            Decode(buf) == Ok(Port(name, Word(id, 0), CreationOf(c)), |buf|)
  {
    var tag: byte := if |c| == 1 then 102 else 89;
    var head: bytes := [131, tag];
    var buf := head + x + id + c;
    var v, mid := Port(name, Word(id, 0), CreationOf(c)), 2 + |x|;
    hide Word, NodeForm, At, Node, Creation, Form, FromBe;
    AtWhole(buf);
    AtSplit(buf, 0, head + x + id, c);
    AtSplit(buf, 0, head + x, id);
    AtSplit(buf, 0, head, x);
    NodeAt(buf, 2, x, name);
    WordAt(buf, mid, id);
    CreationAt(buf, mid + 4, c);
    PortFormAt(buf, mid, |buf|, v, |c| == 4);
  }

  lemma PortFormAt(buf: bytes, mid: nat, end: nat, v: Term, wide: bool)
    requires v.Port? && 2 <= mid <= end == |buf| && buf[0] == 131 && buf[1] == if wide then 89 else 102
    requires NodeForm(buf, 2, mid, v.node) && PortFields(buf, mid, end, v, wide)
    ensures Decode(buf) == Ok(v, end)
  {
    assert PortForm(buf, 2, end, v, wide);
    FormDispatch(buf, 1, end, v);
    DecodeIsForm(buf, v, end);
    hide *;
  }

  /** The oldest reference form has one word. */
  lemma OldReferenceBytes(x: bytes, name: bytes, id: bytes, creation: byte)
    requires Node(x, name) && |id| == 4
    ensures var buf := [131, 101] + x + id + [creation];
            Decode(buf) == Ok(Reference(name, creation, [Word(id, 0)]), |buf|)
  {
    var head: bytes := [131, 101];
    var buf := head + x + id + [creation];
    var v, mid := Reference(name, creation, [Word(id, 0)]), 2 + |x|;
    hide Word, NodeForm, At, Node, Form, FromBe;
    AtWhole(buf);
    AtSplit(buf, 0, head + x + id, [creation]);
    AtSplit(buf, 0, head + x, id);
    AtSplit(buf, 0, head, x);
    NodeAt(buf, 2, x, name);
    WordAt(buf, mid, id);
    AtByte(buf, mid + 4, [creation], 0);
    OldReferenceFormAt(buf, mid, |buf|, v);
  }

  lemma OldReferenceFormAt(buf: bytes, mid: nat, end: nat, v: Term)
    requires v.Reference? && |v.ids| == 1 && 2 <= mid <= end == |buf| && buf[0] == 131 && buf[1] == 101
    requires NodeForm(buf, 2, mid, v.node) && OldReferenceFields(buf, mid, end, v)
    ensures Decode(buf) == Ok(v, end)
  {
    assert OldReferenceForm(buf, 2, end, v);
    FormDispatch(buf, 1, end, v);
    DecodeIsForm(buf, v, end);
    hide *;
  }

  /** The words of a reference, four bytes each. */
  function Words(w: bytes): (ids: seq<uint32>)
    requires |w| % 4 == 0
  {
    if w == [] then [] else [Word(w, 0)] + Words(w[4..])
  }

  lemma {:induction false} WordsAt(buf: bytes, pos: nat, w: bytes)
    requires |w| % 4 == 0 && At(buf, pos, w)
    ensures |Words(w)| == |w| / 4 && pos + |w| <= |buf|
    ensures forall k :: 0 <= k < |Words(w)| ==> Words(w)[k] == Word(buf, pos + 4 * k)
    decreases |w|
  {
    if w != [] {
      assert w == w[..4] + w[4..];
      AtSplit(buf, pos, w[..4], w[4..]);
      WordAt(buf, pos, w[..4]);
      WordsAt(buf, pos + 4, w[4..]);
    }
  }

  /** References: 114, or 90 with the wide creation. */
  lemma ReferenceBytes(x: bytes, name: bytes, c: bytes, w: bytes)
    requires Node(x, name) && |c| in {1, 4} && |w| % 4 == 0 && |w| / 4 < 0x1_0000
    ensures var buf := [131, if |c| == 1 then 114 else 90] + Size(|w| / 4) + x + c + w;
            Decode(buf) == Ok(Reference(name, CreationOf(c), Words(w)), |buf|)
  {
    var tag: byte := if |c| == 1 then 114 else 90;
    var head, size: bytes := [131, tag], Size(|w| / 4);
    var buf := head + size + x + c + w;
    var v, mid := Reference(name, CreationOf(c), Words(w)), 4 + |x|;
    hide Word, Words, NodeForm, At, Node, Creation, Form, Forms, FromBe, Pow256, Be;
    AtWhole(buf);
    AtSplit(buf, 0, head + size + x + c, w);
    AtSplit(buf, 0, head + size + x, c);
    AtSplit(buf, 0, head + size, x);
    AtSplit(buf, 0, head, size);
    AtByte(buf, 2, size, 0);
    AtByte(buf, 2, size, 1);
    NodeAt(buf, 4, x, name);
    CreationAt(buf, mid, c);
    WordsAt(buf, mid + |c|, w);
    ReferenceFormAt(buf, mid, |buf|, v, |c| == 4);
  }

  lemma ReferenceFormAt(buf: bytes, mid: nat, end: nat, v: Term, wide: bool)
    requires v.Reference? && 4 <= mid <= end == |buf| && buf[0] == 131 && buf[1] == if wide then 90 else 114
    requires |v.ids| == Half(buf, 2) && NodeForm(buf, 4, mid, v.node) && ReferenceFields(buf, mid, end, v, wide)
    ensures Decode(buf) == Ok(v, end)
  {
    assert ReferenceForm(buf, 2, end, v, wide);
    FormDispatch(buf, 1, end, v);
    DecodeIsForm(buf, v, end);
    hide *;
  }

  /** A list of small integers with a small integer for its tail: the tail becomes the last element. */
  lemma ImproperList(size: bytes, b: bytes, tail: byte)
    requires |size| == 4 && |b| == Word(size, 0)
    ensures var r := Decode([131, 108] + size + SmallInts(b) + [97, tail]);
            && r.Ok? && r.value.List? && |r.value.elems| == |b| + 1
            && (forall i :: 0 <= i < |b| ==> r.value.elems[i] == Int(b[i]))
            && r.value.elems[|b|] == Int(tail)
  {
    var head: bytes := [131, 108];
    var buf := head + size + SmallInts(b) + [97, tail];
    var front := seq(|b|, i requires 0 <= i < |b| => Int(b[i]));
    var v, mid := List(front + [Int(tail)]), 6 + |SmallInts(b)|;
    hide Word, At, Form, Forms, FromBe, SmallInts;
    AtWhole(buf);
    AtSplit(buf, 0, head + size + SmallInts(b), [97, tail]);
    AtSplit(buf, 0, head + size, SmallInts(b));
    AtSplit(buf, 0, head, size);
    WordAt(buf, 2, size);
    SmallIntsAt(buf, 6, b);
    IntAt(buf, mid, tail);
    assert v.elems[..|b|] == front && v.elems[|b|..] == [Int(tail)];
    ListFormAt(buf, mid, Int(tail), |buf|, v);
  }

  function SmallInts(b: bytes): bytes { if b == [] then [] else [97, b[0]] + SmallInts(b[1..]) }

  lemma IntAt(buf: bytes, pos: nat, n: byte)
    requires At(buf, pos, [97, n])
    ensures Form(buf, pos, pos + 2, Int(n))
  {
    AtByte(buf, pos, [97, n], 0);
    AtByte(buf, pos, [97, n], 1);
  }

  lemma {:induction false} SmallIntsAt(buf: bytes, pos: nat, b: bytes)
    requires At(buf, pos, SmallInts(b))
    ensures Forms(buf, pos, pos + |SmallInts(b)|, seq(|b|, i requires 0 <= i < |b| => Int(b[i])))
    decreases |b|
  {
    var vs := seq(|b|, i requires 0 <= i < |b| => Int(b[i]));
    if b == [] {
      NoForms(buf, pos, pos);
      assert vs == [];
    } else {
      AtSplit(buf, pos, [97, b[0]], SmallInts(b[1..]));
      IntAt(buf, pos, b[0]);
      SmallIntsAt(buf, pos + 2, b[1..]);
      var rest := seq(|b[1..]|, i requires 0 <= i < |b[1..]| => Int(b[1..][i]));
      assert vs[1..] == rest;
      FormsJoin(buf, pos, pos + 2, pos + |SmallInts(b)|, vs);
    }
    hide Form, Forms;
  }

  lemma ListFormAt(buf: bytes, mid: nat, tail: Term, end: nat, v: Term)
    requires v.List? && 6 <= mid <= end == |buf| && buf[0] == 131 && buf[1] == 108 && Word(buf, 2) <= |v.elems|
    requires Forms(buf, 6, mid, v.elems[..Word(buf, 2)]) && Form(buf, mid, end, tail)
    requires v.elems[Word(buf, 2)..] == Spliced(tail)
    ensures Decode(buf) == Ok(v, end)
  {
    ListPartsAre(buf, 2, mid, tail, end, v);
    assert ListForm(buf, 2, end, v);
    FormDispatch(buf, 1, end, v);
    DecodeIsForm(buf, v, end);
    hide *;
  }

  // ---- The encoder writes the grammar

  /** An encoding is a form of the normalised value, and its tag is the one of that kind of value. */
  lemma EncodeWrites(t: Term)
    requires Encode(t).Some? && InLimits(t)
    ensures var e := Encode(t).value;
            |e| >= 2 && e[0] == 131 && Form(e, 1, |e|, Normal(t)) && e[1] in Tags(t)
  {
    var e := Encode(t).value;
    assert e + [] == e;
    EncodeDecode(t, []);
    DecodeIsForm(e, Normal(t), |e|);
    EncodeTag(t);
    hide *;
  }

  function Tags(t: Term): set<byte> {
    match t
    case Bool(_) => {119}
    case GoInt(i) => {IntTag(i)}
    case Int(i) => {IntTag(i)}
    case BigInt(_) => {}
    case Float(_) => {70}
    case Atom(name) => {if |name| < 0x100 then 119 else 118}
    case Str(_) => {109}
    case Binary(_) => {109}
    case Tuple(elems) => {if |elems| < 0x100 then 104 else 105}
    case List(elems) => {if elems == [] then 106 else 108}
    case Pid(_, _, _, _) => {88}
    case Port(_, _, _) => {89}
    case Reference(_, _, _) => {90}
    case Nil => {106}
  }

  /** One byte, four bytes with a sign, or as many digits as needed. */
  function IntTag(i: int64): byte {
    if 0 <= i < 0x100 then 97 else if -0x8000_0000 <= i < 0x8000_0000 then 98 else 110
  }

  lemma EncodeTag(t: Term)
    requires EncTerm(t).Some?
    ensures EncTerm(t).value != [] && EncTerm(t).value[0] in Tags(t)
  {
    hide Be, Le, EncIds, EncAll;
  }

  lemma BoolBytes(b: bool)
    ensures Encode(Bool(b)) ==
            Some(if b then [131, 119, 4, 116, 114, 117, 101] else [131, 119, 5, 102, 97, 108, 115, 101])
  {
    if b {
      assert EncTerm(Bool(b)).value == [119, 4] + [116, 114, 117, 101];
      assert Encode(Bool(b)).value == [131, 119, 4, 116, 114, 117, 101];
    } else {
      assert EncTerm(Bool(b)).value == [119, 5] + [102, 97, 108, 115, 101];
      assert Encode(Bool(b)).value == [131, 119, 5, 102, 97, 108, 115, 101];
    }
  }

  /** What a value comes back as: booleans as atoms, strings as binaries, nil as the empty list; the
      elements of lists and tuples one by one, in order. */
  lemma NormalIs(t: Term)
    ensures t.GoInt? ==> Normal(t) == Int(t.i)
    ensures t.Bool? ==>
              Normal(t) == Atom(if t.b then [116, 114, 117, 101] else [102, 97, 108, 115, 101])
    ensures t.Str? ==> Normal(t) == Binary(t.text)
    ensures t.Nil? ==> Normal(t) == List([])
    ensures t.Tuple? ==> Normal(t).Tuple? && OneByOne(t.elems, Normal(t).elems)
    ensures t.List? ==> Normal(t).List? && OneByOne(t.elems, Normal(t).elems)
    ensures !(t.GoInt? || t.Bool? || t.Str? || t.Nil? || t.Tuple? || t.List?) ==> Normal(t) == t
  {
    if t.Tuple? || t.List? {
      NormalEach(t.elems);
    }
  }

  ghost predicate OneByOne(ts: seq<Term>, us: seq<Term>) {
    |us| == |ts| && forall k :: 0 <= k < |ts| ==> us[k] == Normal(ts[k])
  }

  lemma {:induction false} NormalEach(ts: seq<Term>)
    ensures OneByOne(ts, NormalAll(ts))
  {
    if ts != [] {
      NormalEach(ts[1..]);
      hide Normal;
      assert forall k :: 1 <= k < |ts| ==> ts[k] == ts[1..][k - 1];
    }
  }
}
