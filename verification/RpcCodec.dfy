/** The RPC wire format: a stream of bytes, typed values written to it and read back. */
module RpcCodec {
  import opened Basics

  type Byte = n: nat | n < 256
  type Bytes = seq<Byte>

  // ---- integers -------------------------------------------------------------------

  function Pow256(w: nat): (r: nat)
    ensures r >= 1
  {
    if w == 0 then 1 else 256 * Pow256(w - 1)
  }

  /** The `w` bytes of `n` in memory, least significant first. */
  function IntBytes(n: nat, w: nat): (b: Bytes)
    ensures |b| == w
  {
    if w == 0 then [] else [n % 256] + IntBytes(n / 256, w - 1)
  }

  function BytesInt(b: Bytes): nat {
    if b == [] then 0 else b[0] + 256 * BytesInt(b[1..])
  }

  lemma {:induction false} IntRoundTrip(n: nat, w: nat)
    requires n < Pow256(w)
    ensures BytesInt(IntBytes(n, w)) == n
  {
    if w > 0 {
      IntRoundTrip(n / 256, w - 1);
      assert IntBytes(n, w)[1..] == IntBytes(n / 256, w - 1);
    }
  }

  lemma LowByte(low: Byte, high: nat)
    ensures (low + 256 * high) % 256 == low && (low + 256 * high) / 256 == high
  {}

  lemma {:induction false} BytesRoundTrip(b: Bytes)
    ensures BytesInt(b) < Pow256(|b|) && IntBytes(BytesInt(b), |b|) == b
  {
    if b != [] {
      var high := BytesInt(b[1..]);
      BytesRoundTrip(b[1..]);
      LowByte(b[0], high);
      assert high + 1 <= Pow256(|b| - 1);
      assert IntBytes(b[0] + 256 * high, |b|) == [b[0]] + IntBytes(high, |b| - 1);
    }
  }

  // ---- types and values -----------------------------------------------------------

  /** The parameter types: an arithmetic type by its size, strings, vectors, tuples. */
  datatype Type = Arithmetic(width: nat) | Text | Vector(elem: Type) | Tuple(elems: Types)
  datatype Types = Nil | Cons(head: Type, tail: Types)

  /** A number stands for the bit pattern of an arithmetic value. */
  datatype Value = Number(n: nat) | Chars(chars: Bytes) | List(elems: seq<Value>)

  const INT_LIMIT: nat := 0x8000_0000

  predicate HasType(v: Value, t: Type)
    decreases t, 0
  {
    match t
    case Arithmetic(w) => v.Number? && v.n < Pow256(w)
    case Text => v.Chars? && |v.chars| < INT_LIMIT
    case Vector(e) => v.List? && |v.elems| < INT_LIMIT && forall i :: 0 <= i < |v.elems| ==> HasType(v.elems[i], e)
    case Tuple(ts) => v.List? && HaveTypes(v.elems, ts)
  }

  predicate HaveTypes(vs: seq<Value>, ts: Types)
    decreases ts, 0
  {
    match ts
    case Nil => vs == []
    case Cons(t, rest) => vs != [] && HasType(vs[0], t) && HaveTypes(vs[1..], rest)
  }

  // ---- what is written ------------------------------------------------------------

  function Encode(v: Value, t: Type): Bytes
    requires HasType(v, t)
    decreases t, 0
  {
    match t
    case Arithmetic(w) => IntBytes(v.n, w)
    case Text => IntBytes(|v.chars|, 4) + v.chars
    case Vector(e) => IntBytes(|v.elems|, 4) + EncodeEach(v.elems, e)
    case Tuple(ts) => EncodeAll(v.elems, ts)
  }

  function EncodeEach(vs: seq<Value>, e: Type): (b: Bytes)
    requires forall i :: 0 <= i < |vs| ==> HasType(vs[i], e)
    ensures vs == [] ==> b == []
    decreases e, 1, |vs|
  {
    if vs == [] then [] else EncodeEach(vs[..|vs| - 1], e) + Encode(vs[|vs| - 1], e)
  }

  /** The fields of a tuple, or the arguments of a call, in order. */
  function EncodeAll(vs: seq<Value>, ts: Types): (b: Bytes)
    requires HaveTypes(vs, ts)
    ensures ts.Nil? ==> b == []
    decreases ts, 0
  {
    match ts
    case Nil => []
    case Cons(t, rest) => Encode(vs[0], t) + EncodeAll(vs[1..], rest)
  }

  // ---- what is read ---------------------------------------------------------------

  /** A read of `size` bytes, which the code asserts are there. */
  function Take(b: Bytes, size: nat): Option<(Bytes, Bytes)> {
    if size <= |b| then Some((b[..size], b[size..])) else None
  }

  /** The 32-bit length of a string or a vector; a negative one has no reading. */
  function TakeLength(b: Bytes): Option<(nat, Bytes)> {
    match Take(b, 4)
    case None => None
    case Some((l, rest)) => if BytesInt(l) < INT_LIMIT then Some((BytesInt(l), rest)) else None
  }

  function Decode(b: Bytes, t: Type): Option<(Value, Bytes)>
    decreases t, 0
  {
    match t
    case Arithmetic(w) =>
      (match Take(b, w)
       case None => None
       case Some((x, rest)) => Some((Number(BytesInt(x)), rest)))
    case Text =>
      (match TakeLength(b)
       case None => None
       case Some((len, b1)) =>
         match Take(b1, len)
         case None => None
         case Some((x, rest)) => Some((Chars(x), rest)))
    case Vector(e) =>
      (match TakeLength(b)
       case None => None
       case Some((len, b1)) =>
         match DecodeEach(b1, e, len)
         case None => None
         case Some((vs, rest)) => Some((List(vs), rest)))
    case Tuple(ts) =>
      match DecodeAll(b, ts)
      case None => None
      case Some((vs, rest)) => Some((List(vs), rest))
  }

  function DecodeEach(b: Bytes, e: Type, len: nat): Option<(seq<Value>, Bytes)>
    decreases e, 1, len
  {
    if len == 0 then Some(([], b))
    else
      match DecodeEach(b, e, len - 1)
      case None => None
      case Some((vs, b1)) =>
        match Decode(b1, e)
        case None => None
        case Some((v, rest)) => Some((vs + [v], rest))
  }

  function DecodeAll(b: Bytes, ts: Types): Option<(seq<Value>, Bytes)>
    decreases ts, 0
  {
    match ts
    case Nil => Some(([], b))
    case Cons(t, more) =>
      match Decode(b, t)
      case None => None
      case Some((v, b1)) =>
        match DecodeAll(b1, more)
        case None => None
        case Some((vs, rest)) => Some(([v] + vs, rest))
  }

  // ---- where the bytes stand ------------------------------------------------------

  lemma Powers()
    ensures Pow256(0) == 1 && Pow256(1) == 0x100 && Pow256(2) == 0x1_0000 && Pow256(3) == 0x100_0000
    ensures Pow256(4) == 0x1_0000_0000 && Pow256(8) == 0x1_0000_0000_0000_0000
  {
    assert Pow256(4) == 256 * Pow256(3) && Pow256(3) == 256 * Pow256(2) && Pow256(2) == 256 * Pow256(1);
    assert Pow256(8) == 256 * Pow256(7) && Pow256(7) == 256 * Pow256(6);
    assert Pow256(6) == 256 * Pow256(5) && Pow256(5) == 256 * Pow256(4);
  }

  lemma DivTwice(n: nat, p: nat)
    requires p >= 1
    ensures 256 * p >= 1 && n / 256 / p == n / (256 * p)
  {
    var q := n / 256 / p;
    var r := n / 256 % p;
    assert n / 256 == q * p + r;
    assert n == 256 * p * q + (256 * r + n % 256);
    assert 256 * r + n % 256 < 256 * p;
    QuotientIs(n, 256 * p, q, 256 * r + n % 256);
  }

  lemma QuotientIs(n: nat, d: nat, q: nat, r: nat)
    requires n == d * q + r && r < d
    ensures n / d == q
  {
    var q', r' := n / d, n % d;
    assert n == d * q' + r';
    if q' > q {
      TimesMore(d, q, q');
    } else if q' < q {
      TimesMore(d, q', q);
    }
  }

  lemma {:induction false} TimesMore(d: nat, less: nat, more: nat)
    requires less < more
    ensures d * less + d <= d * more
    decreases more
  {
    if less < more - 1 {
      TimesMore(d, less, more - 1);
    }
    assert d * more == d * (more - 1) + d;
  }

  /** Byte `k` of a number has the weight 256^k: the least significant one stands first. */
  lemma {:induction false} ByteAt(n: nat, w: nat, k: nat)
    requires k < w
    ensures IntBytes(n, w)[k] == n / Pow256(k) % 256
  {
    if k > 0 {
      ByteAt(n / 256, w - 1, k - 1);
      DivTwice(n, Pow256(k - 1));
    }
  }

  /** The 32-bit number whose four bytes stand at `at`. */
  function Word(b: Bytes, at: nat): nat
    requires at + 4 <= |b|
  {
    b[at] as int + 0x100 * (b[at + 1] as int) + 0x1_0000 * (b[at + 2] as int) + 0x100_0000 * (b[at + 3] as int)
  }

  /** The first four bytes of a number are its lowest 32 bits, and the others follow. */
  lemma LowWord(n: nat, w: nat)
    requires w >= 4
    ensures Word(IntBytes(n, w), 0) == n % 0x1_0000_0000
    ensures IntBytes(n, w)[4..] == IntBytes(n / 0x1_0000_0000, w - 4)
  {
    var n1, n2, n3 := n / 0x100, n / 0x100 / 0x100, n / 0x100 / 0x100 / 0x100;
    FourBytes(n, n1, n2, n3);
    var b := IntBytes(n, w);
    assert b[1..] == IntBytes(n1, w - 1) && b[2..] == b[1..][1..] && b[3..] == b[2..][1..] && b[4..] == b[3..][1..];
    assert b[2..] == IntBytes(n2, w - 2);
    assert b[3..] == IntBytes(n3, w - 3);
  }

  lemma FourBytes(n: nat, n1: nat, n2: nat, n3: nat)
    requires n1 == n / 0x100 && n2 == n1 / 0x100 && n3 == n2 / 0x100
    ensures n % 0x100 + 0x100 * (n1 % 0x100) + 0x1_0000 * (n2 % 0x100) + 0x100_0000 * (n3 % 0x100) == n % 0x1_0000_0000
    ensures n3 / 0x100 == n / 0x1_0000_0000
  {}

  /** A length on the wire: a 32-bit number. */
  lemma LengthInFront(len: nat, rest: Bytes)
    requires len < INT_LIMIT
    ensures var b := IntBytes(len, 4) + rest; |b| == 4 + |rest| && Word(b, 0) == len && b[4..] == rest
  {
    LowWord(len, 4);
  }

  /** A string on the wire: its length, then its characters. */
  lemma TextLayout(v: Value)
    requires HasType(v, Text)
    ensures var b := Encode(v, Text); |b| == 4 + |v.chars| && Word(b, 0) == |v.chars| && b[4..] == v.chars
  {
    LengthInFront(|v.chars|, v.chars);
  }

  /** An arithmetic value on the wire: its bytes, least significant first. */
  lemma NumberLayout(v: Value, w: nat)
    requires HasType(v, Arithmetic(w))
    ensures |Encode(v, Arithmetic(w))| == w
    ensures forall k :: 0 <= k < w ==> Encode(v, Arithmetic(w))[k] == v.n / Pow256(k) % 256
  {
    forall k | 0 <= k < w ensures Encode(v, Arithmetic(w))[k] == v.n / Pow256(k) % 256 {
      ByteAt(v.n, w, k);
    }
  }

  /** A vector on the wire: its length, then its elements. Element `k` stands behind those
      before it and in front of those after it. */
  lemma VectorLayout(v: Value, e: Type, k: nat)
    requires HasType(v, Vector(e)) && k < |v.elems|
    ensures var b := Encode(v, Vector(e));
      && |b| >= 4 && Word(b, 0) == |v.elems|
      && b[4..] == EncodeEach(v.elems[..k], e) + (Encode(v.elems[k], e) + EncodeEach(v.elems[k + 1..], e))
  {
    LengthInFront(|v.elems|, EncodeEach(v.elems, e));
    ElementAt(v.elems, e, k);
  }

  lemma ElementAt(vs: seq<Value>, e: Type, k: nat)
    requires k < |vs| && forall i :: 0 <= i < |vs| ==> HasType(vs[i], e)
    ensures EncodeEach(vs, e) == EncodeEach(vs[..k], e) + (Encode(vs[k], e) + EncodeEach(vs[k + 1..], e))
  {
    var front, back := vs[..k], vs[k + 1..];
    assert vs == front + ([vs[k]] + back);
    EachSplit(front, [vs[k]] + back, e);
    EachSplit([vs[k]], back, e);
    OneElement(vs[k], e);
  }

  lemma OneElement(v: Value, e: Type)
    requires HasType(v, e)
    ensures EncodeEach([v], e) == Encode(v, e)
  {
    assert [v][..0] == [];
    assert EncodeEach([v], e) == EncodeEach([], e) + Encode(v, e);
  }

  lemma {:induction false} EachSplit(s: seq<Value>, t: seq<Value>, e: Type)
    requires (forall i :: 0 <= i < |s| ==> HasType(s[i], e)) && forall i :: 0 <= i < |t| ==> HasType(t[i], e)
    ensures EncodeEach(s + t, e) == EncodeEach(s, e) + EncodeEach(t, e)
    decreases |t|
  {
    if t == [] {
      assert s + t == s;
    } else {
      var n := |t| - 1;
      EachSplit(s, t[..n], e);
      assert s + t == (s + t[..n]) + [t[n]];
      EachLast(s + t[..n], t[n], e);
      Associative(EncodeEach(s, e), EncodeEach(t[..n], e), Encode(t[n], e));
    }
  }

  lemma EachLast(vs: seq<Value>, v: Value, e: Type)
    requires HasType(v, e) && forall i :: 0 <= i < |vs| ==> HasType(vs[i], e)
    ensures EncodeEach(vs + [v], e) == EncodeEach(vs, e) + Encode(v, e)
  {
    assert (vs + [v])[..|vs|] == vs;
  }

  function TypesLength(ts: Types): nat {
    match ts
    case Nil => 0
    case Cons(_, more) => 1 + TypesLength(more)
  }

  /** Type number `k` of a list and the types behind it. */
  function From(ts: Types, k: nat): (rest: Types)
    requires k <= TypesLength(ts)
    ensures TypesLength(rest) == TypesLength(ts) - k
    ensures k == 0 ==> rest == ts
    ensures k > 0 ==> ts.Cons? && rest == From(ts.tail, k - 1)
  {
    if k == 0 then ts else From(ts.tail, k - 1)
  }

  /** A tuple on the wire: its fields like arguments, with nothing before or behind them. */
  lemma TupleLayout(v: Value, ts: Types)
    requires HasType(v, Tuple(ts))
    ensures Encode(v, Tuple(ts)) == EncodeAll(v.elems, ts)
    ensures v.elems == [] ==> Encode(v, Tuple(ts)) == []
  {}

  /** Arguments on the wire: argument `k` follows those before it, and those behind it follow. */
  lemma ArgumentAt(vs: seq<Value>, ts: Types, k: nat) returns (front: Bytes)
    requires HaveTypes(vs, ts) && k < |vs|
    ensures k < TypesLength(ts) == |vs|
    ensures var t := From(ts, k);
      && t.Cons? && HasType(vs[k], t.head) && HaveTypes(vs[k + 1..], t.tail)
      && EncodeAll(vs, ts) == front + (Encode(vs[k], t.head) + EncodeAll(vs[k + 1..], t.tail))
    ensures |front| == EncodedLength(vs, ts, k)
  {
    CountTypes(vs, ts);
    front := ArgumentsFrom(vs, ts, k);
    assert vs[k..][0] == vs[k] && vs[k..][1..] == vs[k + 1..];
  }

  lemma {:induction false} ArgumentsFrom(vs: seq<Value>, ts: Types, k: nat) returns (front: Bytes)
    requires HaveTypes(vs, ts) && k <= |vs| == TypesLength(ts)
    ensures HaveTypes(vs[k..], From(ts, k))
    ensures EncodeAll(vs, ts) == front + EncodeAll(vs[k..], From(ts, k))
    ensures |front| == EncodedLength(vs, ts, k)
    decreases k
  {
    if k == 0 {
      front := [];
      assert vs[k..] == vs;
    } else {
      var first, rest := Encode(vs[0], ts.head), vs[1..];
      front := ArgumentsFrom(rest, ts.tail, k - 1);
      assert rest[k - 1..] == vs[k..];
      Associative(first, front, EncodeAll(vs[k..], From(ts, k)));
      front := first + front;
    }
  }

  lemma {:induction false} CountTypes(vs: seq<Value>, ts: Types)
    requires HaveTypes(vs, ts)
    ensures TypesLength(ts) == |vs|
    decreases ts
  {
    if ts.Cons? {
      CountTypes(vs[1..], ts.tail);
    }
  }

  /** The bytes of the first `k` arguments. */
  function EncodedLength(vs: seq<Value>, ts: Types, k: nat): (n: nat)
    requires HaveTypes(vs, ts) && k <= |vs|
    ensures k == 0 ==> n == 0
    ensures k > 0 ==> ts.Cons? && n == |Encode(vs[0], ts.head)| + EncodedLength(vs[1..], ts.tail, k - 1)
    decreases k
  {
    if k == 0 then 0 else |Encode(vs[0], ts.head)| + EncodedLength(vs[1..], ts.tail, k - 1)
  }

  // ---- round trip -----------------------------------------------------------------

  lemma TakeWritten(x: Bytes, rest: Bytes)
    ensures Take(x + rest, |x|) == Some((x, rest))
  {}

  lemma LengthWritten(len: nat, rest: Bytes)
    requires len < INT_LIMIT
    ensures TakeLength(IntBytes(len, 4) + rest) == Some((len, rest))
  {
    TakeWritten(IntBytes(len, 4), rest);
    assert Pow256(4) == 256 * Pow256(3) && Pow256(3) == 256 * Pow256(2) && Pow256(2) == 256 * Pow256(1);
    IntRoundTrip(len, 4);
  }

  lemma Associative(a: Bytes, b: Bytes, c: Bytes)
    ensures (a + b) + c == a + (b + c)
  {}

  /** Reading what was written gives the value back and leaves what follows untouched. */
  lemma {:induction false} RoundTrip(v: Value, t: Type, rest: Bytes)
    requires HasType(v, t)
    ensures Decode(Encode(v, t) + rest, t) == Some((v, rest))
    decreases t, 0
  {
    match t
    case Arithmetic(w) =>
      TakeWritten(IntBytes(v.n, w), rest);
      IntRoundTrip(v.n, w);
    case Text =>
      LengthWritten(|v.chars|, v.chars + rest);
      assert Encode(v, t) + rest == IntBytes(|v.chars|, 4) + (v.chars + rest);
      TakeWritten(v.chars, rest);
    case Vector(e) =>
      var body := EncodeEach(v.elems, e);
      LengthWritten(|v.elems|, body + rest);
      assert Encode(v, t) + rest == IntBytes(|v.elems|, 4) + (body + rest);
      RoundTripEach(v.elems, e, rest);
    case Tuple(ts) =>
      RoundTripAll(v.elems, ts, rest);
  }

  lemma ReadOneMore(b: Bytes, e: Type, init: seq<Value>, b1: Bytes, last: Value, rest: Bytes)
    requires DecodeEach(b, e, |init|) == Some((init, b1)) && Decode(b1, e) == Some((last, rest))
    ensures DecodeEach(b, e, |init| + 1) == Some((init + [last], rest))
  {}

  lemma {:induction false} RoundTripEach(vs: seq<Value>, e: Type, rest: Bytes)
    requires forall i :: 0 <= i < |vs| ==> HasType(vs[i], e)
    ensures DecodeEach(EncodeEach(vs, e) + rest, e, |vs|) == Some((vs, rest))
    decreases e, 1, |vs|
  {
    if vs == [] {
      assert EncodeEach(vs, e) + rest == rest;
    } else {
      var init, last := vs[..|vs| - 1], vs[|vs| - 1];
      var front, back := EncodeEach(init, e), Encode(last, e);
      Associative(front, back, rest);
      RoundTripEach(init, e, back + rest);
      RoundTrip(last, e, rest);
      ReadOneMore(EncodeEach(vs, e) + rest, e, init, back + rest, last, rest);
      assert init + [last] == vs;
    }
  }

  lemma {:induction false} RoundTripAll(vs: seq<Value>, ts: Types, rest: Bytes)
    requires HaveTypes(vs, ts)
    ensures DecodeAll(EncodeAll(vs, ts) + rest, ts) == Some((vs, rest))
    decreases ts, 0
  {
    match ts
    case Nil => assert EncodeAll(vs, ts) + rest == rest;
    case Cons(t, more) =>
      var tail := EncodeAll(vs[1..], more) + rest;
      assert EncodeAll(vs, ts) + rest == Encode(vs[0], t) + tail;
      RoundTrip(vs[0], t, tail);
      RoundTripAll(vs[1..], more, rest);
      assert [vs[0]] + vs[1..] == vs;
  }

  /** Reading the first type off written arguments yields the first argument, and leaves what
      encodes the others. */
  lemma ReadsFirstArgument(vs: seq<Value>, t: Type, more: Types, rest: Bytes)
    requires HaveTypes(vs, Cons(t, more))
    ensures Decode(EncodeAll(vs, Cons(t, more)) + rest, t) == Some((vs[0], EncodeAll(vs[1..], more) + rest))
  {
    Associative(Encode(vs[0], t), EncodeAll(vs[1..], more), rest);
    RoundTrip(vs[0], t, EncodeAll(vs[1..], more) + rest);
  }

  // ---- only what was written can be read ------------------------------------------

  /** The converse: a successful read has found exactly the encoding of its result. */
  lemma {:induction false} ReadsOnlyEncodings(b: Bytes, t: Type)
    requires Decode(b, t).Some?
    ensures var (v, rest) := Decode(b, t).value; HasType(v, t) && b == Encode(v, t) + rest
    decreases t, 0
  {
    match t
    case Arithmetic(w) => BytesRoundTrip(b[..w]);
    case Text =>
      LengthRead(b);
    case Vector(e) =>
      LengthRead(b);
      var (len, b1) := TakeLength(b).value;
      ReadsOnlyEncodingsEach(b1, e, len);
    case Tuple(ts) => ReadsOnlyEncodingsAll(b, ts);
  }

  lemma LengthRead(b: Bytes)
    requires TakeLength(b).Some?
    ensures var (len, rest) := TakeLength(b).value; len < INT_LIMIT && b == IntBytes(len, 4) + rest
  {
    BytesRoundTrip(b[..4]);
  }

  lemma {:induction false} ReadsOnlyEncodingsEach(b: Bytes, e: Type, len: nat)
    requires DecodeEach(b, e, len).Some?
    ensures var (vs, rest) := DecodeEach(b, e, len).value;
      && |vs| == len
      && (forall i :: 0 <= i < len ==> HasType(vs[i], e))
      && b == EncodeEach(vs, e) + rest
    decreases e, 1, len
  {
    if len > 0 {
      ReadsOnlyEncodingsEach(b, e, len - 1);
      var (init, b1) := DecodeEach(b, e, len - 1).value;
      ReadsOnlyEncodings(b1, e);
      var (v, rest) := Decode(b1, e).value;
      assert (init + [v])[..len - 1] == init;
    }
  }

  lemma {:induction false} ReadsOnlyEncodingsAll(b: Bytes, ts: Types)
    requires DecodeAll(b, ts).Some?
    ensures var (vs, rest) := DecodeAll(b, ts).value; HaveTypes(vs, ts) && b == EncodeAll(vs, ts) + rest
    decreases ts, 0
  {
    match ts
    case Nil =>
    case Cons(t, more) =>
      ReadsOnlyEncodings(b, t);
      var (v, b1) := Decode(b, t).value;
      ReadsOnlyEncodingsAll(b1, more);
      var (vs, rest) := DecodeAll(b1, more).value;
      assert ([v] + vs)[1..] == vs;
  }

  // ---- the stream -----------------------------------------------------------------

  class Stream {
    var buf: Bytes
    var readpos: nat

    ghost predicate Valid()
      reads this
    {
      readpos <= |buf|
    }

    /** What is still to be read. */
    function Rest(): Bytes
      requires Valid()
      reads this
    {
      buf[readpos..]
    }

    constructor (data: Bytes)
      ensures Valid() && buf == data && readpos == 0
    {
      buf, readpos := data, 0;
    }

    method Write(src: Bytes)
      requires Valid()
      modifies this
      ensures Valid() && buf == old(buf) + src && readpos == old(readpos)
    {
      buf := buf + src;
    }

    method Read(size: nat) returns (ok: bool, dst: Bytes)
      requires Valid()
      modifies this
      ensures Valid() && buf == old(buf)
      ensures ok <==> old(readpos) + size <= |buf|
      ensures ok ==> dst == buf[old(readpos)..old(readpos) + size] && readpos == old(readpos) + size
      ensures !ok ==> readpos == old(readpos)
      ensures ok <==> Take(old(Rest()), size).Some?
      ensures ok ==> Take(old(Rest()), size) == Some((dst, Rest()))
    {
      if |buf| - readpos < size {
        return false, [];
      }
      assert buf[readpos..][..size] == buf[readpos..readpos + size];
      assert buf[readpos..][size..] == buf[readpos + size..];
      dst := buf[readpos..readpos + size];
      readpos := readpos + size;
      return true, dst;
    }

    /** `extract` hands out the buffer and starts over. */
    method Extract() returns (data: Bytes)
      modifies this
      ensures Valid() && data == old(buf) && buf == [] && readpos == 0
    {
      data := buf;
      buf, readpos := [], 0;
    }

    /** The commit of a call overwrites the space reserved at the front. */
    method Overwrite(hdr: Bytes)
      requires Valid() && |hdr| <= |buf|
      modifies this
      ensures Valid() && buf == hdr + old(buf)[|hdr|..] && readpos == old(readpos)
    {
      buf := hdr + buf[|hdr|..];
    }
  }

  method WriteValue(s: Stream, v: Value, t: Type)
    requires s.Valid() && HasType(v, t)
    modifies s
    ensures s.Valid() && s.buf == old(s.buf) + Encode(v, t) && s.readpos == old(s.readpos)
    decreases t, 0
  {
    match t
    case Arithmetic(w) => s.Write(IntBytes(v.n, w));
    case Text =>
      s.Write(IntBytes(|v.chars|, 4));
      s.Write(v.chars);
    case Vector(e) => WriteVector(s, v.elems, e);
    case Tuple(ts) => WriteAll(s, v.elems, ts);
  }

  method WriteVector(s: Stream, vs: seq<Value>, e: Type)
    requires s.Valid() && |vs| < INT_LIMIT && forall i :: 0 <= i < |vs| ==> HasType(vs[i], e)
    modifies s
    ensures s.Valid() && s.buf == old(s.buf) + (IntBytes(|vs|, 4) + EncodeEach(vs, e)) && s.readpos == old(s.readpos)
    decreases e, 1
  {
    s.Write(IntBytes(|vs|, 4));
    ghost var front := s.buf;
    var i := 0;
    while i < |vs|
      invariant 0 <= i <= |vs|
      invariant s.Valid() && s.readpos == old(s.readpos)
      invariant s.buf == front + EncodeEach(vs[..i], e)
    {
      WriteValue(s, vs[i], e);
      EachNext(vs, i, e);
      Associative(front, EncodeEach(vs[..i], e), Encode(vs[i], e));
      i := i + 1;
    }
    assert vs[..i] == vs;
    Associative(old(s.buf), IntBytes(|vs|, 4), EncodeEach(vs, e));
  }

  lemma EachNext(vs: seq<Value>, i: nat, e: Type)
    requires i < |vs| && forall k :: 0 <= k < |vs| ==> HasType(vs[k], e)
    ensures EncodeEach(vs[..i + 1], e) == EncodeEach(vs[..i], e) + Encode(vs[i], e)
  {
    assert vs[..i + 1][..i] == vs[..i];
  }

  method WriteAll(s: Stream, vs: seq<Value>, ts: Types)
    requires s.Valid() && HaveTypes(vs, ts)
    modifies s
    ensures s.Valid() && s.buf == old(s.buf) + EncodeAll(vs, ts) && s.readpos == old(s.readpos)
    decreases ts, 0
  {
    match ts
    case Nil =>
    case Cons(t, rest) =>
      WriteValue(s, vs[0], t);
      WriteAll(s, vs[1..], rest);
  }

  method ReadLength(s: Stream) returns (ok: bool, len: nat)
    requires s.Valid()
    modifies s
    ensures s.Valid() && s.buf == old(s.buf)
    ensures ok <==> TakeLength(old(s.Rest())).Some?
    ensures ok ==> TakeLength(old(s.Rest())) == Some((len, s.Rest()))
  {
    var l;
    ok, l := s.Read(4);
    len := BytesInt(l);
    ok := ok && len < INT_LIMIT;
  }

  method ReadValue(s: Stream, t: Type) returns (ok: bool, v: Value)
    requires s.Valid()
    modifies s
    ensures s.Valid() && s.buf == old(s.buf)
    ensures ok <==> Decode(old(s.Rest()), t).Some?
    ensures ok ==> Decode(old(s.Rest()), t) == Some((v, s.Rest()))
    decreases t, 0
  {
    v := Number(0);
    match t
    case Arithmetic(w) =>
      var x;
      ok, x := s.Read(w);
      v := Number(BytesInt(x));
    case Text =>
      var len;
      ok, len := ReadLength(s);
      if ok {
        var x;
        ok, x := s.Read(len);
        v := Chars(x);
      }
    case Vector(e) =>
      var len;
      ok, len := ReadLength(s);
      if ok {
        ghost var start := s.Rest();
        var vs: seq<Value> := [];
        while |vs| < len
          invariant s.Valid() && s.buf == old(s.buf) && |vs| <= len
          invariant DecodeEach(start, e, |vs|) == Some((vs, s.Rest()))
        {
          var x;
          ok, x := ReadValue(s, e);
          if !ok {
            EachNeedsAll(start, e, |vs| + 1, len);
            return;
          }
          vs := vs + [x];
        }
        v := List(vs);
      }
    case Tuple(ts) =>
      var vs;
      ok, vs := ReadAll(s, ts);
      v := List(vs);
  }

  /** A vector that cannot be read up to some element cannot be read at all. */
  lemma {:induction false} EachNeedsAll(b: Bytes, e: Type, i: nat, len: nat)
    requires i <= len && DecodeEach(b, e, i).None?
    ensures DecodeEach(b, e, len).None?
    decreases len
  {
    if i < len {
      EachNeedsAll(b, e, i, len - 1);
    }
  }

  method ReadAll(s: Stream, ts: Types) returns (ok: bool, vs: seq<Value>)
    requires s.Valid()
    modifies s
    ensures s.Valid() && s.buf == old(s.buf)
    ensures ok <==> DecodeAll(old(s.Rest()), ts).Some?
    ensures ok ==> DecodeAll(old(s.Rest()), ts) == Some((vs, s.Rest()))
    decreases ts, 0
  {
    vs := [];
    match ts
    case Nil => ok := true;
    case Cons(t, more) =>
      var v;
      ok, v := ReadValue(s, t);
      if ok {
        ok, vs := ReadAll(s, more);
        vs := [v] + vs;
      }
  }
}
