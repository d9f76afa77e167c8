/** Calls and their replies: the packed header, the table of pending replies, and the way
    of a call to the server and back. */
module RpcCalls {
  import opened Basics
  import opened RpcCodec

  const TWO_8: nat := 0x100
  const TWO_22: nat := 0x40_0000
  const TWO_32: nat := 0x1_0000_0000

  // ---- the header -----------------------------------------------------------------

  /** The bit fields, each cut to its width when it is assigned. */
  datatype Header = Header(size: nat, counter: nat, rpcid: nat, isReply: bool, success: bool)

  predicate Fits(h: Header) { h.size < TWO_32 && h.counter < TWO_22 && h.rpcid < TWO_8 }

  function NewHeader(size: nat, counter: nat, rpcid: nat): (h: Header)
    ensures Fits(h) && h.size == size % TWO_32 && h.counter == counter % TWO_22 && h.rpcid == rpcid % TWO_8
    ensures !h.isReply && !h.success
  {
    Header(size % TWO_32, counter % TWO_22, rpcid % TWO_8, false, false)
  }

  /** The 64 bits of the header, first field lowest. */
  function Pack(h: Header): (n: nat)
    requires Fits(h)
  {
    h.size + TWO_32 * (h.counter + TWO_22 * (h.rpcid + TWO_8 * Flags(h.isReply, h.success)))
  }

  function Flags(isReply: bool, success: bool): nat {
    (if isReply then 1 else 0) + (if success then 2 else 0)
  }

  function Unpack(n: nat): Header {
    var high := n / TWO_32;
    var flags := high / TWO_22 / TWO_8;
    Header(n % TWO_32, high % TWO_22, high / TWO_22 % TWO_8, flags % 2 == 1, flags / 2 % 2 == 1)
  }

  function Key(h: Header): nat { h.counter * TWO_8 + h.rpcid }

  lemma Split32(low: nat, high: nat)
    requires low < TWO_32
    ensures (low + TWO_32 * high) % TWO_32 == low && (low + TWO_32 * high) / TWO_32 == high
  {}

  lemma Split22(low: nat, high: nat)
    requires low < TWO_22
    ensures (low + TWO_22 * high) % TWO_22 == low && (low + TWO_22 * high) / TWO_22 == high
  {}

  lemma Split8(low: nat, high: nat)
    requires low < TWO_8
    ensures (low + TWO_8 * high) % TWO_8 == low && (low + TWO_8 * high) / TWO_8 == high
  {}

  /** Unpacking undoes packing, and a packed header fits its 8 bytes. */
  lemma HeaderRoundTrip(h: Header)
    requires Fits(h)
    ensures Unpack(Pack(h)) == h && Pack(h) < 0x1_0000_0000_0000_0000
  {
    var flags := Flags(h.isReply, h.success);
    var upper := h.rpcid + TWO_8 * flags;
    var high := h.counter + TWO_22 * upper;
    Split32(h.size, high);
    Split22(h.counter, upper);
    Split8(h.rpcid, flags);
    FlagsRoundTrip(h.isReply, h.success);
  }

  lemma FlagsRoundTrip(isReply: bool, success: bool)
    ensures var f := Flags(isReply, success); f < 4 && (f % 2 == 1 <==> isReply) && (f / 2 % 2 == 1 <==> success)
  {}

  /** The key holds the rpc in its low 8 bits and the counter above: it tells them apart. */
  lemma KeyInjective(g: Header, h: Header)
    requires Fits(g) && Fits(h)
    ensures Key(g) / 0x100 == g.counter && Key(g) % 0x100 == g.rpcid
    ensures Key(g) == Key(h) <==> g.counter == h.counter && g.rpcid == h.rpcid
    ensures Key(g) < 0x4000_0000
  {}

  // ---- on the wire ----------------------------------------------------------------

  function HeaderBytes(h: Header): Bytes
    requires Fits(h)
  {
    IntBytes(Pack(h), 8)
  }

  /** The header on the wire: the size in its first four bytes; in the others, from the lowest
      bit on, 22 bits of counter, 8 bits of rpc and the two flags. */
  lemma HeaderLayout(h: Header)
    requires Fits(h)
    ensures var b := HeaderBytes(h);
      && |b| == 8 && Word(b, 0) == h.size
      && Word(b, 4) == h.counter + 0x40_0000 * h.rpcid
                       + (if h.isReply then 0x4000_0000 else 0) + (if h.success then 0x8000_0000 else 0)
  {
    var high := h.counter + TWO_22 * (h.rpcid + TWO_8 * Flags(h.isReply, h.success));
    LowWord(Pack(h), 8);
    Split32(h.size, high);
    HighWord(h.counter, h.rpcid, h.isReply, h.success);
    LowWord(high, 4);
    WordBehind(HeaderBytes(h), 4);
  }

  lemma HighWord(counter: nat, rpcid: nat, isReply: bool, success: bool)
    requires counter < TWO_22 && rpcid < TWO_8
    ensures var high := counter + TWO_22 * (rpcid + TWO_8 * Flags(isReply, success));
      && high % TWO_32 == high
      && high == counter + 0x40_0000 * rpcid
                 + (if isReply then 0x4000_0000 else 0) + (if success then 0x8000_0000 else 0)
  {}

  lemma WordBehind(b: Bytes, at: nat)
    requires at + 4 <= |b|
    ensures Word(b, at) == Word(b[at..], 0)
  {}

  /** A message is its header and its body. */
  lemma MessageLayout(h: Header, body: Bytes)
    requires Fits(h)
    ensures var m := HeaderBytes(h) + body;
      && |m| == 8 + |body| && m[8..] == body
      && Word(m, 0) == h.size
      && Word(m, 4) == h.counter + 0x40_0000 * h.rpcid
                       + (if h.isReply then 0x4000_0000 else 0) + (if h.success then 0x8000_0000 else 0)
  {
    HeaderLayout(h);
  }

  /** What a peer reads first from every message. */
  function ReadHeader(b: Bytes): Option<(Header, Bytes)> {
    match Take(b, 8)
    case None => None
    case Some((x, rest)) => Some((Unpack(BytesInt(x)), rest))
  }

  lemma HeaderOnWire(h: Header, rest: Bytes)
    requires Fits(h)
    ensures ReadHeader(HeaderBytes(h) + rest) == Some((h, rest))
  {
    HeaderRoundTrip(h);
    TakeWritten(HeaderBytes(h), rest);
    assert Pow256(8) == 0x1_0000_0000_0000_0000 by {
      assert Pow256(4) == TWO_32 && Pow256(6) == 256 * (256 * Pow256(4));
    }
    IntRoundTrip(Pack(h), 8);
  }

  lemma HeaderThenBody(h: Header, body: Bytes, trailing: Bytes)
    requires Fits(h)
    ensures ReadHeader(HeaderBytes(h) + body + trailing) == Some((h, body + trailing))
  {
    Associative(HeaderBytes(h), body, trailing);
    HeaderOnWire(h, body + trailing);
  }

  /** The message of a call: header in the reserved space, then the arguments. */
  function CallMessage(counter: nat, rpcid: nat, args: seq<Value>, ts: Types): Bytes
    requires HaveTypes(args, ts)
  {
    var body := EncodeAll(args, ts);
    HeaderBytes(NewHeader(8 + |body|, counter, rpcid)) + body
  }

  /** The header of a reply: that of the call with the flags and the size set. */
  function ReplyHeader(h: Header, size: nat, success: bool): (r: Header)
    requires Fits(h)
    ensures Fits(r) && r.size == size % TWO_32 && r.isReply && r.success == success && Key(r) == Key(h)
  {
    h.(isReply := true, success := success, size := size % TWO_32)
  }

  /** `Send::result` and `Send::error`: the result, or the text of the error. */
  function ReplyMessage(h: Header, result: Value, t: Type, success: bool): Bytes
    requires Fits(h) && HasType(result, t)
  {
    var body := Encode(result, t);
    HeaderBytes(ReplyHeader(h, 8 + |body|, success)) + body
  }

  lemma CallOnWire(counter: nat, rpcid: nat, args: seq<Value>, ts: Types, trailing: Bytes)
    requires HaveTypes(args, ts)
    ensures var body := EncodeAll(args, ts);
      ReadHeader(CallMessage(counter, rpcid, args, ts) + trailing)
      == Some((NewHeader(8 + |body|, counter, rpcid), body + trailing))
  {
    var body := EncodeAll(args, ts);
    HeaderThenBody(NewHeader(8 + |body|, counter, rpcid), body, trailing);
  }

  /** The server finds the size of the message, the rpc and exactly the arguments of the call,
      and has then consumed the whole message; bytes that follow it would be left alone. */
  lemma CallReachesServer(counter: nat, rpcid: nat, args: seq<Value>, ts: Types, trailing: Bytes)
    requires HaveTypes(args, ts) && rpcid < TWO_8
    ensures exists h: Header, rest: Bytes ::
      && ReadHeader(CallMessage(counter, rpcid, args, ts) + trailing) == Some((h, rest))
      && h.size == |CallMessage(counter, rpcid, args, ts)| % TWO_32
      && !h.isReply && !h.success && h.rpcid == rpcid && h.counter == counter % TWO_22 && Fits(h)
      && DecodeAll(rest, ts) == Some((args, trailing))
  {
    var body := EncodeAll(args, ts);
    CallOnWire(counter, rpcid, args, ts, trailing);
    RoundTripAll(args, ts, trailing);
    SmallRemainder(rpcid);
  }

  lemma SmallRemainder(n: nat)
    requires n < TWO_8
    ensures n % TWO_8 == n
  {}

  /** The reply carries its size, the key of its call and exactly the result. */
  lemma ReplyReachesCaller(h: Header, result: Value, t: Type, success: bool)
    requires Fits(h) && HasType(result, t)
    ensures var m := ReplyMessage(h, result, t, success);
      var r := ReadHeader(m);
      && r.Some? && r.value.0.size == |m| % TWO_32
      && r.value.0.isReply && r.value.0.success == success && Key(r.value.0) == Key(h)
      && Decode(r.value.1, t) == Some((result, []))
  {
    var body := Encode(result, t);
    HeaderOnWire(ReplyHeader(h, 8 + |body|, success), body);
    RoundTrip(result, t, []);
    assert body + [] == body;
  }

  /** The 32-bit counter cut to 22 bits counts like an unbounded one cut to 22 bits. */
  lemma WrapsTogether(n: nat)
    ensures n % TWO_32 % TWO_22 == n % TWO_22
  {
    var q := n / TWO_32;
    assert n == TWO_22 * (0x400 * q) + n % TWO_32;
    ModShift(n % TWO_32, 0x400 * q);
  }

  lemma ModShift(r: nat, q: nat)
    ensures (r + TWO_22 * q) % TWO_22 == r % TWO_22
  {}

  lemma Completed(reserved: Bytes, body: Bytes)
    requires |reserved| == 8
    ensures |reserved + body| == 8 + |body| && (reserved + body)[8..] == body
  {}

  // ---- pending replies ------------------------------------------------------------

  /** The caller's table. Handlers are named by the number of their call; `rpcids[n - 1]` is
      the rpc of call `n`, `open` the calls neither answered nor aborted, and `fired` the
      handlers run so far. */
  datatype Calls = Calls(counter: nat, replies: map<nat, nat>, rpcids: seq<nat>, open: set<nat>, fired: seq<nat>)

  const NO_CALLS: Calls := Calls(0, map[], [], {}, [])

  function CallKey(n: nat, rpcid: nat): (key: nat)
    ensures key / 0x100 == n % TWO_22 && key % 0x100 == rpcid % TWO_8
  {
    KeyInjective(NewHeader(0, n, rpcid), NewHeader(0, n, rpcid));
    Key(NewHeader(0, n, rpcid))
  }

  /** `commit`. */
  function Commit(c: Calls, rpcid: nat): Calls {
    var counter := (c.counter + 1) % TWO_32;
    var n := |c.rpcids| + 1;
    Calls(counter, c.replies[CallKey(counter, rpcid) := n], c.rpcids + [rpcid], c.open + {n}, c.fired)
  }

  /** `processReply` for a reply with this key, which must be in the table. */
  function ProcessReply(c: Calls, key: nat): Calls
    requires key in c.replies
  {
    var n := c.replies[key];
    c.(replies := c.replies - {key}, open := c.open - {n}, fired := c.fired + [n])
  }

  /** `abortReplies` runs every pending handler, in some order. */
  ghost predicate Aborts(c: Calls, c': Calls) {
    && c' == c.(replies := map[], open := {}, fired := c'.fired)
    && |c.fired| <= |c'.fired| && c'.fired[..|c.fired|] == c.fired
    && multiset(c'.fired[|c.fired|..]) == multiset(c.replies.Values)
  }

  datatype Event = Committed(rpcid: nat) | Replied(call: nat) | Aborted

  ghost predicate Step(c: Calls, e: Event, c': Calls) {
    match e
    case Committed(rpcid) => c' == Commit(c, rpcid)
    case Replied(n) =>
      // a reply comes once, to a call that is still open, with the key of that call
      && n in c.open && 0 < n <= |c.rpcids|
      && CallKey(n, c.rpcids[n - 1]) in c.replies
      && c' == ProcessReply(c, CallKey(n, c.rpcids[n - 1]))
    case Aborted => Aborts(c, c')
  }

  /** No call is still open when 2^22 calls have been committed after it. */
  predicate Young(c: Calls) {
    forall n :: n in c.open ==> |c.rpcids| + 1 - n < TWO_22
  }

  predicate HasHandler(c: Calls, n: nat)
    requires 0 < n <= |c.rpcids|
  {
    var key := CallKey(n, c.rpcids[n - 1]);
    key in c.replies && c.replies[key] == n
  }

  /** The table holds exactly the open calls, each under its own key. */
  ghost predicate Pending(c: Calls) {
    && c.counter == |c.rpcids| % TWO_32
    && (forall n :: n in c.open ==> 0 < n <= |c.rpcids|)
    && (forall n :: n in c.open ==> HasHandler(c, n))
    && (forall k :: k in c.replies ==>
          c.replies[k] in c.open && CallKey(c.replies[k], c.rpcids[c.replies[k] - 1]) == k)
  }

  lemma KeyOfCounter(n: nat, rpcid: nat)
    ensures CallKey(n % TWO_32, rpcid) == CallKey(n, rpcid)
  {
    WrapsTogether(n);
  }

  /** A new call takes the key of an open one exactly if it has the same rpc and a multiple
      of 2^22 calls lies between them: then the older handler is lost. */
  lemma CommitOverwritesExactly(c: Calls, rpcid: nat, m: nat)
    requires Pending(c) && m in c.open
    ensures var n := |c.rpcids| + 1;
      Commit(c, rpcid).replies[CallKey(m, c.rpcids[m - 1])] != m
      <==> (c.rpcids[m - 1] % TWO_8 == rpcid % TWO_8 && (n - m) % TWO_22 == 0)
  {
    var n := |c.rpcids| + 1;
    NextCounter(c);
    KeyOfCounter(n, rpcid);
    KeyInjective(NewHeader(0, m, c.rpcids[m - 1]), NewHeader(0, n, rpcid));
    SameModulo(m, n);
  }

  lemma NextCounter(c: Calls)
    requires Pending(c)
    ensures (c.counter + 1) % TWO_32 == (|c.rpcids| + 1) % TWO_32
  {}

  lemma SameModulo(m: nat, n: nat)
    requires m <= n
    ensures m % TWO_22 == n % TWO_22 <==> (n - m) % TWO_22 == 0
  {}

  /** Among calls less than 2^22 apart the 30-bit keys are distinct. */
  lemma YoungKeysDistinct(m: nat, n: nat, a: nat, b: nat)
    requires 0 < n - m < TWO_22
    ensures CallKey(m, a) != CallKey(n, b)
  {
    KeyInjective(NewHeader(0, m, a), NewHeader(0, n, b));
    SameModulo(m, n);
  }

  lemma CommitPending(c: Calls, rpcid: nat)
    requires Pending(c) && Young(c)
    ensures Pending(Commit(c, rpcid)) && (Accounted(c) ==> Accounted(Commit(c, rpcid)))
  {
    var c', n := Commit(c, rpcid), |c.rpcids| + 1;
    NextCounter(c);
    KeyOfCounter(n, rpcid);
    forall m | m in c.open ensures CallKey(m, c.rpcids[m - 1]) != CallKey(n, rpcid) {
      YoungKeysDistinct(m, n, c.rpcids[m - 1], rpcid);
    }
    forall m | m in c'.open ensures HasHandler(c', m) {
      assert m != n ==> c'.rpcids[m - 1] == c.rpcids[m - 1];
    }
  }

  /** A handler has fired at most once, and only if its call is no longer open. */
  ghost predicate FiredOnce(c: Calls) {
    && (forall i, j :: 0 <= i < j < |c.fired| ==> c.fired[i] != c.fired[j])
    && (forall i :: 0 <= i < |c.fired| ==> c.fired[i] !in c.open && c.fired[i] <= |c.rpcids|)
  }

  lemma ReplyPending(c: Calls, n: nat, c': Calls)
    requires Pending(c) && FiredOnce(c) && Step(c, Replied(n), c')
    ensures Pending(c') && FiredOnce(c') && (Accounted(c) ==> Accounted(c'))
    ensures c'.fired == c.fired + [n] && c'.open == c.open - {n} && c'.rpcids == c.rpcids
  {
    var key := CallKey(n, c.rpcids[n - 1]);
    assert c.replies[key] == n;
  }

  lemma AbortPending(c: Calls, c': Calls)
    requires Pending(c) && FiredOnce(c) && Step(c, Aborted, c')
    ensures Pending(c') && FiredOnce(c') && c'.open == {} && c'.rpcids == c.rpcids
    ensures multiset(c'.fired) == multiset(c.fired) + multiset(c.open)
  {
    var late := c'.fired[|c.fired|..];
    assert c'.fired == c.fired + late;
    forall n ensures n in c.replies.Values <==> n in c.open {
      if n in c.open {
        assert c.replies[CallKey(n, c.rpcids[n - 1])] == n;
      }
    }
    assert c.replies.Values == c.open;
    forall i | 0 <= i < |late| ensures late[i] in c.open {
      assert late[i] in multiset(late);
    }
    NoRepeats(late, c.open);
    forall i, j | 0 <= i < j < |c'.fired| ensures c'.fired[i] != c'.fired[j] {
      if i >= |c.fired| {
        assert c'.fired[i] == late[i - |c.fired|] && c'.fired[j] == late[j - |c.fired|];
      } else if j >= |c.fired| {
        assert c'.fired[j] == late[j - |c.fired|];
      }
    }
    forall i | 0 <= i < |c'.fired| ensures c'.fired[i] <= |c.rpcids| {
      if i >= |c.fired| {
        assert c'.fired[i] == late[i - |c.fired|];
      }
    }
  }

  lemma AbortAccounted(c: Calls, c': Calls)
    requires Accounted(c) && c'.open == {} && c'.rpcids == c.rpcids
    requires multiset(c'.fired) == multiset(c.fired) + multiset(c.open)
    ensures Accounted(c')
  {
    forall n ensures n in c'.fired <==> n in c.open || n in c.fired {
      assert n in c'.fired <==> n in multiset(c'.fired);
    }
  }

  lemma NoRepeats(s: seq<nat>, all: set<nat>)
    requires multiset(s) == multiset(all)
    ensures forall i, j :: 0 <= i < j < |s| ==> s[i] != s[j]
  {
    forall i, j | 0 <= i < j < |s| ensures s[i] != s[j] {
      RepeatsCount(s, i, j);
    }
  }

  lemma RepeatsCount(s: seq<nat>, i: nat, j: nat)
    requires i < j < |s|
    ensures s[i] == s[j] ==> multiset(s)[s[i]] >= 2
  {
    assert s == s[..i] + [s[i]] + s[i + 1..j] + [s[j]] + s[j + 1..];
  }

  /** Every call that was committed is still open or its handler has run. */
  ghost predicate Accounted(c: Calls) {
    forall n :: n in c.open || n in c.fired <==> 0 < n <= |c.rpcids|
  }

  ghost predicate IsCallRun(cs: seq<Calls>, es: seq<Event>) {
    && |cs| == |es| + 1
    && cs[0] == NO_CALLS
    && forall k :: 0 <= k < |es| ==> Step(cs[k], es[k], cs[k + 1]) && (es[k].Committed? ==> Young(cs[k]))
  }

  /** If fewer than 2^22 further calls are committed while a call is open, every reply runs
      the handler of the very call it answers, every handler runs at most once, by a reply or
      by an abort, and until then stays in the table. */
  lemma {:induction false} RepliesFindTheirCalls(cs: seq<Calls>, es: seq<Event>, k: nat)
    requires IsCallRun(cs, es) && k < |cs|
    ensures Pending(cs[k]) && FiredOnce(cs[k]) && Accounted(cs[k])
    ensures k > 0 ==> cs[k].rpcids == cs[k - 1].rpcids + (if es[k - 1].Committed? then [es[k - 1].rpcid] else [])
    ensures k > 0 && es[k - 1].Committed? ==> cs[k].fired == cs[k - 1].fired
    ensures k > 0 && es[k - 1].Replied? ==> cs[k].fired == cs[k - 1].fired + [es[k - 1].call]
  {
    if k > 0 {
      RepliesFindTheirCalls(cs, es, k - 1);
      var c, e := cs[k - 1], es[k - 1];
      assert Step(c, e, cs[k - 1 + 1]);
      match e
      case Committed(rpcid) => CommitPending(c, rpcid);
      case Replied(n) => ReplyPending(c, n, cs[k]);
      case Aborted =>
        AbortPending(c, cs[k]);
        AbortAccounted(c, cs[k]);
    }
  }

  /** As many calls of one rpc as the counter has values, none of them answered. */
  lemma {:induction false} UnansweredCalls(rpcid: nat, n: nat) returns (cs: seq<Calls>, es: seq<Event>)
    requires n <= TWO_22
    ensures IsCallRun(cs, es) && |es| == n
    ensures cs[n].rpcids == seq(n, _ => rpcid) && forall m: nat :: m in cs[n].open <==> 0 < m <= n
  {
    if n == 0 {
      cs, es := [NO_CALLS], [];
    } else {
      cs, es := UnansweredCalls(rpcid, n - 1);
      var c := cs[n - 1];
      cs, es := cs + [Commit(c, rpcid)], es + [Committed(rpcid)];
      assert Step(c, Committed(rpcid), Commit(c, rpcid));
      assert seq(n - 1, _ => rpcid) + [rpcid] == seq(n, _ => rpcid);
    }
  }

  /** One call more, and the handler of the first one is lost while its call is still open. */
  lemma OverwritingHappens(rpcid: nat) returns (cs: seq<Calls>, es: seq<Event>)
    ensures IsCallRun(cs, es)
    ensures var c := cs[|es|];
      && 1 in c.open && |c.rpcids| > 0 && CallKey(1, c.rpcids[0]) in c.replies
      && c.replies[CallKey(1, c.rpcids[0])] == 1
      && Commit(c, rpcid).replies[CallKey(1, c.rpcids[0])] != 1
  {
    cs, es := UnansweredCalls(rpcid, TWO_22);
    var c := cs[|es|];
    RepliesFindTheirCalls(cs, es, |es|);
    assert HasHandler(c, 1) && c.rpcids[0] == rpcid && |c.rpcids| == TWO_22;
    CommitOverwritesExactly(c, rpcid, 1);
  }

  // ---- the processor itself -------------------------------------------------------

  /** `BaseOutProcessor`: the counter and the table, under one mutex. */
  class OutProcessor {
    var counter: nat
    var replies: map<nat, nat>

    constructor ()
      ensures counter == 0 && replies == map[]
    {
      counter, replies := 0, map[];
    }

    /** Completes the header in the space reserved at the front of the call's stream, enters
        the handler and hands out the bytes to send. */
    method Commit(s: Stream, rpcid: nat, handler: nat) returns (data: Bytes)
      requires s.Valid() && |s.buf| >= 8
      modifies this, s
      ensures counter == (old(counter) + 1) % TWO_32
      ensures replies == old(replies)[CallKey(counter, rpcid) := handler]
      ensures data == HeaderBytes(NewHeader(|old(s.buf)|, counter, rpcid)) + old(s.buf)[8..]
      ensures |data| == |old(s.buf)| && data[8..] == old(s.buf)[8..]
      ensures Word(data, 0) == |data| % TWO_32
      ensures Word(data, 4) == counter % TWO_22 + TWO_22 * (rpcid % TWO_8)
    {
      counter := (counter + 1) % TWO_32;
      var hdr := NewHeader(|s.buf|, counter, rpcid);
      s.Overwrite(HeaderBytes(hdr));
      replies := replies[Key(hdr) := handler];
      MessageLayout(hdr, old(s.buf)[8..]);
      data := s.Extract();
    }

    /** A whole call: reserve the header, write the arguments in order, commit. */
    method Call(rpcid: nat, args: seq<Value>, ts: Types, handler: nat) returns (data: Bytes)
      requires HaveTypes(args, ts)
      modifies this
      ensures counter == (old(counter) + 1) % TWO_32
      ensures replies == old(replies)[CallKey(counter, rpcid) := handler]
      ensures data == CallMessage(counter, rpcid, args, ts)
      ensures |data| >= 8 && data[8..] == EncodeAll(args, ts)
      ensures Word(data, 0) == |data| % TWO_32
      ensures Word(data, 4) == counter % TWO_22 + TWO_22 * (rpcid % TWO_8)
    {
      var reserved: Bytes := IntBytes(0, 8);
      var s := new Stream(reserved);
      WriteAll(s, args, ts);
      data := Commit(s, rpcid, handler);
      Completed(reserved, EncodeAll(args, ts));
    }

    /** Finds and removes the handler; the code asserts that there is one. */
    method ProcessReply(hdr: Header) returns (found: bool, handler: nat)
      modifies this
      ensures counter == old(counter) && replies == old(replies) - {Key(hdr)}
      ensures found <==> Key(hdr) in old(replies)
      ensures found ==> handler == old(replies)[Key(hdr)]
    {
      if Key(hdr) !in replies {
        return false, 0;
      }
      found, handler := true, replies[Key(hdr)];
      replies := replies - {Key(hdr)};
    }

    /** Empties the table and runs every handler that was in it once. */
    method AbortReplies() returns (handlers: seq<nat>, ghost keys: seq<nat>)
      modifies this
      ensures counter == old(counter) && replies == map[]
      ensures |handlers| == |keys| && multiset(keys) == multiset(old(replies).Keys)
      ensures forall i :: 0 <= i < |keys| ==> keys[i] in old(replies) && handlers[i] == old(replies)[keys[i]]
    {
      var taken := replies;
      replies := map[];
      handlers, keys := [], [];
      var rest := taken.Keys;
      while rest != {}
        invariant rest <= taken.Keys && |handlers| == |keys| && replies == map[] && counter == old(counter)
        invariant multiset(keys) == multiset(taken.Keys - rest)
        invariant forall i :: 0 <= i < |keys| ==> keys[i] in taken && handlers[i] == taken[keys[i]]
        decreases |rest|
      {
        var k :| k in rest;
        assert taken.Keys - (rest - {k}) == (taken.Keys - rest) + {k};
        handlers, keys, rest := handlers + [taken[k]], keys + [k], rest - {k};
      }
      assert taken.Keys - rest == taken.Keys;
    }
  }
}
