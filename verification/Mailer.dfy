/** The mailboxes of a pod: messages are appended as they arrive and taken out either oldest
    first or oldest of one sender first. */
module Mailboxes {
  import opened Basics

  datatype Message = Message(sender: Idp, payload: int)

  /** Position of the oldest message of `source`, or the length of the box. */
  function Find(box: seq<Message>, source: Idp): (i: nat)
    ensures i <= |box| && (i < |box| ==> box[i].sender == source)
    ensures forall k :: 0 <= k < i ==> box[k].sender != source
  {
    if box == [] || box[0].sender == source then 0 else 1 + Find(box[1..], source)
  }

  /** All messages but that at `i`, in their order. */
  function Without(box: seq<Message>, i: nat): (rest: seq<Message>)
    requires i < |box|
    ensures |rest| == |box| - 1
    ensures forall k :: 0 <= k < i ==> rest[k] == box[k]
    ensures forall k :: i <= k < |rest| ==> rest[k] == box[k + 1]
  {
    box[..i] + box[i + 1..]
  }

  /** What a subscript does to a key that is missing. */
  function Box(boxes: map<Idp, seq<Message>>, idp: Idp): (box: seq<Message>)
    ensures idp in boxes ==> box == boxes[idp]
    ensures idp !in boxes ==> box == []
  {
    if idp in boxes then boxes[idp] else []
  }

  class Mailer {
    var mailboxes: map<Idp, seq<Message>>

    constructor ()
      ensures mailboxes == map[]
    {
      mailboxes := map[];
    }

    method CreateMailbox(idp: Idp)
      modifies this
      ensures mailboxes == old(mailboxes)[idp := Box(old(mailboxes), idp)]
    {
      if idp !in mailboxes {
        mailboxes := mailboxes[idp := []];
      }
    }

    method DeleteMailbox(idp: Idp)
      modifies this
      ensures mailboxes == old(mailboxes) - {idp}
    {
      mailboxes := mailboxes - {idp};
    }

    /** `HandleRead` for a regular message. */
    method Insert(idp: Idp, msg: Message)
      modifies this
      ensures mailboxes == old(mailboxes)[idp := Box(old(mailboxes), idp) + [msg]]
    {
      CreateMailbox(idp);
      mailboxes := mailboxes[idp := mailboxes[idp] + [msg]];
    }

    /** `ReceiveMessage(idp)`; without a message it would wait. */
    method Receive(idp: Idp) returns (msg: Option<Message>)
      modifies this
      ensures var box := Box(old(mailboxes), idp);
        if box == [] then msg == None && mailboxes == old(mailboxes)[idp := []]
        else msg == Some(box[0]) && mailboxes == old(mailboxes)[idp := box[1..]]
    {
      CreateMailbox(idp);
      var box := mailboxes[idp];
      if box == [] {
        return None;
      }
      msg := Some(box[0]);
      mailboxes := mailboxes[idp := box[1..]];
    }

    /** `ReceiveMessage(idp, source)`: one scan of the box; if nothing is found, the thread
        waits and scans again. It takes the first message of the sender, every message before
        it keeps its place and every message behind it moves up by one. */
    method ReceiveFrom(idp: Idp, source: Idp) returns (msg: Option<Message>, ghost i: nat)
      modifies this
      ensures var box := Box(old(mailboxes), idp);
        && i <= |box| && (forall k :: 0 <= k < i ==> box[k].sender != source)
        && (i == |box| ==> msg == None && mailboxes == old(mailboxes)[idp := box])
        && (i < |box| ==>
              && box[i].sender == source && msg == Some(box[i])
              && mailboxes == old(mailboxes)[idp := box[..i] + box[i + 1..]])
      ensures i == Find(Box(old(mailboxes), idp), source)
      ensures i < |Box(old(mailboxes), idp)| ==> mailboxes[idp] == Without(Box(old(mailboxes), idp), i)
    {
      CreateMailbox(idp);
      var box := mailboxes[idp];
      var found, at := false, 0;
      msg, i := None, Find(box, source);
      while !found && at < |mailboxes[idp]|
        invariant idp in mailboxes
        invariant !found ==> msg == None && mailboxes == old(mailboxes)[idp := box] && at <= |box|
        invariant !found ==> forall k :: 0 <= k < at ==> box[k].sender != source
        invariant found ==> i < |box| && msg == Some(box[i])
        invariant found ==> mailboxes == old(mailboxes)[idp := box[..i] + box[i + 1..]]
        decreases !found, |box| - at
      {
        if mailboxes[idp][at].sender == source {
          msg := Some(mailboxes[idp][at]);
          mailboxes := mailboxes[idp := mailboxes[idp][..at] + mailboxes[idp][at + 1..]];
          found := true;
        } else {
          at := at + 1;
        }
      }
    }
  }

  // ---- one mailbox over a run -----------------------------------------------------

  /** `arrived` and `received` list the messages in the order they came and were handed out. */
  datatype History = History(box: seq<Message>, arrived: seq<Message>, received: seq<Message>)

  datatype Step = Arrive(msg: Message) | TakeAny | TakeFrom(source: Idp)

  predicate Enabled(h: History, e: Step) {
    match e
    case Arrive(_) => true
    case TakeAny => h.box != []
    case TakeFrom(s) => Find(h.box, s) < |h.box|
  }

  function Taken(h: History, e: Step): (i: nat)
    requires !e.Arrive? && Enabled(h, e)
    ensures i < |h.box|
  {
    if e.TakeAny? then 0 else Find(h.box, e.source)
  }

  function Next(h: History, e: Step): History
    requires Enabled(h, e)
  {
    match e
    case Arrive(m) => h.(box := h.box + [m], arrived := h.arrived + [m])
    case _ => h.(box := Without(h.box, Taken(h, e)), received := h.received + [h.box[Taken(h, e)]])
  }

  ghost predicate IsRun(hs: seq<History>, es: seq<Step>) {
    && |hs| == |es| + 1
    && hs[0] == History([], [], [])
    && forall k :: 0 <= k < |es| ==> StepAt(hs, es, k)
  }

  predicate StepAt(hs: seq<History>, es: seq<Step>, k: nat)
    requires |hs| == |es| + 1 && k < |es|
  {
    Enabled(hs[k], es[k]) && hs[k + 1] == Next(hs[k], es[k])
  }

  /** The messages of one sender. */
  function From(s: seq<Message>, source: Idp): seq<Message> {
    if s == [] then []
    else From(s[..|s| - 1], source) + if s[|s| - 1].sender == source then [s[|s| - 1]] else []
  }

  lemma {:induction false} FromConcat(s: seq<Message>, t: seq<Message>, source: Idp)
    ensures From(s + t, source) == From(s, source) + From(t, source)
  {
    if t == [] {
      assert s + t == s;
    } else {
      assert (s + t)[..|s + t| - 1] == s + t[..|t| - 1];
      FromConcat(s, t[..|t| - 1], source);
    }
  }

  lemma {:induction false} FromNone(s: seq<Message>, source: Idp)
    requires forall k :: 0 <= k < |s| ==> s[k].sender != source
    ensures From(s, source) == []
  {
    if s != [] {
      FromNone(s[..|s| - 1], source);
    }
  }

  lemma FromWithout(left: seq<Message>, m: Message, right: seq<Message>, source: Idp)
    requires m.sender == source ==> forall k :: 0 <= k < |left| ==> left[k].sender != source
    ensures From(left + [m] + right, source) == From([m], source) + From(left + right, source)
  {
    FromConcat(left + [m], right, source);
    FromConcat(left, [m], source);
    FromConcat(left, right, source);
    if m.sender == source {
      FromNone(left, source);
    } else {
      FromNone([m], source);
    }
  }

  /** Taking out a message takes out the oldest one of its sender and nothing else. */
  lemma TakesOldest(h: History, e: Step, source: Idp)
    requires !e.Arrive? && Enabled(h, e)
    ensures var i := Taken(h, e);
      From(h.box, source) == From([h.box[i]], source) + From(Without(h.box, i), source)
  {
    var i := Taken(h, e);
    SplitAt(h.box, i);
    FromWithout(h.box[..i], h.box[i], h.box[i + 1..], source);
  }

  lemma SplitAt(box: seq<Message>, i: nat)
    requires i < |box|
    ensures box == box[..i] + [box[i]] + box[i + 1..]
    ensures multiset(box) == multiset([box[i]]) + multiset(Without(box, i))
  {
    assert box == box[..i] + [box[i]] + box[i + 1..];
  }

  predicate InOrder(h: History, source: Idp) {
    From(h.arrived, source) == From(h.received, source) + From(h.box, source)
  }

  predicate Conserved(h: History) { multiset(h.arrived) == multiset(h.received) + multiset(h.box) }

  lemma ArriveInOrder(h: History, m: Message, source: Idp)
    requires InOrder(h, source)
    ensures InOrder(Next(h, Arrive(m)), source)
  {
    FromConcat(h.arrived, [m], source);
    FromConcat(h.box, [m], source);
  }

  lemma TakeInOrder(h: History, e: Step, source: Idp)
    requires InOrder(h, source) && !e.Arrive? && Enabled(h, e)
    ensures InOrder(Next(h, e), source)
  {
    TakesOldest(h, e, source);
    FromConcat(h.received, [h.box[Taken(h, e)]], source);
  }

  lemma StepConserves(h: History, e: Step)
    requires Conserved(h) && Enabled(h, e)
    ensures Conserved(Next(h, e))
  {
    if !e.Arrive? {
      SplitAt(h.box, Taken(h, e));
    }
  }

  /** Over any interleaving no message is lost or handed out twice, and the messages of each
      sender are handed out in the order in which they arrived. */
  lemma {:induction false} FifoPerSender(hs: seq<History>, es: seq<Step>, k: nat, source: Idp)
    requires IsRun(hs, es) && k < |hs|
    ensures multiset(hs[k].arrived) == multiset(hs[k].received) + multiset(hs[k].box)
    ensures From(hs[k].arrived, source) == From(hs[k].received, source) + From(hs[k].box, source)
  {
    if k > 0 {
      FifoPerSender(hs, es, k - 1, source);
      assert StepAt(hs, es, k - 1);
      StepConserves(hs[k - 1], es[k - 1]);
      match es[k - 1]
      case Arrive(m) => ArriveInOrder(hs[k - 1], m, source);
      case _ => TakeInOrder(hs[k - 1], es[k - 1], source);
    }
  }

  // ---- over all senders -----------------------------------------------------------

  /** The messages in the box are the arrivals at the places `left`, in arrival order, and those
      handed out are the arrivals at the places `gone`; each arrival is in one of the two. */
  ghost predicate Places(h: History, left: seq<nat>, gone: seq<nat>) {
    && |left| == |h.box| && |gone| == |h.received|
    && (forall k :: 0 <= k < |left| ==> left[k] < |h.arrived| && h.box[k] == h.arrived[left[k]])
    && (forall k :: 0 <= k < |gone| ==> gone[k] < |h.arrived| && h.received[k] == h.arrived[gone[k]])
    && (forall j, k :: 0 <= j < k < |left| ==> left[j] < left[k])
    && (forall j, k :: 0 <= j < k < |gone| ==> gone[j] != gone[k])
    && (forall n: nat :: n < |h.arrived| ==> (n in left <==> n !in gone))
  }

  lemma ArrivePlaces(h: History, m: Message, left: seq<nat>, gone: seq<nat>)
    requires Places(h, left, gone)
    ensures Places(Next(h, Arrive(m)), left + [|h.arrived|], gone)
  {
    var left' := left + [|h.arrived|];
    assert left'[|left|] == |h.arrived|;
    assert forall n :: n in left' <==> n in left || n == |h.arrived|;
  }

  lemma TakePlaces(h: History, e: Step, left: seq<nat>, gone: seq<nat>)
    requires Places(h, left, gone) && !e.Arrive? && Enabled(h, e)
    ensures var i := Taken(h, e);
      Places(Next(h, e), left[..i] + left[i + 1..], gone + [left[i]])
  {
    var i := Taken(h, e);
    var left', gone' := left[..i] + left[i + 1..], gone + [left[i]];
    assert gone'[|gone|] == left[i];
    forall n: nat | n < |h.arrived| ensures n in left' <==> n in left && n != left[i] {
      RestContains(left, i, n);
    }
    assert forall n :: n in gone' <==> n in gone || n == left[i];
    assert left[i] in left;
  }

  lemma RestContains(left: seq<nat>, i: nat, n: nat)
    requires i < |left| && forall j, k :: 0 <= j < k < |left| ==> left[j] < left[k]
    ensures n in left[..i] + left[i + 1..] <==> n in left && n != left[i]
  {
    var rest := left[..i] + left[i + 1..];
    assert forall k :: 0 <= k < |rest| ==> rest[k] == left[if k < i then k else k + 1];
    if k :| 0 <= k < |left| && left[k] == n && k != i {
      assert rest[if k < i then k else k - 1] == n;
    }
  }

  lemma {:induction false} PlacesHold(hs: seq<History>, es: seq<Step>, k: nat) returns (left: seq<nat>, gone: seq<nat>)
    requires IsRun(hs, es) && k < |hs|
    ensures Places(hs[k], left, gone)
  {
    left, gone := [], [];
    if k > 0 {
      left, gone := PlacesHold(hs, es, k - 1);
      assert StepAt(hs, es, k - 1);
      match es[k - 1]
      case Arrive(m) =>
        ArrivePlaces(hs[k - 1], m, left, gone);
        left := left + [|hs[k - 1].arrived|];
      case _ =>
        TakePlaces(hs[k - 1], es[k - 1], left, gone);
        var i := Taken(hs[k - 1], es[k - 1]);
        left, gone := left[..i] + left[i + 1..], gone + [left[i]];
    }
  }

  /** Whatever has gone before, receive-any hands out the oldest arrival not yet handed out, and
      receive-from the oldest one of its sender. `gone` are the arrivals handed out before. */
  lemma OldestIsNext(hs: seq<History>, es: seq<Step>, k: nat) returns (n: nat, gone: seq<nat>)
    requires IsRun(hs, es) && k < |es| && !es[k].Arrive?
    ensures n < |hs[k].arrived| && hs[k + 1].received == hs[k].received + [hs[k].arrived[n]]
    ensures |gone| == |hs[k].received|
    ensures forall j :: 0 <= j < |gone| ==> gone[j] < |hs[k].arrived| && hs[k].received[j] == hs[k].arrived[gone[j]]
    ensures n !in gone && forall i, j :: 0 <= i < j < |gone| ==> gone[i] != gone[j]
    ensures es[k].TakeAny? ==> forall m: nat :: m < n ==> m in gone
    ensures es[k].TakeFrom? ==> hs[k].arrived[n].sender == es[k].source
    ensures es[k].TakeFrom? ==> forall m: nat :: m < n && hs[k].arrived[m].sender == es[k].source ==> m in gone
  {
    var left;
    left, gone := PlacesHold(hs, es, k);
    assert StepAt(hs, es, k);
    var h, i := hs[k], Taken(hs[k], es[k]);
    n := left[i];
    assert n in left;
    forall m: nat | m < n && m !in gone ensures es[k].TakeFrom? && h.arrived[m].sender != es[k].source {
      var j :| 0 <= j < |left| && left[j] == m;
      assert j < i;
    }
  }

  /** Arrival `n` is the message of the n-th arrival of the run. */
  lemma {:induction false} ArrivalFrom(hs: seq<History>, es: seq<Step>, k: nat, n: nat) returns (j: nat)
    requires IsRun(hs, es) && k < |hs| && n < |hs[k].arrived|
    ensures j < k && es[j] == Arrive(hs[k].arrived[n]) && |hs[j].arrived| == n
  {
    assert StepAt(hs, es, k - 1);
    if n < |hs[k - 1].arrived| {
      j := ArrivalFrom(hs, es, k - 1, n);
    } else {
      j := k - 1;
    }
  }
}
