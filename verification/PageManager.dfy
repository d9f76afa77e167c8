/** Resource ids: every pod cuts its ids from pages of 256, the main manager cuts the pages
    downwards from the top of the 32-bit range and hands one to each pod that asks. */
module Pages {
  import opened Basics

  const TWO_24: nat := 0x100_0000
  const TWO_32: nat := 0x1_0000_0000
  const PAGE_SIZE: nat := 0x100
  const FIRST_PAGE: nat := 0xffff_ff00

  /** Unsigned 32-bit subtraction. */
  function Sub(a: nat, b: nat): (r: nat) { (a - b) % TWO_32 }

  // ---- one manager ----------------------------------------------------------------

  /** The fields of `PageManager`. Those not set yet are 0. */
  datatype Manager = Manager(isMain: bool, current: nat, next: nat, counter: nat, requested: bool)

  function NewManager(isMain: bool): Manager { Initialised(Manager(isMain, 0, 0, 0, false)) }

  /** `CreateInitialContext`. */
  function Initialised(m: Manager): Manager {
    if m.isMain then m.(current := FIRST_PAGE, next := FIRST_PAGE - PAGE_SIZE, counter := 0)
    else m.(counter := PAGE_SIZE)
  }

  predicate CanGenerate(m: Manager) { m.counter < PAGE_SIZE || m.isMain }

  predicate TurnsPage(m: Manager) { m.counter >= PAGE_SIZE && m.isMain }

  function Turned(m: Manager): Manager {
    if TurnsPage(m) then m.(current := m.next, next := Sub(m.next, PAGE_SIZE), counter := 0) else m
  }

  /** The id that the manager gives out next. */
  function NextId(m: Manager): nat { Sub(Turned(m).current, Turned(m).counter) }

  function Generate(m: Manager): Manager { Turned(m).(counter := Turned(m).counter + 1) }

  function CutPage(m: Manager): Manager { m.(next := Sub(m.next, PAGE_SIZE)) }

  function UpdatePage(m: Manager, page: nat): Manager { m.(current := page, counter := 0) }

  class PageManager {
    const isMain: bool
    var currentPage: nat
    var nextPage: nat
    var idsCounter: nat
    var pageRequested: bool

    function Abs(): Manager reads this { Manager(isMain, currentPage, nextPage, idsCounter, pageRequested) }

    constructor (first: bool)
      ensures isMain == first && currentPage == 0 && nextPage == 0 && idsCounter == 0 && !pageRequested
      ensures Abs() == Manager(first, 0, 0, 0, false)
    {
      isMain, currentPage, nextPage, idsCounter, pageRequested := first, 0, 0, 0, false;
    }

    method CreateInitialContext()
      modifies this`currentPage, this`nextPage, this`idsCounter
      ensures isMain ==> currentPage == 0xffff_ff00 && nextPage == 0xffff_fe00 && idsCounter == 0
      ensures !isMain ==> currentPage == old(currentPage) && nextPage == old(nextPage) && idsCounter == 0x100
      ensures Abs() == Initialised(old(Abs()))
    {
      if isMain {
        currentPage, nextPage, idsCounter := 0xffff_ff00, 0xffff_fe00, 0;
      } else {
        idsCounter := 0x100;
      }
    }

    /** `GenerateIdp` until it returns or waits; it says whether it sent a page request. A
        thread that is woken starts over. */
    method GenerateIdp() returns (generated: bool, id: nat, sends: bool)
      modifies this
      ensures generated <==> old(idsCounter) < 0x100 || isMain
      ensures old(idsCounter) < 0x100 ==>
                && id == (old(currentPage) - old(idsCounter)) % 0x1_0000_0000
                && currentPage == old(currentPage) && nextPage == old(nextPage) && idsCounter == old(idsCounter) + 1
      ensures old(idsCounter) >= 0x100 && isMain ==>
                && id == old(nextPage) % 0x1_0000_0000
                && currentPage == old(nextPage) && idsCounter == 1
                && nextPage == (old(nextPage) - 0x100) % 0x1_0000_0000
      ensures pageRequested == (old(pageRequested) || !generated) && (sends <==> !generated && !old(pageRequested))
      ensures !generated ==>
                currentPage == old(currentPage) && nextPage == old(nextPage) && idsCounter == old(idsCounter)
      ensures generated <==> CanGenerate(old(Abs()))
      ensures generated ==> !sends && id == NextId(old(Abs())) && Abs() == Generate(old(Abs()))
      ensures !generated ==> Abs() == old(Abs()).(requested := true) && (sends <==> !old(pageRequested))
    {
      sends := false;
      while idsCounter >= PAGE_SIZE
        invariant !sends && (Abs() == old(Abs()) || (TurnsPage(old(Abs())) && Abs() == Turned(old(Abs()))))
        decreases idsCounter
      {
        if isMain {
          currentPage := nextPage;
          nextPage := Sub(nextPage, PAGE_SIZE);
          idsCounter := 0;
        } else {
          if !pageRequested {
            sends := true;
            pageRequested := true;
          }
          return false, 0, sends;
        }
      }
      generated, id := true, Sub(currentPage, idsCounter);
      idsCounter := idsCounter + 1;
    }

    method GeneratePage() returns (page: nat)
      requires isMain
      modifies this`nextPage
      ensures nextPage == (old(nextPage) - 0x100) % 0x1_0000_0000
      ensures page == old(nextPage) && Abs() == CutPage(old(Abs()))
    {
      page := nextPage;
      nextPage := Sub(nextPage, PAGE_SIZE);
    }

    method ReceivePage(page: nat)
      modifies this`currentPage, this`idsCounter
      ensures currentPage == page && idsCounter == 0
      ensures Abs() == UpdatePage(old(Abs()), page)
    {
      currentPage := page;
      idsCounter := 0;
    }
  }

  // ---- arithmetic of pages --------------------------------------------------------

  /** Page `q`, counted from 0 in the order the main manager cuts them. */
  function PageAt(q: nat): nat { (FIRST_PAGE - PAGE_SIZE * q) % TWO_32 }

  function IdAt(q: nat, c: nat): nat { (FIRST_PAGE - PAGE_SIZE * q - c) % TWO_32 }

  lemma SubAfterMod(x: int, b: nat)
    ensures (x % TWO_32 - b) % TWO_32 == (x - b) % TWO_32
  {
    Congruent(x % TWO_32 - b, x - b, x / TWO_32);
  }

  lemma Congruent(x: int, y: int, q: int)
    requires y == x + TWO_32 * q
    ensures x % TWO_32 == y % TWO_32
  {}

  lemma PageSteps(q: nat)
    ensures Sub(PageAt(q), PAGE_SIZE) == PageAt(q + 1)
  {
    SubAfterMod(FIRST_PAGE - PAGE_SIZE * q, PAGE_SIZE);
  }

  lemma IdInPage(q: nat, c: nat)
    ensures Sub(PageAt(q), c) == IdAt(q, c)
  {
    SubAfterMod(FIRST_PAGE - PAGE_SIZE * q, c);
  }

  /** Two places yield the same id exactly if their pages are a multiple of 2^24 apart. */
  lemma SameIdExactly(q: nat, c: nat, q': nat, c': nat)
    requires q <= q' && c < PAGE_SIZE && c' < PAGE_SIZE
    ensures IdAt(q, c) == IdAt(q', c') <==> c == c' && (q' - q) % TWO_24 == 0
  {
    var x, x' := FIRST_PAGE - PAGE_SIZE * q - c, FIRST_PAGE - PAGE_SIZE * q' - c';
    var k := x / TWO_32 - x' / TWO_32;
    if IdAt(q, c) == IdAt(q', c') {
      assert PAGE_SIZE * (q' - q) + (c' - c) == TWO_32 * k;
      assert c' - c == PAGE_SIZE * (TWO_24 * k - (q' - q));
      assert q' - q == TWO_24 * k;
    }
    if c == c' && (q' - q) % TWO_24 == 0 {
      Congruent(x', x, (q' - q) / TWO_24);
    }
  }

  /** Only the first id of every 2^24-th page is that of the meta domain. */
  lemma MetaDomainExactly(q: nat, c: nat)
    requires c < PAGE_SIZE
    ensures IdAt(q, c) == META_DOMAIN <==> c == 0 && (q + 1) % TWO_24 == 0
  {
    if q >= TWO_24 - 1 {
      SameIdExactly(TWO_24 - 1, 0, q, c);
      assert IdAt(TWO_24 - 1, 0) == META_DOMAIN;
      OneTurnMore(q - (TWO_24 - 1));
    } else {
      assert 0 < FIRST_PAGE - PAGE_SIZE * q - c < TWO_32;
      assert 0 < q + 1 < TWO_24;
    }
  }

  lemma OneTurnMore(n: nat)
    ensures (n + TWO_24) % TWO_24 == n % TWO_24
  {}

  // ---- all pods -------------------------------------------------------------------

  /** Id number `at` of page `page`, given out by `pod`. */
  datatype Issue = Issue(pod: nat, page: nat, at: nat, id: nat)

  datatype Reply = Reply(page: nat, number: nat)

  /** Pod 0 has the main manager. `requests` and `replies` are the messages under way, by the
      pod that asked. `owner[q]` is the pod that page `q` was cut for, `held[p]` the page
      that pod `p` cuts its ids from, or -1, and `issued` all ids given out so far. */
  datatype World = World(pods: seq<Manager>, requests: set<nat>, replies: map<nat, Reply>,
                         owner: seq<nat>, held: seq<int>, issued: seq<Issue>)

  function Start(n: nat): World {
    World(seq(n, i => NewManager(i == 0)), {}, map[], [0], seq(n, i => if i == 0 then 0 else -1), [])
  }

  datatype Step = GenerateOn(pod: nat) | Ask(pod: nat) | Cut(pod: nat) | Deliver(pod: nat)

  predicate Enabled(w: World, e: Step) {
    && e.pod < |w.pods| == |w.held|
    && match e
       case GenerateOn(p) => CanGenerate(w.pods[p])
       case Ask(p) => !CanGenerate(w.pods[p])
       case Cut(p) => p in w.requests
       case Deliver(p) => p in w.replies
  }

  /** The page of the next id of pod `p`. */
  function PageInUse(w: World, p: nat): int
    requires p < |w.pods| == |w.held|
  {
    if TurnsPage(w.pods[p]) then |w.owner| else w.held[p]
  }

  function Next(w: World, e: Step): World
    requires Enabled(w, e)
  {
    var p := e.pod;
    match e
    case GenerateOn(_) =>
      var q := PageInUse(w, p);
      w.(pods := w.pods[p := Generate(w.pods[p])],
         owner := if TurnsPage(w.pods[p]) then w.owner + [p] else w.owner,
         held := w.held[p := q],
         issued := w.issued + [Issue(p, if q < 0 then 0 else q, Turned(w.pods[p]).counter, NextId(w.pods[p]))])
    case Ask(_) =>
      w.(pods := w.pods[p := w.pods[p].(requested := true)],
         requests := if w.pods[p].requested then w.requests else w.requests + {p})
    case Cut(_) =>
      w.(pods := w.pods[0 := CutPage(w.pods[0])], requests := w.requests - {p},
         replies := w.replies[p := Reply(w.pods[0].next, |w.owner|)], owner := w.owner + [p])
    case Deliver(_) =>
      w.(pods := w.pods[p := UpdatePage(w.pods[p], w.replies[p].page)],
         held := w.held[p := w.replies[p].number], replies := w.replies - {p})
  }

  function Count(s: seq<Issue>, p: nat): nat {
    if s == [] then 0 else Count(s[..|s| - 1], p) + if s[|s| - 1].pod == p then 1 else 0
  }

  predicate Waits(w: World, p: nat) { p in w.requests || p in w.replies }

  /** Pod `p` with manager `m` cuts its ids from page `q`. */
  predicate PodOk(p: nat, m: Manager, q: int, owner: seq<nat>, waits: bool) {
    && (m.isMain <==> p == 0)
    && m.counter <= PAGE_SIZE
    && (q < 0 ==> p > 0 && m.counter == PAGE_SIZE && (m.requested <==> waits))
    && (q >= 0 ==> q < |owner| && owner[q] == p && m.current == PageAt(q) && !waits)
    && (p > 0 && q >= 0 ==> m.requested)
  }

  predicate ReplyOk(p: nat, r: Reply, owner: seq<nat>) {
    p > 0 && r.page == PageAt(r.number) && r.number < |owner| && owner[r.number] == p
  }

  /** The slot of this id is behind its pod, which has manager `m` and page `q`. */
  predicate IssueOk(u: Issue, m: Manager, q: int, owner: seq<nat>) {
    && u.id == IdAt(u.page, u.at) && u.at < PAGE_SIZE
    && u.page < |owner| && owner[u.page] == u.pod
    && (u.page == q ==> u.at < m.counter)
    && (u.pod > 0 ==> u.page == q)
  }

  ghost predicate PodsOk(w: World) {
    && 0 < |w.pods| == |w.held|
    && w.pods[0].next == PageAt(|w.owner|)
    && forall p :: 0 <= p < |w.pods| ==> PodOk(p, w.pods[p], w.held[p], w.owner, Waits(w, p))
  }

  ghost predicate MailOk(w: World) {
    && (forall p :: p in w.requests ==> 0 < p < |w.pods| && p !in w.replies)
    && (forall p :: p in w.replies ==> p < |w.pods| && ReplyOk(p, w.replies[p], w.owner))
  }

  ghost predicate IssuesOk(w: World)
    requires |w.pods| == |w.held|
  {
    forall u :: u in w.issued ==> u.pod < |w.pods| && IssueOk(u, w.pods[u.pod], w.held[u.pod], w.owner)
  }

  ghost predicate SlotsDiffer(s: seq<Issue>) {
    forall i, j :: 0 <= i < j < |s| ==> s[i].page != s[j].page || s[i].at != s[j].at
  }

  predicate CountOk(issued: seq<Issue>, p: nat, m: Manager, q: int) {
    Count(issued, p) == if q < 0 then 0 else m.counter
  }

  ghost predicate CountsOk(w: World)
    requires |w.pods| == |w.held|
  {
    forall p :: 0 < p < |w.pods| ==> CountOk(w.issued, p, w.pods[p], w.held[p])
  }

  ghost predicate Inv(w: World) { PodsOk(w) && MailOk(w) && IssuesOk(w) && SlotsDiffer(w.issued) && CountsOk(w) }

  lemma StartOk(n: nat)
    requires n > 0
    ensures Inv(Start(n))
  {
    var w := Start(n);
    assert PageAt(0) == FIRST_PAGE && PageAt(1) == FIRST_PAGE - PAGE_SIZE;
    assert w.pods[0] == NewManager(true);
    forall p | 0 <= p < n ensures PodOk(p, w.pods[p], w.held[p], w.owner, Waits(w, p)) {
      assert w.pods[p] == NewManager(p == 0);
    }
  }

  /** Whose id comes next, from which slot. */
  lemma NextIssue(w: World, p: nat)
    requires Inv(w) && Enabled(w, GenerateOn(p))
    ensures var w', q := Next(w, GenerateOn(p)), PageInUse(w, p);
      && q >= 0 && w'.pods[p].current == PageAt(q) && w'.pods[p].counter > 0
      && w'.issued == w.issued + [Issue(p, q, w'.pods[p].counter - 1, IdAt(q, w'.pods[p].counter - 1))]
      && w'.pods[0].next == PageAt(|w'.owner|)
  {
    assert PodOk(p, w.pods[p], w.held[p], w.owner, Waits(w, p));
    PageSteps(|w.owner|);
    IdInPage(PageInUse(w, p), Turned(w.pods[p]).counter);
  }

  lemma GenerateKeepsPods(w: World, p: nat)
    requires Inv(w) && Enabled(w, GenerateOn(p))
    ensures PodsOk(Next(w, GenerateOn(p))) && MailOk(Next(w, GenerateOn(p)))
  {
    var w' := Next(w, GenerateOn(p));
    NextIssue(w, p);
    forall i | 0 <= i < |w'.pods| ensures PodOk(i, w'.pods[i], w'.held[i], w'.owner, Waits(w', i)) {
      assert PodOk(i, w.pods[i], w.held[i], w.owner, Waits(w, i));
    }
    forall i | i in w'.replies ensures ReplyOk(i, w'.replies[i], w'.owner) {
      assert ReplyOk(i, w.replies[i], w.owner);
    }
  }

  /** The slot of the new id is new. */
  lemma GenerateKeepsIssues(w: World, p: nat)
    requires Inv(w) && Enabled(w, GenerateOn(p))
    ensures var w' := Next(w, GenerateOn(p)); |w'.pods| == |w'.held| && IssuesOk(w') && SlotsDiffer(w'.issued)
  {
    var w' := Next(w, GenerateOn(p));
    NextIssue(w, p);
    assert PodOk(p, w.pods[p], w.held[p], w.owner, Waits(w, p));
    var new' := w'.issued[|w.issued|];
    forall u | u in w.issued
      ensures IssueOk(u, w'.pods[u.pod], w'.held[u.pod], w'.owner) && (u.page != new'.page || u.at != new'.at)
    {
      assert IssueOk(u, w.pods[u.pod], w.held[u.pod], w.owner);
    }
  }

  lemma GenerateKeepsCounts(w: World, p: nat)
    requires Inv(w) && Enabled(w, GenerateOn(p))
    ensures var w' := Next(w, GenerateOn(p)); |w'.pods| == |w'.held| && CountsOk(w')
  {
    var w' := Next(w, GenerateOn(p));
    NextIssue(w, p);
    assert PodOk(p, w.pods[p], w.held[p], w.owner, Waits(w, p));
    assert w'.issued[..|w'.issued| - 1] == w.issued;
    forall i | 0 < i < |w'.pods| ensures CountOk(w'.issued, i, w'.pods[i], w'.held[i]) {
      assert CountOk(w.issued, i, w.pods[i], w.held[i]);
    }
  }

  lemma AskKeeps(w: World, p: nat)
    requires Inv(w) && Enabled(w, Ask(p))
    ensures Inv(Next(w, Ask(p)))
  {}

  lemma CutKeeps(w: World, p: nat)
    requires Inv(w) && Enabled(w, Cut(p))
    ensures Inv(Next(w, Cut(p)))
  {}

  lemma DeliverKeeps(w: World, p: nat)
    requires Inv(w) && Enabled(w, Deliver(p))
    ensures Inv(Next(w, Deliver(p)))
  {}

  lemma StepKeeps(w: World, e: Step)
    requires Inv(w) && Enabled(w, e)
    ensures Inv(Next(w, e))
  {
    match e
    case GenerateOn(p) =>
      GenerateKeepsPods(w, p);
      GenerateKeepsIssues(w, p);
      GenerateKeepsCounts(w, p);
    case Ask(p) => AskKeeps(w, p);
    case Cut(p) => CutKeeps(w, p);
    case Deliver(p) => DeliverKeeps(w, p);
  }

  ghost predicate IsRun(ws: seq<World>, es: seq<Step>, n: nat) {
    && |ws| == |es| + 1
    && ws[0] == Start(n)
    && forall k :: 0 <= k < |es| ==> StepAt(ws, es, k)
  }

  predicate StepAt(ws: seq<World>, es: seq<Step>, k: nat)
    requires |ws| == |es| + 1 && k < |es|
  {
    Enabled(ws[k], es[k]) && ws[k + 1] == Next(ws[k], es[k])
  }

  lemma {:induction false} RunOk(ws: seq<World>, es: seq<Step>, n: nat, k: nat)
    requires n > 0 && IsRun(ws, es, n) && k < |ws|
    ensures Inv(ws[k]) && |ws[k].pods| == n
  {
    if k == 0 {
      StartOk(n);
    } else {
      RunOk(ws, es, n, k - 1);
      assert StepAt(ws, es, k - 1);
      StepKeeps(ws[k - 1], es[k - 1]);
    }
  }

  // ---- what a run guarantees ------------------------------------------------------

  /** An id is the top of the 32-bit range less 256 for every page and 1 for every place before
      it. Ids given out twice, by whatever pods, come from the same place of two pages a multiple
      of 2^24 apart; and the id of the meta domain is the first one of a 2^24-th page. */
  lemma IdsRepeatExactly(ws: seq<World>, es: seq<Step>, n: nat, k: nat, i: nat, j: nat)
    requires n > 0 && IsRun(ws, es, n) && k < |ws| && i < j < |ws[k].issued|
    ensures var u, v := ws[k].issued[i], ws[k].issued[j];
      && (u.id == v.id <==> u.page != v.page && u.at == v.at && (u.page - v.page) % TWO_24 == 0)
      && (u.id == META_DOMAIN <==> u.at == 0 && (u.page + 1) % TWO_24 == 0)
      && u.at < 0x100 && u.id == (0xffff_ff00 - 0x100 * u.page - u.at) % 0x1_0000_0000
  {
    var u, v := ws[k].issued[i], ws[k].issued[j];
    RunOk(ws, es, n, k);
    assert u in ws[k].issued && v in ws[k].issued;
    MetaDomainExactly(u.page, u.at);
    if u.page <= v.page {
      SameIdExactly(u.page, u.at, v.page, v.at);
      NegatedMod(v.page - u.page);
    } else {
      SameIdExactly(v.page, v.at, u.page, u.at);
    }
  }

  lemma NegatedMod(d: int)
    ensures d % TWO_24 == 0 <==> (-d) % TWO_24 == 0
  {}

  /** As long as at most 2^24 - 1 pages have been cut, no id of any pod is given out twice, and
      none is that of the meta domain. */
  lemma IdsAreFresh(ws: seq<World>, es: seq<Step>, n: nat, k: nat)
    requires n > 0 && IsRun(ws, es, n) && k < |ws| && |ws[k].owner| < TWO_24
    ensures forall i :: 0 <= i < |ws[k].issued| ==> 0 < ws[k].issued[i].id < TWO_32
    ensures forall i, j :: 0 <= i < j < |ws[k].issued| ==> ws[k].issued[i].id != ws[k].issued[j].id
  {
    var s := ws[k].issued;
    RunOk(ws, es, n, k);
    forall i | 0 <= i < |s| ensures 0 < s[i].id < TWO_32 {
      assert s[i] in s;
      MetaDomainExactly(s[i].page, s[i].at);
    }
    forall i, j | 0 <= i < j < |s| ensures s[i].id != s[j].id {
      assert s[i] in s && s[j] in s;
      FreshApart(s[i], s[j]);
    }
  }

  lemma FreshApart(u: Issue, v: Issue)
    requires u.page < TWO_24 && v.page < TWO_24 && u.at < PAGE_SIZE && v.at < PAGE_SIZE
    requires u.page != v.page || u.at != v.at
    ensures IdAt(u.page, u.at) != IdAt(v.page, v.at)
  {
    if u.page <= v.page {
      SameIdExactly(u.page, u.at, v.page, v.at);
    } else {
      SameIdExactly(v.page, v.at, u.page, u.at);
    }
  }

  lemma {:induction false} PageUsedUp(ws: seq<World>, es: seq<Step>, n: nat, k: nat, p: nat, k': nat)
    requires n > 0 && IsRun(ws, es, n) && k <= k' < |ws| && 0 < p < n
    ensures Count(ws[k].issued, p) <= Count(ws[k'].issued, p) <= PAGE_SIZE
    ensures Count(ws[k].issued, p) == PAGE_SIZE ==> !Enabled(ws[k'], GenerateOn(p))
    decreases k'
  {
    RunOk(ws, es, n, k');
    var w := ws[k'];
    assert PodOk(p, w.pods[p], w.held[p], w.owner, Waits(w, p));
    assert CountOk(w.issued, p, w.pods[p], w.held[p]);
    if k < k' {
      PageUsedUp(ws, es, n, k, p, k' - 1);
      assert StepAt(ws, es, k' - 1);
      CountGrows(ws[k' - 1], es[k' - 1], p);
    }
  }

  /** The steps at which pod `p` gives out an id. */
  ghost function GenerateSteps(es: seq<Step>, k: nat, p: nat): (steps: set<nat>)
    requires k <= |es|
    ensures forall j :: j in steps <==> 0 <= j < k && es[j] == GenerateOn(p)
  {
    set j: nat | j < k && es[j] == GenerateOn(p)
  }

  lemma {:induction false} CountIsSteps(ws: seq<World>, es: seq<Step>, n: nat, k: nat, p: nat)
    requires IsRun(ws, es, n) && k < |ws|
    ensures Count(ws[k].issued, p) == |GenerateSteps(es, k, p)|
  {
    if k == 0 {
      assert GenerateSteps(es, k, p) == {};
    } else {
      CountIsSteps(ws, es, n, k - 1, p);
      assert StepAt(ws, es, k - 1);
      var before := GenerateSteps(es, k - 1, p);
      assert GenerateSteps(es, k, p) == if es[k - 1] == GenerateOn(p) then before + {k - 1} else before;
      if es[k - 1].GenerateOn? {
        assert ws[k].issued[..|ws[k].issued| - 1] == ws[k - 1].issued;
      }
    }
  }

  /** A pod without the main manager never gives out more than one page of ids: since it asks
      only once, every thread that wants the next id waits for ever. */
  lemma OnePagePerPod(ws: seq<World>, es: seq<Step>, n: nat, k: nat, p: nat, k': nat)
    requires n > 0 && IsRun(ws, es, n) && k <= k' < |ws| && 0 < p < n
    ensures |GenerateSteps(es, k', p)| <= 0x100
    ensures |GenerateSteps(es, k, p)| == 0x100 ==> !Enabled(ws[k'], GenerateOn(p))
  {
    PageUsedUp(ws, es, n, k, p, k');
    CountIsSteps(ws, es, n, k, p);
    CountIsSteps(ws, es, n, k', p);
  }

  lemma CountGrows(w: World, e: Step, p: nat)
    requires Enabled(w, e)
    ensures Count(w.issued, p) <= Count(Next(w, e).issued, p)
  {
    if e.GenerateOn? {
      var s := Next(w, e).issued;
      assert s[..|s| - 1] == w.issued;
    }
  }

  // ---- it happens -----------------------------------------------------------------

  /** A main pod without others that has given out `m` ids, one page after the other. */
  ghost predicate AloneAfter(w: World, m: nat) {
    && |w.pods| == 1 == |w.held| && w.pods[0].isMain
    && w.held[0] == |w.owner| - 1 >= 0 && w.pods[0].counter <= PAGE_SIZE
    && PAGE_SIZE * w.held[0] + w.pods[0].counter == m == |w.issued|
    && forall i :: 0 <= i < m ==> w.issued[i].page == i / PAGE_SIZE && w.issued[i].at == i % PAGE_SIZE
  }

  lemma PlaceOf(m: nat, page: nat, at: nat)
    requires m == PAGE_SIZE * page + at && at < PAGE_SIZE
    ensures page == m / PAGE_SIZE && at == m % PAGE_SIZE
  {}

  lemma AloneSteps(w: World, m: nat)
    requires AloneAfter(w, m)
    ensures Enabled(w, GenerateOn(0)) && AloneAfter(Next(w, GenerateOn(0)), m + 1)
  {
    var u := Next(w, GenerateOn(0)).issued[m];
    PlaceOf(m, u.page, u.at);
  }

  lemma {:induction false} MainAlone(m: nat) returns (ws: seq<World>, es: seq<Step>)
    ensures IsRun(ws, es, 1) && |es| == m && AloneAfter(ws[m], m)
  {
    if m == 0 {
      ws, es := [Start(1)], [];
      assert ws[0].pods[0] == NewManager(true);
    } else {
      var vs, ds := MainAlone(m - 1);
      AloneSteps(vs[m - 1], m - 1);
      ws, es := vs + [Next(vs[m - 1], GenerateOn(0))], ds + [GenerateOn(0)];
      forall k | 0 <= k < m ensures StepAt(ws, es, k) {
        if k < m - 1 {
          assert StepAt(vs, ds, k);
        }
      }
    }
  }

  /** The main pod alone gives out the id of the meta domain, and then every id again. */
  lemma RepetitionHappens() returns (ws: seq<World>, es: seq<Step>)
    ensures IsRun(ws, es, 1) && |ws[|es|].issued| > TWO_32
    ensures var s := ws[|es|].issued; s[0].id == s[TWO_32].id && s[TWO_32 - PAGE_SIZE].id == META_DOMAIN
  {
    ws, es := MainAlone(TWO_32 + 1);
    IdsRepeatExactly(ws, es, 1, |es|, 0, TWO_32);
    IdsRepeatExactly(ws, es, 1, |es|, TWO_32 - PAGE_SIZE, TWO_32);
  }
}
