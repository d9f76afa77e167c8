/** The containment map of a pod and the walk to the domain a resource belongs to. */
module Containment {
  import opened Basics

  type Contexts = map<Idp, Idp>

  // ---- the shape of the map -------------------------------------------------------

  predicate EnteredAt(pred: Contexts, order: seq<Idp>, i: nat)
    requires i < |order|
  {
    && order[i] != META_DOMAIN && order[i] in pred
    && order[i] !in order[..i]
    && pred[order[i]] !in order[i..]
  }

  /** `order` lists the resources in the order in which they were entered; none is entered
      after something it contains. */
  ghost predicate Forest(pred: Contexts, order: seq<Idp>) {
    && (forall k :: k in pred && k != META_DOMAIN ==> k in order)
    && (forall i :: 0 <= i < |order| ==> EnteredAt(pred, order, i))
    && (META_DOMAIN in pred ==> pred[META_DOMAIN] == META_DOMAIN)
  }

  predicate Known(pred: Contexts, ctx: Idp) { ctx == META_DOMAIN || ctx in pred }

  /** Every context is the meta domain or in the map itself. */
  ghost predicate Rooted(pred: Contexts) { forall k :: k in pred ==> Known(pred, pred[k]) }

  /** The element at `i` and its context, which is the next element. */
  predicate LinkAt(pred: Contexts, path: seq<Idp>, i: nat)
    requires i + 1 < |path|
  {
    path[i] in pred && pred[path[i]] == path[i + 1] != META_DOMAIN
  }

  ghost predicate IsChain(pred: Contexts, path: seq<Idp>) {
    path != [] && forall i :: 0 <= i && i + 1 < |path| ==> LinkAt(pred, path, i)
  }

  function Last(path: seq<Idp>): Idp
    requires path != []
  {
    path[|path| - 1]
  }

  /** The contexts of `idp` from the inside out end with `domain`, directly below the meta
      domain. */
  ghost predicate LeadsTo(pred: Contexts, path: seq<Idp>, idp: Idp, domain: Idp) {
    && IsChain(pred, path) && path[0] == idp && Last(path) == domain
    && domain in pred && pred[domain] == META_DOMAIN
  }

  ghost predicate Reaches(pred: Contexts, idp: Idp, domain: Idp) {
    exists path :: LeadsTo(pred, path, idp, domain)
  }

  /** Chains that start together stay together. */
  lemma {:induction false} ChainsAgree(pred: Contexts, p: seq<Idp>, q: seq<Idp>, i: nat)
    requires IsChain(pred, p) && IsChain(pred, q) && p[0] == q[0]
    requires i < |p| && i < |q|
    ensures p[i] == q[i]
  {
    if i > 0 {
      ChainsAgree(pred, p, q, i - 1);
      assert LinkAt(pred, p, i - 1) && LinkAt(pred, q, i - 1);
    }
  }

  /** There is one domain at most. */
  lemma OneDomain(pred: Contexts, idp: Idp, d: Idp, d': Idp)
    requires Reaches(pred, idp, d) && Reaches(pred, idp, d')
    ensures d == d'
  {
    var p :| LeadsTo(pred, p, idp, d);
    var q :| LeadsTo(pred, q, idp, d');
    var n := if |p| <= |q| then |p| - 1 else |q| - 1;
    ChainsAgree(pred, p, q, n);
    assert n + 1 < |p| ==> LinkAt(pred, p, n);
    assert n + 1 < |q| ==> LinkAt(pred, q, n);
  }

  /** A chain that comes to a context outside the map leads to no domain. */
  lemma BrokenChain(pred: Contexts, q: seq<Idp>, d: Idp)
    requires IsChain(pred, q) && Last(q) != META_DOMAIN && Last(q) !in pred
    ensures !Reaches(pred, q[0], d)
  {
    forall p | IsChain(pred, p) && p[0] == q[0] ensures !LeadsTo(pred, p, q[0], d) {
      Broken(pred, q, p);
    }
  }

  lemma Broken(pred: Contexts, q: seq<Idp>, p: seq<Idp>)
    requires IsChain(pred, q) && Last(q) != META_DOMAIN && Last(q) !in pred
    requires IsChain(pred, p) && p[0] == q[0]
    ensures Last(p) in pred ==> pred[Last(p)] != META_DOMAIN
  {
    var n := if |p| <= |q| then |p| - 1 else |q| - 1;
    ChainsAgree(pred, p, q, n);
    assert n + 1 < |p| ==> LinkAt(pred, p, n);
    assert n + 1 < |q| ==> LinkAt(pred, q, n);
  }

  lemma Extend(pred: Contexts, path: seq<Idp>, ctx: Idp)
    requires IsChain(pred, path) && Last(path) in pred && pred[Last(path)] == ctx != META_DOMAIN
    ensures IsChain(pred, path + [ctx])
  {
    var q := path + [ctx];
    forall i | 0 <= i && i + 1 < |q| ensures LinkAt(pred, q, i) {
      if i + 1 < |path| {
        assert LinkAt(pred, path, i);
      }
    }
  }

  lemma Prepend(pred: Contexts, idp: Idp, path: seq<Idp>)
    requires IsChain(pred, path) && idp in pred && pred[idp] == path[0] != META_DOMAIN
    ensures IsChain(pred, [idp] + path)
  {
    var q := [idp] + path;
    forall i | 0 <= i && i + 1 < |q| ensures LinkAt(pred, q, i) {
      if i > 0 {
        assert LinkAt(pred, path, i - 1);
      }
    }
  }

  lemma Halves(order: seq<Idp>, i: nat)
    requires i < |order|
    ensures forall j :: 0 <= j < i ==> order[j] in order[..i]
    ensures forall j :: i <= j < |order| ==> order[j] in order[i..]
  {
    forall j | i <= j < |order| ensures order[j] in order[i..] {
      assert order[i..][j - i] == order[j];
    }
  }

  lemma {:induction false} DomainOf(pred: Contexts, order: seq<Idp>, i: nat) returns (domain: Idp)
    requires Forest(pred, order) && Rooted(pred) && i < |order|
    ensures Reaches(pred, order[i], domain)
  {
    assert EnteredAt(pred, order, i);
    var idp := order[i];
    var ctx := pred[idp];
    if ctx == META_DOMAIN {
      domain := idp;
      assert LeadsTo(pred, [idp], idp, domain);
    } else {
      assert Known(pred, ctx);
      var j :| 0 <= j < |order| && order[j] == ctx;
      Halves(order, i);
      domain := DomainOf(pred, order, j);
      var path :| LeadsTo(pred, path, ctx, domain);
      Prepend(pred, idp, path);
      assert LeadsTo(pred, [idp] + path, idp, domain);
    }
  }

  /** Every resource lies below a domain exactly if every context is the meta domain or in the
      map: only a context of another pod breaks the walk. */
  lemma AllHaveDomainsExactly(pred: Contexts, order: seq<Idp>)
    requires Forest(pred, order)
    ensures Rooted(pred) <==> forall k :: k in pred && k != META_DOMAIN ==> exists d :: Reaches(pred, k, d)
  {
    if Rooted(pred) {
      forall k | k in pred && k != META_DOMAIN ensures exists d :: Reaches(pred, k, d) {
        var i :| 0 <= i < |order| && order[i] == k;
        var d := DomainOf(pred, order, i);
      }
    } else {
      var k :| k in pred && !Known(pred, pred[k]);
      Extend(pred, [k], pred[k]);
      forall d: Idp ensures !Reaches(pred, k, d) {
        BrokenChain(pred, [k] + [pred[k]], d);
      }
    }
  }

  /** `idp` is new: no resource and no context has it yet. */
  ghost predicate Fresh(pred: Contexts, idp: Idp, ctx: Idp) {
    idp != META_DOMAIN && idp != ctx && idp !in pred && forall k :: k in pred ==> pred[k] != idp
  }

  /** Entering a new resource keeps the forest, and keeps it rooted exactly if its context is
      the meta domain or in the map. */
  lemma EnterKeeps(pred: Contexts, order: seq<Idp>, idp: Idp, ctx: Idp)
    requires Forest(pred, order) && Fresh(pred, idp, ctx)
    ensures Forest(pred[idp := ctx], order + [idp])
    ensures Rooted(pred[idp := ctx]) <==> Rooted(pred) && Known(pred, ctx)
  {
    var pred', order' := pred[idp := ctx], order + [idp];
    forall i | 0 <= i < |order| ensures order[i] != idp {
      assert EnteredAt(pred, order, i);
    }
    forall i | 0 <= i < |order'| ensures EnteredAt(pred', order', i) {
      if i < |order| {
        assert EnteredAt(pred, order, i);
        assert order'[..i] == order[..i] && order'[i..] == order[i..] + [idp];
      } else {
        assert order'[..i] == order && order'[i..] == [idp];
      }
    }
    if Rooted(pred') {
      assert Known(pred', pred'[idp]);
      forall k | k in pred ensures Known(pred, pred[k]) {
        assert Known(pred', pred'[k]);
      }
    }
  }

  ghost function Position(order: seq<Idp>, idp: Idp): nat {
    if order == [] || order[0] == idp then 0 else 1 + Position(order[1..], idp)
  }

  lemma {:induction false} PositionIs(order: seq<Idp>, i: nat)
    requires i < |order| && order[i] !in order[..i]
    ensures Position(order, order[i]) == i
  {
    if i > 0 {
      assert order[0] == order[..i][0];
      assert order[1..][..i - 1] == order[..i][1..];
      PositionIs(order[1..], i - 1);
    }
  }

  /** A context stands before its content. */
  lemma Inward(pred: Contexts, order: seq<Idp>, idp: Idp)
    requires Forest(pred, order) && idp in pred && idp != META_DOMAIN
    requires pred[idp] != META_DOMAIN && pred[idp] in pred
    ensures Position(order, pred[idp]) < Position(order, idp)
  {
    var i :| 0 <= i < |order| && order[i] == idp;
    var j :| 0 <= j < |order| && order[j] == pred[idp];
    assert EnteredAt(pred, order, i) && EnteredAt(pred, order, j);
    Halves(order, i);
    PositionIs(order, i);
    PositionIs(order, j);
  }
}
