/** The maps of the resource manager of a pod: the containment forest with its aliases, and the
    static groups. */
module Resources {
  import opened Basics
  import opened Containment
  import opened ClosureBarrier

  /** `CreateReference` has made `newAlias` stand for `original`. */
  datatype Alias = Alias(newAlias: Idp, original: Idp)

  /** A method is one critical section; `blocked` says that the thread waits and nothing has
      changed. */
  class ResourceManager {
    var predecessors: Contexts
    var aliases: map<Idp, Idp>
    var sgVars: map<Idp, Vars>
    var sgCc: map<Idp, Idp>
    ghost var order: seq<Idp>
    ghost var made: seq<Alias>

    /** `order` lists the resources in the order of their entry, `made` the references. */
    ghost predicate Valid()
      reads this
    {
      && Forest(predecessors, order)
      && (forall i :: 0 <= i < |made| ==>
            made[i].newAlias in aliases && aliases[made[i].newAlias] == made[i].original)
      && (forall a :: a in aliases ==> exists i :: 0 <= i < |made| && made[i].newAlias == a)
    }

    /** The pod that starts the system creates the meta domain, the others replicate it. */
    constructor (main: bool)
      ensures Valid() && aliases == map[] && order == [] && made == []
      ensures predecessors == if main then map[META_DOMAIN := META_DOMAIN] else map[]
      ensures sgVars == map[] && sgCc == map[]
    {
      predecessors := if main then map[META_DOMAIN := META_DOMAIN] else map[];
      aliases, sgVars, sgCc := map[], map[], map[];
      order, made := [], [];
    }

    // ---- containment --------------------------------------------------------------

    /** The end of `AllocateResource`. */
    method Allocate(idp: Idp, ctx: Idp)
      modifies this`predecessors, this`order
      ensures idp in old(predecessors) ==> predecessors == old(predecessors)
      ensures idp !in old(predecessors) ==> predecessors == old(predecessors)[idp := ctx]
      ensures old(Valid() && Fresh(predecessors, idp, ctx)) ==> Valid() && order == old(order) + [idp]
      ensures old(Valid() && idp in predecessors) ==> Valid() && order == old(order)
    {
      if idp !in predecessors {
        if Valid() && Fresh(predecessors, idp, ctx) {
          EnterKeeps(predecessors, order, idp, ctx);
        }
        predecessors, order := predecessors[idp := ctx], order + [idp];
      }
    }

    /** The end of `CreateReference`. */
    method Reference(newAlias: Idp, idp: Idp, ctx: Idp)
      modifies this`predecessors, this`order, this`aliases, this`made
      ensures newAlias in old(predecessors) ==> predecessors == old(predecessors)
      ensures newAlias !in old(predecessors) ==> predecessors == old(predecessors)[newAlias := ctx]
      ensures newAlias in old(aliases) ==> aliases == old(aliases)
      ensures newAlias !in old(aliases) ==> aliases == old(aliases)[newAlias := idp]
      ensures old(Valid() && Fresh(predecessors, newAlias, ctx) && newAlias !in aliases) ==>
                Valid() && order == old(order) + [newAlias] && made == old(made) + [Alias(newAlias, idp)]
    {
      Allocate(newAlias, ctx);
      if newAlias !in aliases {
        aliases, made := aliases[newAlias := idp], made + [Alias(newAlias, idp)];
        assert made[|made| - 1].newAlias == newAlias;
        assert forall i :: 0 <= i < |made| - 1 ==> made[i] == old(made[i]);
      }
    }

    /** Leads back from every reference to what it was made for, and from anything else to
        itself. */
    method ResolveIdp(idp: Idp) returns (original: Idp)
      requires Valid()
      ensures forall i :: 0 <= i < |made| && made[i].newAlias == idp ==> original == made[i].original
      ensures (forall i :: 0 <= i < |made| ==> made[i].newAlias != idp) ==> original == idp
    {
      original := if idp in aliases then aliases[idp] else idp;
    }

    /** Walks up to the resource directly below the meta domain; `None` is the exception for a
        key that is not in the map. */
    method GetDomainIdp(idp: Idp) returns (domain: Option<Idp>)
      requires Valid()
      ensures idp != META_DOMAIN ==> forall d: Idp :: domain == Some(d) <==> Reaches(predecessors, idp, d)
      ensures idp == META_DOMAIN ==> domain == if idp in predecessors then Some(idp) else None
    {
      if idp !in predecessors {
        forall d: Idp ensures idp != META_DOMAIN ==> !Reaches(predecessors, idp, d) {
          if idp != META_DOMAIN { BrokenChain(predecessors, [idp], d); }
        }
        return None;
      }
      var ret := idp;
      var ctx := predecessors[ret];
      ghost var path := [idp];
      while ctx != META_DOMAIN
        invariant ret in predecessors && ctx == predecessors[ret]
        invariant IsChain(predecessors, path) && path[0] == idp && Last(path) == ret
        invariant idp == META_DOMAIN ==> ret == idp
        decreases Position(order, ret)
      {
        ghost var before := ret;
        Extend(predecessors, path, ctx);
        path := path + [ctx];
        ret := ctx;
        if ret !in predecessors {
          forall d: Idp ensures !Reaches(predecessors, idp, d) {
            BrokenChain(predecessors, path, d);
          }
          return None;
        }
        ctx := predecessors[ret];
        Inward(predecessors, order, before);
      }
      domain := Some(ret);
      assert LeadsTo(predecessors, path, idp, ret);
      forall d: Idp ensures d == ret <==> Reaches(predecessors, idp, d) {
        if Reaches(predecessors, idp, d) { OneDomain(predecessors, idp, d, ret); }
      }
    }

    // ---- static groups ------------------------------------------------------------

    function At(comm: Idp): Group
      reads this
    {
      Group(if comm in sgVars then Some(sgVars[comm]) else None,
            if comm in sgCc then Some(sgCc[comm]) else None)
    }

    method CreateStaticGroupEnter(comm: Idp, total: nat)
      modifies this`sgVars
      ensures comm in old(sgVars) ==> sgVars == old(sgVars)
      ensures comm !in old(sgVars) ==> sgVars == old(sgVars)[comm := Vars(0, total)]
      ensures At(comm) == Enter(old(At(comm)), total)
      ensures forall c: Idp :: c != comm ==> At(c) == old(At(c))
    {
      if comm !in sgVars {
        sgVars := sgVars[comm := Vars(0, total)];
      }
    }

    /** `HandleCreateStaticGroup` up to its wait. */
    method HandleCreateStaticGroup(comm: Idp) returns (blocked: bool)
      modifies this`sgVars
      ensures blocked <==> comm !in old(sgVars)
      ensures blocked ==> sgVars == old(sgVars)
      ensures !blocked ==> sgVars == old(sgVars)[comm := Vars(old(sgVars)[comm].first + 1, old(sgVars)[comm].second)]
      ensures blocked <==> !CanCountCreate(old(At(comm)))
      ensures At(comm) == if blocked then old(At(comm)) else Count(old(At(comm)))
      ensures forall c: Idp :: c != comm ==> At(c) == old(At(c))
    {
      if comm !in sgVars {
        return true;
      }
      CountMessage(comm);
      return false;
    }

    /** What follows the wait of `HandleCreateStaticGroup`, and the whole of
        `HandleSynchronizeStaticGroup`. */
    method CountMessage(comm: Idp)
      modifies this`sgVars
      ensures comm in old(sgVars) ==>
                sgVars == old(sgVars)[comm := Vars(old(sgVars)[comm].first + 1, old(sgVars)[comm].second)]
      ensures comm !in old(sgVars) ==> sgVars == old(sgVars)[comm := Vars(1, 0)]
      ensures At(comm) == Count(old(At(comm)))
      ensures forall c: Idp :: c != comm ==> At(c) == old(At(c))
    {
      var v := if comm in sgVars then sgVars[comm] else Vars(0, 0);
      sgVars := sgVars[comm := v.(first := v.first + 1)];
    }

    /** The wait at the end of `CreateStaticGroup` and of `SynchronizeStaticGroup`. */
    method LeaveStaticGroup(comm: Idp, synchronize: bool) returns (blocked: bool)
      modifies this`sgVars, this`sgCc
      ensures blocked <==> comm in old(sgVars) && old(sgVars)[comm].first != old(sgVars)[comm].second
      ensures blocked ==> sgVars == old(sgVars)
      ensures !blocked ==>
                sgVars == old(sgVars)[comm := Vars(0, if comm in old(sgVars) then old(sgVars)[comm].second else 0)]
      ensures sgCc == if !blocked && synchronize then old(sgCc) - {comm} else old(sgCc)
      ensures blocked <==> !CanLeave(old(At(comm)))
      ensures At(comm) == if blocked then old(At(comm)) else Leave(old(At(comm)), synchronize)
      ensures forall c: Idp :: c != comm ==> At(c) == old(At(c))
    {
      var v := if comm in sgVars then sgVars[comm] else Vars(0, 0);
      if v.first != v.second {
        return true;
      }
      sgVars := sgVars[comm := v.(first := 0)];
      if synchronize {
        sgCc := sgCc - {comm};
      }
      return false;
    }

    method HandleStaticGroupCCIdp(comm: Idp, idp: Idp)
      modifies this`sgCc
      ensures sgCc == old(sgCc)[comm := idp]
      ensures At(comm) == StoreIdp(old(At(comm)), idp)
      ensures forall c: Idp :: c != comm ==> At(c) == old(At(c))
    {
      sgCc := sgCc[comm := idp];
    }

    method GetStaticGroupCCIdp(comm: Idp) returns (blocked: bool, idp: Idp)
      ensures blocked <==> comm !in sgCc
      ensures !blocked ==> comm in sgCc && idp == sgCc[comm]
      ensures blocked <==> At(comm).cc.None?
      ensures !blocked ==> At(comm).cc == Some(idp)
    {
      if comm !in sgCc {
        return true, 0;
      }
      return false, sgCc[comm];
    }

    /** The first half of a collective creation on a member that is not the root: it may name the
        closure by any reference to it. */
    method CollectiveIdp(comm: Idp, ghost closure: Idp) returns (blocked: bool, idp: Idp)
      requires Valid()
      requires (comm == closure && forall i :: 0 <= i < |made| ==> made[i].newAlias != comm)
               || exists i :: 0 <= i < |made| && made[i] == Alias(comm, closure)
      ensures blocked <==> At(closure).cc.None?
      ensures !blocked ==> At(closure).cc == Some(idp)
    {
      var original := ResolveIdp(comm);
      blocked, idp := GetStaticGroupCCIdp(original);
    }
  }

  /** On a pod without the meta domain: a reference 20 to resource 10 of another pod, and then a
      resource 30 in that one. The walk from 30 comes to 10, which is not in the map. */
  method ForeignContext() returns (domain: Option<Idp>, other: Option<Idp>)
    ensures domain == None && other == Some(20)
  {
    var manager := new ResourceManager(false);
    manager.Reference(20, 10, META_DOMAIN);
    manager.Allocate(30, 10);
    domain := manager.GetDomainIdp(30);
    other := manager.GetDomainIdp(20);
    assert LeadsTo(manager.predecessors, [20], 20, 20);
    forall d: Idp ensures !Reaches(manager.predecessors, 30, d) {
      assert LinkAt(manager.predecessors, [30, 10], 0);
      BrokenChain(manager.predecessors, [30, 10], d);
    }
  }
}
