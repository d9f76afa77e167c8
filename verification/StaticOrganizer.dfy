/** The member table of a closure: ranks are given in join order. */
module Organizer {
  import opened Basics

  datatype Entry = Entry(idm: nat, name: string)

  /** `_members` and `_next_idm`, a 32-bit counter. */
  datatype Table = Table(members: map<Idp, Entry>, nextIdm: nat)

  datatype Outcome = Joined(idm: nat) | AlreadyJoined | NameTaken

  const IDM_LIMIT: nat := 0x1_0000_0000

  const EMPTY: Table := Table(map[], 0)

  /** The decimal digits of `n`, as `std::to_string` gives them. */
  function ToString(n: nat): (r: string)
    ensures r != ""
    ensures n < 10 ==> r == ['0' + n as char]
  {
    var digit := ['0' + (n % 10) as char];
    if n < 10 then digit else ToString(n / 10) + digit
  }

  /** The name under which a member is kept: its own, or its idp if it gave none. */
  function StoredName(idp: Idp, name: string): (r: string)
    ensures r != ""
  {
    if name == "" then ToString(idp) else name
  }

  predicate NameInUse(t: Table, name: string) {
    exists idp :: idp in t.members && t.members[idp].name == name
  }

  /** `Join` inside its write section. */
  function Admit(t: Table, idp: Idp, name: string): (Table, Outcome) {
    if idp in t.members then (t, AlreadyJoined)
    else if NameInUse(t, name) then (t, NameTaken)
    else
      (Table(t.members[idp := Entry(t.nextIdm, StoredName(idp, name))], (t.nextIdm + 1) % IDM_LIMIT),
       Joined(t.nextIdm))
  }

  ghost predicate RanksUnique(t: Table) {
    forall a, b :: a in t.members && b in t.members && t.members[a].idm == t.members[b].idm ==> a == b
  }

  ghost predicate NamesUnique(t: Table) {
    forall a, b :: a in t.members && b in t.members && t.members[a].name == t.members[b].name ==> a == b
  }

  class StaticOrganizer {
    var members: map<Idp, Entry>
    var nextIdm: nat

    function Abs(): Table
      reads this
    {
      Table(members, nextIdm)
    }

    constructor ()
      ensures Abs() == EMPTY
    {
      members, nextIdm := map[], 0;
    }

    method Join(idp: Idp, name: string) returns (out: Outcome)
      modifies this
      ensures (Abs(), out) == Admit(old(Abs()), idp, name)
      ensures out == AlreadyJoined <==> idp in old(members)
      ensures out == NameTaken <==>
                idp !in old(members) && exists m :: m in old(members) && old(members)[m].name == name
      ensures !out.Joined? ==> members == old(members) && nextIdm == old(nextIdm)
      ensures out.Joined? ==>
                && out.idm == old(nextIdm) && nextIdm == (old(nextIdm) + 1) % 0x1_0000_0000
                && members.Keys == old(members).Keys + {idp}
                && (forall m :: m in old(members) ==> members[m] == old(members)[m])
                && members[idp].idm == old(nextIdm) && (name != "" ==> members[idp].name == name)
                && (name == "" ==> members[idp].name == ToString(idp))
    {
      if idp in members {
        return AlreadyJoined;
      }
      var rest := members.Keys;
      while rest != {}
        invariant rest <= members.Keys && members == old(members) && nextIdm == old(nextIdm)
        invariant forall m :: m in members && m !in rest ==> members[m].name != name
        decreases |rest|
      {
        var m :| m in rest;
        if members[m].name == name {
          return NameTaken;
        }
        rest := rest - {m};
      }
      var idm := nextIdm;
      nextIdm := (nextIdm + 1) % IDM_LIMIT;
      members := members[idp := Entry(idm, StoredName(idp, name))];
      return Joined(idm);
    }

    /** `GetIdp(idm)`: a member of that rank, or the error for a rank nobody has. */
    method GetIdp(idm: nat) returns (found: bool, idp: Idp)
      ensures found <==> exists m :: m in members && members[m].idm == idm
      ensures found ==> idp in members && members[idp].idm == idm
      ensures found && RanksUnique(Abs()) ==> forall m :: m in members && members[m].idm == idm ==> m == idp
    {
      var rest := members.Keys;
      while rest != {}
        invariant rest <= members.Keys
        invariant forall m :: m in members && m !in rest ==> members[m].idm != idm
        decreases |rest|
      {
        var m :| m in rest;
        if members[m].idm == idm {
          return true, m;
        }
        rest := rest - {m};
      }
      return false, 0;
    }

    /** `GetIdm(idp)`, which throws for an idp that is not a member. */
    method GetIdm(idp: Idp) returns (found: bool, idm: nat)
      ensures found <==> idp in members
      ensures found ==> members[idp].idm == idm
    {
      if idp !in members {
        return false, 0;
      }
      return true, members[idp].idm;
    }
  }

  // ---- a sequence of joins --------------------------------------------------------

  datatype Request = Request(idp: Idp, name: string)

  /** The table after the joins of `h`, in order. */
  function JoinAll(h: seq<Request>): Table {
    if h == [] then EMPTY
    else Admit(JoinAll(h[..|h| - 1]), h[|h| - 1].idp, h[|h| - 1].name).0
  }

  /** The k-th join of `h` succeeds when its turn comes. */
  ghost predicate JoinsAt(h: seq<Request>, k: nat)
    requires k < |h|
  {
    Admit(JoinAll(h[..k]), h[k].idp, h[k].name).1.Joined?
  }

  ghost predicate AllJoin(h: seq<Request>) {
    forall k :: 0 <= k < |h| ==> JoinsAt(h, k)
  }

  lemma AllJoinPrefix(h: seq<Request>, n: nat)
    requires AllJoin(h) && n <= |h|
    ensures AllJoin(h[..n])
  {
    forall k | 0 <= k < n ensures JoinsAt(h[..n], k) {
      assert JoinsAt(h, k);
      assert h[..n][..k] == h[..k];
    }
  }

  ghost predicate MemberAt(t: Table, h: seq<Request>, k: nat)
    requires k < |h|
  {
    h[k].idp in t.members && t.members[h[k].idp] == Entry(k, StoredName(h[k].idp, h[k].name))
  }

  /** Member k of the history has rank k, and nobody else is in the table. */
  ghost predicate RankedBy(t: Table, h: seq<Request>) {
    && t.nextIdm == |h|
    && (forall k :: 0 <= k < |h| ==> MemberAt(t, h, k))
    && (forall m :: m in t.members ==> t.members[m].idm < |h| && h[t.members[m].idm].idp == m)
  }

  lemma RankedStep(t: Table, g: seq<Request>, req: Request)
    requires RankedBy(t, g) && |g| + 1 < IDM_LIMIT && Admit(t, req.idp, req.name).1.Joined?
    ensures RankedBy(Admit(t, req.idp, req.name).0, g + [req])
  {
    var t', h := Admit(t, req.idp, req.name).0, g + [req];
    forall k | 0 <= k < |h| ensures MemberAt(t', h, k) {
      if k < |g| {
        assert MemberAt(t, g, k) && h[k] == g[k];
      }
    }
  }

  /** Ranks are exactly the positions in join order, from 0 on without gaps. */
  lemma {:induction false} RanksAreJoinOrder(h: seq<Request>)
    requires AllJoin(h) && |h| < IDM_LIMIT
    ensures RankedBy(JoinAll(h), h) && RanksUnique(JoinAll(h))
  {
    if h != [] {
      var n := |h| - 1;
      AllJoinPrefix(h, n);
      RanksAreJoinOrder(h[..n]);
      assert JoinsAt(h, n);
      RankedStep(JoinAll(h[..n]), h[..n], h[n]);
      assert h[..n] + [h[n]] == h;
    }
  }

  // ---- joins that fail ------------------------------------------------------------

  /** How the k-th join of `h` comes out. */
  function OutcomeAt(h: seq<Request>, k: nat): Outcome
    requires k < |h|
  {
    Admit(JoinAll(h[..k]), h[k].idp, h[k].name).1
  }

  function Outcomes(h: seq<Request>): (outs: seq<Outcome>)
    ensures |outs| == |h| && forall k :: 0 <= k < |h| ==> outs[k] == OutcomeAt(h, k)
  {
    seq(|h|, k requires 0 <= k < |h| => OutcomeAt(h, k))
  }

  /** The joins among the first `n` that succeed. */
  function Successes(outs: seq<Outcome>, n: nat): (s: set<nat>)
    requires n <= |outs|
    ensures forall k: nat :: k in s <==> k < n && outs[k].Joined?
  {
    set k: nat | k < n && outs[k].Joined?
  }

  /** A successful join has left its member in the table, with its rank and its name. */
  ghost predicate KeptAt(t: Table, h: seq<Request>, outs: seq<Outcome>, k: nat)
    requires k < |h| == |outs|
  {
    outs[k].Joined? ==>
      && h[k].idp in t.members
      && t.members[h[k].idp] == Entry(outs[k].idm, StoredName(h[k].idp, h[k].name))
  }

  ghost predicate CameBy(h: seq<Request>, outs: seq<Outcome>, n: nat, m: Idp)
    requires n <= |h| == |outs|
  {
    exists k :: 0 <= k < n && outs[k].Joined? && h[k].idp == m
  }

  /** What the table holds after the first `n` joins, failed ones included. */
  ghost predicate Holds(t: Table, h: seq<Request>, outs: seq<Outcome>, n: nat)
    requires n <= |h| == |outs|
  {
    && t.nextIdm == |Successes(outs, n)| <= n
    && (forall k :: 0 <= k < n ==> KeptAt(t, h, outs, k))
    && (forall m :: m in t.members ==> CameBy(h, outs, n, m))
  }

  lemma NextSuccesses(outs: seq<Outcome>, n: nat)
    requires n < |outs|
    ensures |Successes(outs, n + 1)| == |Successes(outs, n)| + (if outs[n].Joined? then 1 else 0)
  {
    assert Successes(outs, n + 1) == Successes(outs, n) + (if outs[n].Joined? then {n} else {});
  }

  /** What `Join` does to the table. */
  lemma AdmitMeans(t: Table, idp: Idp, name: string)
    ensures var (t', out) := Admit(t, idp, name);
      && (out == AlreadyJoined <==> idp in t.members)
      && (out == NameTaken <==> idp !in t.members && NameInUse(t, name))
      && (!out.Joined? ==> t' == t)
      && (out.Joined? ==>
            && out.idm == t.nextIdm && t'.nextIdm == (t.nextIdm + 1) % IDM_LIMIT
            && t'.members == t.members[idp := Entry(t.nextIdm, StoredName(idp, name))])
  {}

  lemma HoldsStep(t: Table, h: seq<Request>, outs: seq<Outcome>, n: nat)
    requires n < |h| == |outs| && |h| < IDM_LIMIT && Holds(t, h, outs, n)
    requires outs[n] == Admit(t, h[n].idp, h[n].name).1
    ensures Holds(Admit(t, h[n].idp, h[n].name).0, h, outs, n + 1)
  {
    var t' := Admit(t, h[n].idp, h[n].name).0;
    AdmitMeans(t, h[n].idp, h[n].name);
    NextSuccesses(outs, n);
    forall k | 0 <= k <= n ensures KeptAt(t', h, outs, k) {
      assert k < n ==> KeptAt(t, h, outs, k);
    }
    forall m | m in t'.members ensures CameBy(h, outs, n + 1, m) {
      assert m in t.members ==> CameBy(h, outs, n, m);
    }
  }

  lemma JoinAllStep(h: seq<Request>, n: nat)
    requires 0 < n <= |h|
    ensures JoinAll(h[..n]) == Admit(JoinAll(h[..n - 1]), h[n - 1].idp, h[n - 1].name).0
  {
    var g := h[..n];
    assert g[..|g| - 1] == h[..n - 1] && g[|g| - 1] == h[n - 1];
  }

  lemma {:induction false} JoinsHold(h: seq<Request>, n: nat)
    requires n <= |h| < IDM_LIMIT
    ensures Holds(JoinAll(h[..n]), h, Outcomes(h), n)
  {
    var outs := Outcomes(h);
    if n == 0 {
      assert Successes(outs, 0) == {};
    } else {
      JoinsHold(h, n - 1);
      JoinAllStep(h, n);
      HoldsStep(JoinAll(h[..n - 1]), h, outs, n - 1);
    }
  }

  /** Over any sequence of joins: one fails as a duplicate exactly if a successful one before it
      had the same idp; it fails for its name exactly if a successful one before it is kept
      under that name; otherwise it is given as rank the number of successful joins before
      it, so failed joins use up no rank. */
  lemma OutcomeExactly(h: seq<Request>, k: nat)
    requires k < |h| < IDM_LIMIT
    ensures OutcomeAt(h, k) == AlreadyJoined <==>
            exists j :: 0 <= j < k && Outcomes(h)[j].Joined? && h[j].idp == h[k].idp
    ensures OutcomeAt(h, k) == NameTaken <==>
            && OutcomeAt(h, k) != AlreadyJoined
            && exists j :: 0 <= j < k && Outcomes(h)[j].Joined? && StoredName(h[j].idp, h[j].name) == h[k].name
    ensures OutcomeAt(h, k).Joined? ==>
            OutcomeAt(h, k).idm == |set j: nat | j < k && Outcomes(h)[j].Joined?|
  {
    JoinsHold(h, k);
    AdmitExactly(JoinAll(h[..k]), h, Outcomes(h), k);
    assert Successes(Outcomes(h), k) == set j: nat | j < k && Outcomes(h)[j].Joined?;
  }

  lemma AdmitExactly(t: Table, h: seq<Request>, outs: seq<Outcome>, k: nat)
    requires k < |h| == |outs| && Holds(t, h, outs, k)
    ensures var out := Admit(t, h[k].idp, h[k].name).1;
      && (out == AlreadyJoined <==> exists j :: 0 <= j < k && outs[j].Joined? && h[j].idp == h[k].idp)
      && (out == NameTaken <==>
            && out != AlreadyJoined
            && exists j :: 0 <= j < k && outs[j].Joined? && StoredName(h[j].idp, h[j].name) == h[k].name)
      && (out.Joined? ==> out.idm == |Successes(outs, k)|)
  {
    AdmitMeans(t, h[k].idp, h[k].name);
    forall j | 0 <= j < k && outs[j].Joined?
      ensures h[j].idp in t.members && t.members[h[j].idp].name == StoredName(h[j].idp, h[j].name)
    {
      assert KeptAt(t, h, outs, j);
    }
    forall m | m in t.members ensures CameBy(h, outs, k, m) {}
  }

  // ---- joins that succeed ---------------------------------------------------------

  /** Fresh idps and distinct names are enough for every join to succeed. */
  lemma {:induction false} DistinctRequestsJoin(h: seq<Request>)
    requires |h| < IDM_LIMIT
    requires forall i, j :: 0 <= i < j < |h| ==>
               h[i].idp != h[j].idp && StoredName(h[i].idp, h[i].name) != StoredName(h[j].idp, h[j].name)
    ensures AllJoin(h)
  {
    if h != [] {
      var n := |h| - 1;
      var g := h[..n];
      DistinctRequestsJoin(g);
      RanksAreJoinOrder(g);
      FreshRequestJoins(JoinAll(g), g, h[n]);
      forall k | 0 <= k < |h| ensures JoinsAt(h, k) {
        if k < n {
          assert JoinsAt(g, k);
          assert h[..k] == g[..k] && h[k] == g[k];
        }
      }
    }
  }

  lemma FreshRequestJoins(t: Table, g: seq<Request>, req: Request)
    requires RankedBy(t, g)
    requires forall k :: 0 <= k < |g| ==>
               g[k].idp != req.idp && StoredName(g[k].idp, g[k].name) != StoredName(req.idp, req.name)
    ensures Admit(t, req.idp, req.name).1 == Joined(|g|)
  {
    forall m | m in t.members ensures m != req.idp && t.members[m].name != req.name {
      assert MemberAt(t, g, t.members[m].idm);
    }
  }

  /** The name check looks at the name as given: an unnamed member is kept under its idp
      without a check. Names stay unique exactly when that idp is not already a name. */
  lemma NamesStayUnique(t: Table, idp: Idp, name: string)
    requires NamesUnique(t) && Admit(t, idp, name).1.Joined?
    ensures NamesUnique(Admit(t, idp, name).0) <==> !(name == "" && NameInUse(t, ToString(idp)))
  {
    var t' := Admit(t, idp, name).0;
    if name == "" && NameInUse(t, ToString(idp)) {
      var m :| m in t.members && t.members[m].name == ToString(idp);
      assert t'.members[m].name == t'.members[idp].name;
    }
  }

  lemma AppendDigit(n: nat, s: string, digit: nat)
    requires 0 < n && ToString(n) == s && digit < 10
    ensures ToString(10 * n + digit) == s + ['0' + digit as char]
  {}

  /** The second idp of the first page, as a name. */
  lemma SecondIdpAsName()
    ensures ToString(4294967039) == "4294967039"
  {
    AppendDigit(4, "4", 2);
    AppendDigit(42, "42", 9);
    AppendDigit(429, "429", 4);
    AppendDigit(4294, "4294", 9);
    AppendDigit(42949, "42949", 6);
    AppendDigit(429496, "429496", 7);
    AppendDigit(4294967, "4294967", 0);
    AppendDigit(42949670, "42949670", 3);
    AppendDigit(429496703, "429496703", 9);
  }

  /** For example, with the first two idps of the first page: a member takes the second one as
      its name, and then that one joins without a name. */
  lemma NamesClash()
    ensures var t := Admit(Admit(EMPTY, 4294967040, "4294967039").0, 4294967039, "").0;
      && 4294967040 in t.members && 4294967039 in t.members
      && t.members[4294967040].name == t.members[4294967039].name
  {
    SecondIdpAsName();
    var t1 := Admit(EMPTY, 4294967040, "4294967039").0;
    assert t1.members == map[4294967040 := Entry(0, "4294967039")];
  }
}
