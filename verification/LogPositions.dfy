/** What the functions of the log say, in terms of its positions alone. */
module LogPositions {
  import opened Consistency
  import opened Protocol

  /** `v` is what the last invalidation before position `n` released, or nothing was. */
  ghost predicate IsLatest(log: Log, n: nat, v: Value)
    requires n <= |log|
  {
    if exists j :: 0 <= j < n && log[j].Invalidate?
    then exists j :: 0 <= j < n && log[j] == Invalidate(log[j].from, v) && forall i :: j < i < n ==> !log[i].Invalidate?
    else v == []
  }

  lemma {:induction false} ReleasedIsLatest(log: Log, n: nat)
    requires n <= |log|
    ensures IsLatest(log, n, Released(log, n))
  {
    if n > 0 {
      ReleasedIsLatest(log, n - 1);
      if log[n - 1].Invalidate? {
        assert log[n - 1] == Invalidate(log[n - 1].from, log[n - 1].val);
      }
    }
  }

  /** The last pod that asked for the token before position `n` is `p`; the owner if none did. */
  ghost predicate IsTurnOf(owner: PodId, log: Log, n: nat, p: PodId)
    requires n <= |log|
  {
    if exists j :: 0 <= j < n && log[j].TokenUpdateRequest?
    then exists j :: 0 <= j < n && log[j] == TokenUpdateRequest(p)
                     && forall i :: j < i < n ==> !log[i].TokenUpdateRequest?
    else p == owner
  }

  lemma {:induction false} HolderHasTurn(owner: PodId, log: Log, n: nat)
    requires n <= |log|
    ensures IsTurnOf(owner, log, n, Holder(owner, log, n))
  {
    if n > 0 {
      if log[n - 1].TokenUpdateRequest? {
        assert log[n - 1] == TokenUpdateRequest(Holder(owner, log, n));
      } else {
        HolderHasTurn(owner, log, n - 1);
        assert Holder(owner, log, n) == Holder(owner, log, n - 1);
      }
    }
  }

  /** Where the token is asked for before position `n`, and where it is sent. */
  ghost function TokenAsked(log: Log, n: nat): (asked: set<nat>)
    requires n <= |log|
    ensures forall i :: i in asked <==> 0 <= i < n && log[i].TokenUpdateRequest?
  {
    set i: nat | i < n && log[i].TokenUpdateRequest?
  }

  ghost function TokenSent(log: Log, n: nat): (sent: set<nat>)
    requires n <= |log|
    ensures forall i :: i in sent <==> 0 <= i < n && log[i].TokenUpdateReply?
  {
    set i: nat | i < n && log[i].TokenUpdateReply?
  }

  /** Request number `k` for the token, counted from 0, is that of `p`. */
  ghost predicate AsksAs(log: Log, k: nat, p: PodId) {
    exists j: nat :: j < |log| && log[j] == TokenUpdateRequest(p) && |TokenAsked(log, j)| == k
  }

  lemma {:induction false} CountAsked(log: Log, n: nat)
    requires n <= |log|
    ensures |TokenRequesters(log, n)| == |TokenAsked(log, n)|
  {
    if n == 0 {
      assert TokenAsked(log, n) == {};
    } else {
      CountAsked(log, n - 1);
      var asked := TokenAsked(log, n - 1);
      assert TokenAsked(log, n) == if log[n - 1].TokenUpdateRequest? then asked + {n - 1} else asked;
    }
  }

  lemma {:induction false} CountSent(log: Log, n: nat)
    requires n <= |log|
    ensures |TokenReceivers(log, n)| == |TokenSent(log, n)|
  {
    if n == 0 {
      assert TokenSent(log, n) == {};
    } else {
      CountSent(log, n - 1);
      var sent := TokenSent(log, n - 1);
      assert TokenSent(log, n) == if log[n - 1].TokenUpdateReply? then sent + {n - 1} else sent;
    }
  }

  lemma {:induction false} RequesterAsks(log: Log, n: nat, k: nat)
    requires n <= |log| && k < |TokenRequesters(log, n)|
    ensures AsksAs(log, k, TokenRequesters(log, n)[k])
    decreases n
  {
    if k < |TokenRequesters(log, n - 1)| {
      RequesterAsks(log, n - 1, k);
    } else {
      CountAsked(log, n - 1);
      assert log[n - 1] == TokenUpdateRequest(TokenRequesters(log, n)[k]);
    }
  }
}
