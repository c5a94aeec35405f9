/**
 The bookkeeping of `LocalBrowserPool` that runs without an `await` (backend/browser_pool.py):
 building the pool from a list of endpoints, hot-adding and removing endpoints, counting free slots.
 */
module BrowserSlots {
  import opened Common

  type Endpoint = nat

  function Members(endpoints: seq<Endpoint>): set<Endpoint> {
    set ep | ep in endpoints
  }

  ghost predicate Distinct(endpoints: seq<Endpoint>) {
    forall i, j :: 0 <= i < j < |endpoints| ==> endpoints[i] != endpoints[j]
  }

  lemma MembersSnoc(endpoints: seq<Endpoint>)
    requires endpoints != []
    ensures Members(endpoints) == Members(endpoints[..|endpoints| - 1]) + {endpoints[|endpoints| - 1]}
  {
    var n := |endpoints| - 1;
    assert endpoints == endpoints[..n] + [endpoints[n]];
  }

  /** A list names as many endpoints as it has elements exactly when it has no duplicates. */
  lemma {:induction false} CountsMembersIff(endpoints: seq<Endpoint>)
    ensures |Members(endpoints)| <= |endpoints|
    ensures |Members(endpoints)| == |endpoints| <==> Distinct(endpoints)
  {
    if endpoints != [] {
      var n := |endpoints| - 1;
      var prefix := endpoints[..n];
      CountsMembersIff(prefix);
      MembersSnoc(endpoints);
      if endpoints[n] in prefix {
        var i :| 0 <= i < n && prefix[i] == endpoints[n];
        assert !Distinct(endpoints);
        assert Members(endpoints) == Members(prefix);
      } else {
        assert Distinct(prefix) ==> Distinct(endpoints);
        assert Distinct(endpoints) ==> Distinct(prefix);
      }
    }
  }

  /** Those of the given endpoints whose slot holds its token. */
  function FreeAmong(slots: map<Endpoint, bool>, eps: set<Endpoint>): set<Endpoint> {
    set ep | ep in eps && ep in slots && slots[ep]
  }

  lemma FreeAmongRest(slots: map<Endpoint, bool>, eps: set<Endpoint>, ep: Endpoint)
    requires ep in eps && ep in slots
    ensures |FreeAmong(slots, eps)| == |FreeAmong(slots, eps - {ep})| + (if slots[ep] then 1 else 0)
  {
    if slots[ep] {
      assert FreeAmong(slots, eps) == FreeAmong(slots, eps - {ep}) + {ep};
    } else {
      assert FreeAmong(slots, eps) == FreeAmong(slots, eps - {ep});
    }
  }

  class LocalBrowserPool {
    var slots: map<Endpoint, bool>
    var profiles: map<Endpoint, Endpoint>
    var total: int

    /** The reported total is the length of the list; it is the number of slots exactly when the list is distinct. */
    constructor (endpoints: seq<Endpoint>)
      ensures slots.Keys == Members(endpoints) && (forall ep :: ep in slots ==> slots[ep])
      ensures profiles.Keys == Members(endpoints) && (forall ep :: ep in profiles ==> profiles[ep] == ep)
      ensures total == |endpoints|
      ensures total == |slots| <==> Distinct(endpoints)
    {
      slots, profiles := map[], map[];
      total := |endpoints|;
      new;
      var i := 0;
      while i < |endpoints|
        invariant 0 <= i <= |endpoints| && total == |endpoints|
        invariant slots.Keys == Members(endpoints[..i]) && (forall ep :: ep in slots ==> slots[ep])
        invariant profiles.Keys == Members(endpoints[..i]) && (forall ep :: ep in profiles ==> profiles[ep] == ep)
      {
        assert endpoints[..i + 1][..i] == endpoints[..i];
        MembersSnoc(endpoints[..i + 1]);
        slots := slots[endpoints[i] := true];
        profiles := profiles[endpoints[i] := endpoints[i]];
        i := i + 1;
      }
      assert endpoints[..i] == endpoints;
      CountsMembersIff(endpoints);
      assert |slots| == |slots.Keys|;
    }

    /** Hot-adding twice changes nothing; the error of the reported total never changes. */
    method AddEndpoint(ep: Endpoint)
      modifies this
      ensures slots == if ep in old(slots) then old(slots) else old(slots)[ep := true]
      ensures profiles == if ep in old(slots) || ep in old(profiles) then old(profiles) else old(profiles)[ep := ep]
      ensures total - |slots| == old(total) - |old(slots)|
    {
      if ep in slots {
        return;
      }
      assert slots[ep := true].Keys == slots.Keys + {ep};
      slots := slots[ep := true];
      if ep !in profiles {
        profiles := profiles[ep := ep];
      }
      total := total + 1;
    }

    method RemoveEndpoint(ep: Endpoint)
      modifies this
      ensures slots == Pop(old(slots), ep)
      ensures ep in old(slots) ==> profiles == Pop(old(profiles), ep)
      ensures ep !in old(slots) ==> profiles == old(profiles)
      ensures total - |slots| == old(total) - |old(slots)|
    {
      if ep !in slots {
        assert Pop(slots, ep) == slots;
        return;
      }
      assert Pop(slots, ep).Keys == slots.Keys - {ep};
      slots := Pop(slots, ep);
      profiles := Pop(profiles, ep);
      total := total - 1;
    }

    method Available() returns (n: nat)
      ensures n == |FreeAmong(slots, slots.Keys)|
    {
      n := 0;
      var rest := slots.Keys;
      while rest != {}
        invariant rest <= slots.Keys
        invariant n + |FreeAmong(slots, rest)| == |FreeAmong(slots, slots.Keys)|
        decreases rest
      {
        var ep :| ep in rest;
        FreeAmongRest(slots, rest, ep);
        if slots[ep] {
          n := n + 1;
        }
        rest := rest - {ep};
      }
    }
  }
}
