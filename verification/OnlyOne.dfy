/** Sharing an opened repository between users, counted by a uint32 that may
    be decremented past zero. */
module OnlyOne {

  const UINT32 := 0x1_0000_0000

  type Key = nat

  // The value of a uint32 variable.
  function Wrapped(n: int): nat {
    n % UINT32
  }

  lemma WrappedStep(n: int)
    ensures Wrapped(Wrapped(n) + 1) == Wrapped(n + 1)
    ensures Wrapped(Wrapped(n) - 1) == Wrapped(n - 1)
  {
  }

  // It fits 32 bits and differs from n by a multiple of 2^32.
  lemma WrappedIs(n: int)
    ensures Wrapped(n) < 0x1_0000_0000 && exists q: int :: n == Wrapped(n) + q * 0x1_0000_0000
  {
    assert n == Wrapped(n) + (n / UINT32) * 0x1_0000_0000;
  }

  lemma WrappedZero()
    ensures Wrapped(0) == 0
  {
  }

  class Ref {
    const key: Key
    var refs: nat
    // How often the underlying repository was closed.
    var repoCloses: nat
    // How often this reference was handed out and closed.
    ghost var opens: nat
    ghost var closes: nat

    constructor (key: Key)
      ensures this.key == key && refs == 0 && repoCloses == 0 && opens == 0 && closes == 0
    {
      this.key, refs, repoCloses := key, 0, 0;
      opens, closes := 0, 0;
    }

    // The repository is open as long as fewer closes than opens happened.
    ghost predicate Live()
      reads this
    {
      closes < opens
    }

    ghost predicate Counted(ops: nat)
      reads this
    {
      && opens >= 1 && opens + closes <= ops
      && refs == Wrapped(opens - closes)
      && repoCloses == if Live() then 0 else 1
    }
  }

  // With fewer than 2^32 operations the counter is zero only when opens and
  // closes balance, however far it wrapped.
  lemma CounterIsZeroIffBalanced(opens: nat, closes: nat)
    requires opens + closes < UINT32
    ensures Wrapped(opens - closes) == 0 <==> opens == closes
  {
  }

  class Repos {
    var active: map<Key, Ref>
    ghost var all: set<Ref>
    ghost var ops: nat

    constructor ()
      ensures Valid() && ops == 0 && all == {}
    {
      active, all, ops := map[], {}, 0;
    }

    // Each repository is closed exactly once, when its closes first reach its
    // opens, and the map holds exactly the live references.
    ghost predicate Valid()
      reads this, all
    {
      && (forall r :: r in all ==> r.Counted(ops))
      && (forall r :: r in all ==> (r.Live() <==> r.key in active && active[r.key] == r))
      && (forall k :: k in active ==> active[k] in all && active[k].key == k)
    }

    // So open is called, which happens for keys outside the map, only when no
    // reference for the key is live.
    lemma ActiveIffLive(key: Key)
      requires Valid()
      ensures key in active <==> exists r :: r in all && r.key == key && r.Live()
    {
      if key in active { assert active[key] in all && active[key].Live(); }
    }

    method Open(key: Key, openSucceeds: bool) returns (item: Ref?, called: bool)
      requires Valid() && ops + 1 < UINT32
      modifies this, all
      ensures Valid() && ops == old(ops) + 1
      ensures called <==> key !in old(active)
      ensures item == null <==> called && !openSucceeds
      ensures item == null ==> active == old(active) && all == old(all)
      ensures item != null ==> item.key == key && item.Live() && active == old(active)[key := item] && all == old(all) + {item}
      ensures item != null && called ==> fresh(item) && item.opens == 1 && item.closes == 0
      ensures item != null && !called ==> item in old(all) && item.opens == old(item.opens) + 1 && item.closes == old(item.closes)
      ensures forall r :: r in old(all) && r != item ==> unchanged(r)
    {
      hide Wrapped;
      assert Wrapped(0) == 0 by { WrappedZero(); }
      ops := ops + 1;
      called := key !in active;
      if called {
        if !openSucceeds { return null, called; }
        item := new Ref(key);
        active := active[key := item];
        all := all + {item};
      } else {
        item := active[key];
      }
      WrappedStep(item.opens - item.closes);
      item.refs, item.opens := Wrapped(item.refs + 1), item.opens + 1;
      forall r | r in all
        ensures r.Counted(ops) && (r.Live() <==> r.key in active && active[r.key] == r)
      {
        if r != item { assert unchanged(r) && old(r.Counted(ops)); }
      }
    }

    method Close(r: Ref) returns (closedRepo: bool)
      requires Valid() && r in all && ops + 1 < UINT32
      modifies this, r
      ensures Valid() && ops == old(ops) + 1 && all == old(all)
      ensures r.opens == old(r.opens) && r.closes == old(r.closes) + 1
      ensures closedRepo <==> r.closes == r.opens
      ensures r.repoCloses == old(r.repoCloses) + if closedRepo then 1 else 0
      ensures active == if closedRepo then old(active) - {r.key} else old(active)
      ensures forall k :: k in old(active) && old(active)[k] != r ==> k in active && active[k] == old(active)[k]
    {
      hide Wrapped;
      assert r.Counted(ops);
      WrappedStep(r.opens - r.closes);
      CounterIsZeroIffBalanced(r.opens, r.closes + 1);
      ops, r.closes, r.refs := ops + 1, r.closes + 1, Wrapped(r.refs - 1);
      if r.refs > 0 { return false; }
      active := active - {r.key};
      r.repoCloses := r.repoCloses + 1;
      closedRepo := true;
    }
  }
}
