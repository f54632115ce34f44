/** The cache bank with its request table (src/quetz_window_cache_bank.h): which response belongs to which core's
    cache. */
module CacheOwnership {
  import opened WindowCache
  import opened CacheTransactions
  import opened CacheBank

  datatype Pending = Pending(vcpu: nat, read: bool)

  datatype Status = Accepted | Refused

  /** Request ids are unique: each core has at most one request out, and its flag says so. */
  ghost predicate TableOk(outstanding: seq<bool>, pending: map<nat, Pending>) {
    && (forall id {:trigger pending[id]} | id in pending ::
            pending[id].vcpu < |outstanding| && outstanding[pending[id].vcpu])
    && (forall v {:trigger outstanding[v]} | 0 <= v < |outstanding| && outstanding[v] :: HasRequest(pending, v))
    && (forall a, b {:trigger pending[a], pending[b]} | a in pending && b in pending
          && pending[a].vcpu == pending[b].vcpu :: a == b)
  }

  ghost predicate HasRequest(pending: map<nat, Pending>, v: nat) { exists id | id in pending :: pending[id].vcpu == v }

  lemma IssueKeeps(outstanding: seq<bool>, pending: map<nat, Pending>, v: nat, id: nat, read: bool)
    requires TableOk(outstanding, pending) && v < |outstanding| && !outstanding[v] && id !in pending
    ensures TableOk(outstanding[v := true], pending[id := Pending(v, read)])
  {
    var after := pending[id := Pending(v, read)];
    forall u | 0 <= u < |outstanding| && outstanding[v := true][u] ensures HasRequest(after, u) {
      if u == v { assert after[id].vcpu == v; }
      else {
        assert outstanding[u] && HasRequest(pending, u);
        var x :| x in pending && pending[x].vcpu == u;
        assert after[x].vcpu == u;
      }
    }
  }

  lemma CompleteKeeps(outstanding: seq<bool>, pending: map<nat, Pending>, id: nat)
    requires TableOk(outstanding, pending) && id in pending
    ensures pending[id].vcpu < |outstanding| && TableOk(outstanding[pending[id].vcpu := false], pending - {id})
  {
    var v, after := pending[id].vcpu, pending - {id};
    forall u | 0 <= u < |outstanding| && outstanding[v := false][u] ensures HasRequest(after, u) {
      assert outstanding[u] && HasRequest(pending, u);
      var x :| x in pending && pending[x].vcpu == u;
      assert after[x].vcpu == u;
    }
    forall x | x in after ensures after[x].vcpu < |outstanding| && outstanding[v := false][after[x].vcpu] {
      assert pending[x].vcpu == v ==> x == id;
    }
  }

  /** The outstanding request of a cache is one that brings bytes back. */
  predicate AwaitsBytes(c: Cache) { c.pending.Fill? || c.pending.BypassRead? }

  /** Flags, table and caches tell the same story: a core has a request out exactly while its cache awaits an answer,
      and the table knows whether that answer brings bytes. */
  ghost predicate CachesOk(caches: seq<Cache>, outstanding: seq<bool>, pending: map<nat, Pending>) {
    && |caches| == |outstanding|
    && (forall v {:trigger caches[v]} | 0 <= v < |caches| ::
          WindowCache.Valid(caches[v]) && (outstanding[v] <==> !caches[v].pending.Idle?)
              && (outstanding[v] ==> caches[v].active))
    && (forall id {:trigger pending[id]} | id in pending && pending[id].vcpu < |caches| ::
            pending[id].read == AwaitsBytes(caches[pending[id].vcpu]))
  }

  /** One core's cache and flag change, and its table entry with them. */
  lemma CachesKept(caches: seq<Cache>, outstanding: seq<bool>, pending: map<nat, Pending>, v: nat, c: Cache, out: bool,
                   after: map<nat, Pending>)
    requires TableOk(outstanding, pending) && CachesOk(caches, outstanding, pending) && v < |caches|
    requires WindowCache.Valid(c) && (out <==> !c.pending.Idle?) && (out ==> c.active)
    requires forall id {:trigger after[id]} | id in after ::
               if after[id].vcpu == v then after[id].read == AwaitsBytes(c)
               else id in pending && after[id] == pending[id]
    ensures CachesOk(caches[v := c], outstanding[v := out], after)
  {
    var caches', outstanding' := caches[v := c], outstanding[v := out];
    forall u | 0 <= u < |caches'|
      ensures WindowCache.Valid(caches'[u]) && (outstanding'[u] <==> !caches'[u].pending.Idle?)
              && (outstanding'[u] ==> caches'[u].active)
    {
      assert u != v ==> caches'[u] == caches[u] && outstanding'[u] == outstanding[u];
    }
    forall id | id in after && after[id].vcpu < |caches'|
      ensures after[id].read == AwaitsBytes(caches'[after[id].vcpu])
    {
      if after[id].vcpu != v { assert pending[id].read == AwaitsBytes(caches[pending[id].vcpu]); }
    }
  }

  lemma NextKind(c: Cache)
    requires Running(c)
    ensures (var (d, a) := Next(c);
             && WindowCache.Valid(d)
             && if a.Done? then d.pending.Idle? else d.active && !d.pending.Idle? && (a.Read? <==> AwaitsBytes(d)))
  {
    NextKeepsStructure(c);
    if !Next(c).1.Done? { NextAwaits(c); }
  }

  class WindowCacheBank {
    var caches: seq<Cache>
    var outstanding: seq<bool>
    var pending: map<nat, Pending>

    ghost predicate Valid() reads this { TableOk(outstanding, pending) && CachesOk(caches, outstanding, pending) }

    constructor (cores: nat)
      ensures Valid() && |caches| == cores && pending == map[] && forall v | 0 <= v < cores :: caches[v] == Fresh
    {
      caches, outstanding, pending := seq(cores, _ => Fresh), seq(cores, _ => false), map[];
      new;
      FreshValid();
    }

    /** The next half-step of core v, and the record of the request it makes, if any. Refused, with nothing changed,
        exactly when the core's cache is idle, it has a request out already, or the id for its request is in use. */
    method Issue(v: nat, id: nat) returns (status: Status, action: Action)
      requires Valid() && v < |caches|
      modifies this
      ensures Valid()
      ensures status.Accepted? == old(Running(caches[v]) && !outstanding[v]
                                      && (Next(caches[v]).1.Done? || id !in pending))
      ensures old(Running(caches[v])) == old(caches[v].active && !outstanding[v])
      ensures status.Refused? ==> caches == old(caches) && outstanding == old(outstanding) && pending == old(pending)
      ensures status.Accepted? ==>
                && Running(old(caches[v])) && action == Next(old(caches[v])).1
                   && caches == old(caches)[v := Next(old(caches[v])).0]
                && pending == (if action.Done? then old(pending) else old(pending)[id := Pending(v, action.Read?)])
    {
      if !caches[v].active || outstanding[v] { return Refused, Done([]); }
      var r := Next(caches[v]);
      NextKind(caches[v]);
      if !r.1.Done? && id in pending { return Refused, Done([]); }
      action := r.1;
      if action.Done? {
        CachesKept(caches, outstanding, pending, v, r.0, false, pending);
        assert outstanding[v := false] == outstanding;
      } else {
        IssueKeeps(outstanding, pending, v, id, action.Read?);
        CachesKept(caches, outstanding, pending, v, r.0, true, pending[id := Pending(v, action.Read?)]);
        pending := pending[id := Pending(v, action.Read?)];
        outstanding := outstanding[v := true];
      }
      caches := caches[v := r.0];
      status := Accepted;
    }

    /** Delivers a response: into the cache of the core that asked and no other, only of the kind it asked for and of
        the right length, and only once. Anything else is refused and changes nothing. */
    method Complete(id: nat, v: nat, read: bool, bytes: seq<Byte>) returns (status: Status)
      requires Valid() && v < |caches|
      modifies this
      ensures Valid()
      ensures status.Accepted? == (id in old(pending) && old(pending)[id] == Pending(v, read)
                                   && (read ==> |bytes| == Expected(old(caches[v]))))
      ensures status.Refused? ==> caches == old(caches) && outstanding == old(outstanding) && pending == old(pending)
      ensures status.Accepted? ==>
                && AwaitsBytes(old(caches[v])) == read && old(caches[v].active && !caches[v].pending.Idle?)
                && caches == old(caches)[v := WindowCache.Complete(old(caches[v]), bytes)]
                && pending == old(pending) - {id} && outstanding == old(outstanding)[v := false]
    {
      if id !in pending || pending[id] != Pending(v, read) { return Refused; }
      if read && |bytes| != Expected(caches[v]) { return Refused; }
      assert outstanding[v] && pending[id].read == AwaitsBytes(caches[v]);
      CompleteKeepsStructure(caches[v], bytes);
      CompleteKeeps(outstanding, pending, id);
      CachesKept(caches, outstanding, pending, v, WindowCache.Complete(caches[v], bytes), false, pending - {id});
      caches := caches[v := WindowCache.Complete(caches[v], bytes)];
      outstanding := outstanding[v := false];
      pending := pending - {id};
      return Accepted;
    }

    /** Resets a core that has nothing out and whose cache is idle: its controls are cleared, its lines and everything
        of the other cores kept. */
    method ResetCore(v: nat) returns (status: Status)
      requires Valid() && v < |caches|
      modifies this`caches
      ensures Valid()
      ensures status.Accepted? == !old(outstanding[v] || caches[v].active)
      ensures status.Accepted? ==> Reset(old(caches[v])).Ok? && caches == old(caches)[v := Reset(old(caches[v])).value]
      ensures status.Refused? ==> caches == old(caches)
    {
      if outstanding[v] || caches[v].active { return Refused; }
      ConfigurationKeepsStructure(caches[v], Region(0, 0));
      CachesKept(caches, outstanding, pending, v, Reset(caches[v]).value, false, pending);
      assert outstanding[v := false] == outstanding;
      caches := caches[v := Reset(caches[v]).value];
      return Accepted;
    }
  }
}
