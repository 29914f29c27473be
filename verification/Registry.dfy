/** Maps of keys to sets of values, without empty buckets. */
module SetMaps {
  type SetMap = map<nat, set<nat>>

  predicate Has(m: SetMap, k: nat, v: nat) {
    k in m && v in m[k]
  }

  predicate NoEmptyBucket(m: SetMap) {
    forall k :: k in m ==> m[k] != {}
  }

  function Insert(m: SetMap, k: nat, v: nat): (r: SetMap)
    ensures forall k', v' :: Has(r, k', v') <==> Has(m, k', v') || (k' == k && v' == v)
    ensures NoEmptyBucket(m) ==> NoEmptyBucket(r)
  {
    m[k := (if k in m then m[k] else {}) + {v}]
  }

  function Remove(m: SetMap, k: nat, v: nat): (r: SetMap)
    ensures forall k', v' :: Has(r, k', v') <==> Has(m, k', v') && !(k' == k && v' == v)
    ensures NoEmptyBucket(m) ==> NoEmptyBucket(r)
  {
    if k !in m then m
    else if m[k] <= {v} then m - {k}
    else m[k := m[k] - {v}]
  }

  /** Two maps without empty buckets are the same if they relate the same pairs. */
  lemma SameRelation(a: SetMap, b: SetMap)
    requires NoEmptyBucket(a) && NoEmptyBucket(b)
    requires forall k, v :: Has(a, k, v) <==> Has(b, k, v)
    ensures a == b
  {
    forall k
      ensures k in a <==> k in b
      ensures k in a && k in b ==> a[k] == b[k]
    {
      if k in a {
        var v :| v in a[k];
        assert Has(a, k, v);
      }
      if k in b {
        var v :| v in b[k];
        assert Has(b, k, v);
      }
      if k in a && k in b {
        forall v
          ensures v in a[k] <==> v in b[k]
        {
          assert Has(a, k, v) <==> Has(b, k, v);
        }
      }
    }
  }

  /** Maps of K to sets of V and V to sets of K simultaneously. */
  class DoubleSetMap {
    var byKey: SetMap
    var byValue: SetMap

    /** The two maps are each other's converse. */
    ghost predicate Converse()
      reads this
    {
      forall k, v :: Has(byKey, k, v) <==> Has(byValue, v, k)
    }

    ghost predicate Valid()
      reads this
    {
      Converse() && NoEmptyBucket(byKey) && NoEmptyBucket(byValue)
    }

    constructor ()
      ensures Valid() && byKey == map[]
    {
      byKey, byValue := map[], map[];
    }

    method Add(k: nat, v: nat)
      requires Valid()
      modifies this
      ensures Valid() && byKey == Insert(old(byKey), k, v)
    {
      byKey := Insert(byKey, k, v);
      byValue := Insert(byValue, v, k);
    }

    method RemoveByKey(k: nat)
      requires Valid()
      modifies this
      ensures Valid() && byKey == old(byKey) - {k}
    {
      if k in byKey {
        var values := byKey[k];
        byKey := byKey - {k};
        while values != {}
          invariant NoEmptyBucket(byKey) && NoEmptyBucket(byValue)
          invariant byKey == old(byKey) - {k}
          invariant forall a, v :: Has(byValue, v, a) <==> Has(byKey, a, v) || (a == k && v in values)
          decreases |values|
        {
          var v :| v in values;
          byValue := Remove(byValue, v, k);
          values := values - {v};
        }
      } else {
        assert byKey - {k} == byKey;
      }
    }

    /** Removing one pair keeps the maps converse, but leaves an empty bucket
        behind exactly when the value was the only one under its key. */
    method RemoveByKeyValue(k: nat, v: nat)
      requires Valid()
      modifies this
      ensures Converse() && NoEmptyBucket(byValue)
      ensures forall k', v' :: Has(byKey, k', v') <==> old(Has(byKey, k', v')) && !(k' == k && v' == v)
      ensures NoEmptyBucket(byKey) <==> !(k in old(byKey) && old(byKey)[k] == {v})
    {
      if k in byKey {
        var had := v in byKey[k];
        byKey := byKey[k := byKey[k] - {v}];
        if had {
          byValue := Remove(byValue, v, k);
        }
        assert old(byKey)[k] != {};
        assert byKey[k] == {} <==> old(byKey)[k] == {v};
        assert forall a :: a in byKey && a != k ==> byKey[a] == old(byKey)[a];
      }
    }
  }
}

/** The registry of connected clients and their feed subscriptions. */
module Registries {
  import opened Wrappers
  import opened SetMaps

  datatype Descriptor = Descriptor(thread: Option<nat>, pubKey: Option<nat>)

  datatype Registry = Registry(clients: map<nat, Descriptor>, byThread: SetMap, byPubKey: SetMap, needInit: SetMap)

  const EMPTY := Registry(map[], map[], map[], map[])

  function AddClient(r: Registry, id: nat): Registry {
    r.(clients := r.clients[id := Descriptor(None, None)])
  }

  function RemoveFromThread(r: Registry, client: nat, thread: Option<nat>): Registry {
    match thread
    case None => r
    case Some(t) => r.(byThread := Remove(r.byThread, t, client), needInit := Remove(r.needInit, t, client))
  }

  function RemoveClient(r: Registry, id: nat): Registry {
    if id !in r.clients then r
    else
      var d := r.clients[id];
      var r1 := r.(clients := r.clients - {id});
      var r2 := if d.pubKey.Some? then r1.(byPubKey := Remove(r1.byPubKey, d.pubKey.value, id)) else r1;
      RemoveFromThread(r2, id, d.thread)
  }

  function SetClientKey(r: Registry, id: nat, key: nat): Registry {
    if id !in r.clients then r
    else r.(byPubKey := Insert(r.byPubKey, key, id), clients := r.clients[id := r.clients[id].(pubKey := Some(key))])
  }

  function SetClientThread(r: Registry, id: nat, thread: nat): Registry {
    if id !in r.clients then r
    else
      var d := r.clients[id];
      var r1 := r.(clients := r.clients[id := d.(thread := Some(thread))]);
      var r2 := RemoveFromThread(r1, id, d.thread);
      r2.(byThread := Insert(r2.byThread, thread, id), needInit := Insert(r2.needInit, thread, id))
  }

  /** The drainer of a pulse: it takes the registrations of the global feed and
      of the known feeds, and leaves the others. */
  function Drain(r: Registry, known: set<nat>): Registry {
    r.(needInit := map f | f in r.needInit && f != 0 && f !in known :: r.needInit[f])
  }

  /** Lookup maps are the inverses of the client descriptors, awaited
      initialisations are subscriptions, and no bucket is empty. */
  ghost predicate Consistent(r: Registry) {
    && (forall t: nat, c: nat :: Has(r.byThread, t, c) <==> c in r.clients && r.clients[c].thread == Some(t))
    && (forall k: nat, c: nat :: Has(r.byPubKey, k, c) <==> c in r.clients && r.clients[c].pubKey == Some(k))
    && (forall t: nat, c: nat :: Has(r.needInit, t, c) ==> Has(r.byThread, t, c))
    && NoEmptyBucket(r.byThread) && NoEmptyBucket(r.byPubKey) && NoEmptyBucket(r.needInit)
  }

  /** Registering an ID keeps the registry consistent exactly when no client with
      a feed or a key is registered under it. */
  lemma AddClientExact(r: Registry, id: nat)
    requires Consistent(r)
    ensures Consistent(AddClient(r, id)) <==> (id !in r.clients || r.clients[id] == Descriptor(None, None))
  {
    var r' := AddClient(r, id);
    if id in r.clients && r.clients[id].thread.Some? {
      assert Has(r'.byThread, r.clients[id].thread.value, id);
    } else if id in r.clients && r.clients[id].pubKey.Some? {
      assert Has(r'.byPubKey, r.clients[id].pubKey.value, id);
    }
  }

  /** Setting a key keeps the registry consistent exactly when the client is
      unknown or had no other key: it must be done only once. */
  lemma SetClientKeyExact(r: Registry, id: nat, key: nat)
    requires Consistent(r)
    ensures Consistent(SetClientKey(r, id, key)) <==>
              (id !in r.clients || r.clients[id].pubKey == None || r.clients[id].pubKey == Some(key))
    ensures id in r.clients ==> SetClientKey(r, id, key).clients[id] == r.clients[id].(pubKey := Some(key))
    ensures SetClientKey(r, id, key).clients - {id} == r.clients - {id}
  {
  }

  lemma RemoveClientConsistent(r: Registry, id: nat)
    requires Consistent(r)
    ensures Consistent(RemoveClient(r, id))
    ensures id !in RemoveClient(r, id).clients
    ensures forall k ::
              && !Has(RemoveClient(r, id).byThread, k, id)
              && !Has(RemoveClient(r, id).byPubKey, k, id)
              && !Has(RemoveClient(r, id).needInit, k, id)
  {
  }

  lemma SetClientThreadConsistent(r: Registry, id: nat, thread: nat)
    requires Consistent(r)
    ensures Consistent(SetClientThread(r, id, thread))
    ensures id in r.clients ==> forall f :: Has(SetClientThread(r, id, thread).needInit, f, id) <==> f == thread
  {
  }

  lemma DrainConsistent(r: Registry, known: set<nat>)
    requires Consistent(r)
    ensures Consistent(Drain(r, known))
    ensures forall f, c :: Has(Drain(r, known).needInit, f, c) <==> Has(r.needInit, f, c) && f != 0 && f !in known
  {
  }

  // -------------------------------------------------------------- whole runs

  datatype Op =
    | Add(id: nat)
    | Drop(id: nat)
    | Key(id: nat, key: nat)
    | Thread(id: nat, thread: nat)
    | Drained(known: set<nat>)

  function Do(r: Registry, op: Op): Registry {
    match op
    case Add(id) => AddClient(r, id)
    case Drop(id) => RemoveClient(r, id)
    case Key(id, key) => SetClientKey(r, id, key)
    case Thread(id, thread) => SetClientThread(r, id, thread)
    case Drained(known) => Drain(r, known)
  }

  /** Fresh IDs, and one key per client. */
  predicate Allowed(r: Registry, op: Op) {
    match op
    case Add(id) => id !in r.clients
    case Key(id, _) => id in r.clients ==> r.clients[id].pubKey.None?
    case _ => true
  }

  function Replay(r: Registry, ops: seq<Op>): Registry
    decreases |ops|
  {
    if ops == [] then r else Replay(Do(r, ops[0]), ops[1..])
  }

  predicate AllAllowed(r: Registry, ops: seq<Op>)
    decreases |ops|
  {
    ops != [] ==> Allowed(r, ops[0]) && AllAllowed(Do(r, ops[0]), ops[1..])
  }

  lemma DoKeepsConsistent(r: Registry, op: Op)
    requires Consistent(r) && Allowed(r, op)
    ensures Consistent(Do(r, op))
  {
    match op
    case Add(id) => AddClientExact(r, id);
    case Drop(id) => RemoveClientConsistent(r, id);
    case Key(id, key) => SetClientKeyExact(r, id, key);
    case Thread(id, thread) => SetClientThreadConsistent(r, id, thread);
    case Drained(known) => DrainConsistent(r, known);
  }

  lemma {:induction false} RunsStayConsistent(r: Registry, ops: seq<Op>)
    requires Consistent(r) && AllAllowed(r, ops)
    ensures Consistent(Replay(r, ops))
    decreases |ops|
  {
    if ops == [] {
    } else {
      DoKeepsConsistent(r, ops[0]);
      RunsStayConsistent(Do(r, ops[0]), ops[1..]);
    }
  }

  // --------------------------------------------------- one client's history

  /** What the operations so far say of one client. */
  datatype Known = Absent | Present(thread: Option<nat>, pubKey: Option<nat>, awaits: bool)

  function Track(k: Known, id: nat, op: Op): Known {
    match op
    case Add(c) => if c == id then Present(None, None, false) else k
    case Drop(c) => if c == id then Absent else k
    case Key(c, key) => if c == id && k.Present? then k.(pubKey := Some(key)) else k
    case Thread(c, t) => if c == id && k.Present? then k.(thread := Some(t), awaits := true) else k
    case Drained(known) =>
      if k.Present? && k.thread.Some? && (k.thread.value == 0 || k.thread.value in known)
      then k.(awaits := false)
      else k
  }

  function Tracked(k: Known, id: nat, ops: seq<Op>): Known
    decreases |ops|
  {
    if ops == [] then k else Tracked(Track(k, id, ops[0]), id, ops[1..])
  }

  /** The registry holds exactly this of the client. */
  ghost predicate Describes(r: Registry, id: nat, k: Known) {
    && (k.Absent? <==> id !in r.clients)
    && (k.Present? ==> id in r.clients && r.clients[id] == Descriptor(k.thread, k.pubKey))
    && (forall t: nat :: Has(r.byThread, t, id) <==> k.Present? && k.thread == Some(t))
    && (forall p: nat :: Has(r.byPubKey, p, id) <==> k.Present? && k.pubKey == Some(p))
    && (forall t: nat :: Has(r.needInit, t, id) <==> k.Present? && k.thread == Some(t) && k.awaits)
  }

  lemma DoDescribes(r: Registry, id: nat, k: Known, op: Op)
    requires Consistent(r) && Allowed(r, op) && Describes(r, id, k)
    ensures Describes(Do(r, op), id, Track(k, id, op))
  {
    match op
    case Add(_) =>
    case Drop(c) => DropDescribes(r, id, k, c);
    case Key(_, _) =>
    case Thread(c, t) => ThreadDescribes(r, id, k, c, t);
    case Drained(known) => DrainConsistent(r, known);
  }

  lemma DropDescribes(r: Registry, id: nat, k: Known, c: nat)
    requires Consistent(r) && Describes(r, id, k)
    ensures Describes(RemoveClient(r, c), id, Track(k, id, Drop(c)))
  {
  }

  lemma ThreadDescribes(r: Registry, id: nat, k: Known, c: nat, t: nat)
    requires Consistent(r) && Describes(r, id, k)
    ensures Describes(SetClientThread(r, c, t), id, Track(k, id, Thread(c, t)))
  {
  }

  /** After every sequence of operations the registry holds of each client the key
      and the thread it was last given, in the descriptor and in both lookups, and
      awaits its initialisation exactly if no drainer took it since. */
  lemma {:induction false} RunsDescribe(r: Registry, id: nat, k: Known, ops: seq<Op>)
    requires Consistent(r) && AllAllowed(r, ops) && Describes(r, id, k)
    ensures Describes(Replay(r, ops), id, Tracked(k, id, ops))
    decreases |ops|
  {
    if ops == [] {
    } else {
      DoKeepsConsistent(r, ops[0]);
      DoDescribes(r, id, k, ops[0]);
      RunsDescribe(Do(r, ops[0]), id, Track(k, id, ops[0]), ops[1..]);
    }
  }

  /** After every sequence of operations that ends in a removal, the client is
      in none of the maps. */
  lemma RemovedClientLeavesNoTrace(ops: seq<Op>, id: nat)
    requires AllAllowed(EMPTY, ops)
    ensures var r := RemoveClient(Replay(EMPTY, ops), id);
            && Consistent(r)
            && id !in r.clients
            && forall k :: !Has(r.byThread, k, id) && !Has(r.byPubKey, k, id) && !Has(r.needInit, k, id)
  {
    RunsStayConsistent(EMPTY, ops);
    RemoveClientConsistent(Replay(EMPTY, ops), id);
  }

  /** The global registry behind its lock. */
  class ClientRegistry {
    var clients: map<nat, Descriptor>
    var byThread: SetMap
    var byPubKey: SetMap
    var needInit: SetMap

    ghost function State(): Registry
      reads this
    {
      Registry(clients, byThread, byPubKey, needInit)
    }

    ghost predicate Valid()
      reads this
    {
      Consistent(State())
    }

    constructor ()
      ensures Valid() && State() == EMPTY
    {
      clients, byThread, byPubKey, needInit := map[], map[], map[], map[];
    }

    method Unsubscribe(client: nat, thread: Option<nat>)
      modifies this`byThread, this`needInit
      ensures State() == RemoveFromThread(old(State()), client, thread)
    {
      if thread.Some? {
        byThread := Remove(byThread, thread.value, client);
        needInit := Remove(needInit, thread.value, client);
      }
    }

    method Connect(id: nat)
      requires Valid()
      modifies this
      ensures State() == AddClient(old(State()), id)
      ensures Valid() <==> (id !in old(clients) || old(clients)[id] == Descriptor(None, None))
    {
      AddClientExact(State(), id);
      clients := clients[id := Descriptor(None, None)];
    }

    method Disconnect(id: nat)
      requires Valid()
      modifies this
      ensures Valid() && State() == RemoveClient(old(State()), id)
    {
      RemoveClientConsistent(State(), id);
      if id in clients {
        var d := clients[id];
        clients := clients - {id};
        if d.pubKey.Some? {
          byPubKey := Remove(byPubKey, d.pubKey.value, id);
        }
        Unsubscribe(id, d.thread);
      }
    }

    method SetKey(id: nat, key: nat)
      requires Valid()
      modifies this
      ensures State() == SetClientKey(old(State()), id, key)
      ensures Valid() <==>
              (id !in old(clients) || old(clients)[id].pubKey == None || old(clients)[id].pubKey == Some(key))
    {
      SetClientKeyExact(State(), id, key);
      if id in clients {
        byPubKey := Insert(byPubKey, key, id);
        clients := clients[id := clients[id].(pubKey := Some(key))];
      }
    }

    method SetThread(id: nat, thread: nat)
      requires Valid()
      modifies this
      ensures Valid() && State() == SetClientThread(old(State()), id, thread)
    {
      SetClientThreadConsistent(State(), id, thread);
      if id in clients {
        var previous := clients[id].thread;
        clients := clients[id := clients[id].(thread := Some(thread))];
        Unsubscribe(id, previous);
        byThread := Insert(byThread, thread, id);
        needInit := Insert(needInit, thread, id);
      }
    }
  }
}
